// Any two clients of the ring buffer: one thread that pushes, asks for the size and closes, one that
// pops and asks whether the queue is drained, interleaved step by step.
module SpscClients {
  import opened Bits
  import opened Spsc

  // A thread starts a call only when its previous one has returned; Advance and Take perform one load,
  // store or copy of the call in progress, or hand its result over.
  datatype Move<T> = Push(v: T) | Size | Advance | CloseOwn | Pop | Drain | Take

  function Apply<T>(q: Ring<T>, m: Move<T>): Ring<T> {
    match m
    case Push(v) => if q.producer.ProducerIdle? then q.(producer := LoadClosed(v)) else q
    case Size => if q.producer.ProducerIdle? then q.(producer := SizeWrite) else q
    case Advance =>
      if q.producer.PushReturned? || q.producer.SizeReturned? then q.(producer := ProducerIdle) else ProducerStep(q)
    case CloseOwn => if q.producer.ProducerIdle? then Close(q) else q
    case Pop => if q.consumer.ConsumerIdle? then q.(consumer := PopLoadRead) else q
    case Drain => if q.consumer.ConsumerIdle? then q.(consumer := DrainClosed) else q
    case Take =>
      if q.consumer.PopReturned? || q.consumer.DrainReturned? then q.(consumer := ConsumerIdle) else ConsumerStep(q)
  }

  function Play<T>(q: Ring<T>, moves: seq<Move<T>>): Ring<T> {
    if |moves| == 0 then q else Apply(Play(q, moves[..|moves| - 1]), moves[|moves| - 1])
  }

  lemma ApplyKeepsInv<T>(q: Ring<T>, m: Move<T>)
    requires Inv(q)
    ensures Inv(Apply(q, m))
    ensures var q' := Apply(q, m);
            && q.popped <= q'.popped && (q.closed ==> q'.closed && q'.pushed == q.pushed)
  {
    hide Inv, ProducerStep, ConsumerStep;
    match m {
      case Push(v) => ProducerCall(q, LoadClosed(v));
      case Size => ProducerCall(q, SizeWrite);
      case Advance =>
        ProducerCall(q, ProducerIdle);
        ProducerRefines(q);
        OpenInFlight(q);
      case CloseOwn => if q.producer.ProducerIdle? { OwnClose(q); }
      case Pop => ConsumerCall(q, PopLoadRead);
      case Drain => ConsumerCall(q, DrainClosed);
      case Take =>
        ConsumerCall(q, ConsumerIdle);
        ConsumerRefines(q);
    }
  }

  // The protocol rules out a push in flight on a closed queue.
  lemma OpenInFlight<T>(q: Ring<T>)
    requires Inv(q)
    ensures InFlight(q.producer) ==> !q.closed
  {
  }

  lemma {:induction false} PlayKeepsInv<T>(q: Ring<T>, moves: seq<Move<T>>)
    requires Inv(q)
    ensures Inv(Play(q, moves))
  {
    hide Inv, Apply;
    if |moves| > 0 {
      PlayKeepsInv(q, moves[..|moves| - 1]);
      ApplyKeepsInv(Play(q, moves[..|moves| - 1]), moves[|moves| - 1]);
    }
  }

  // Over every interleaving from a new queue: never more than slots - 1 items, and what a pop hands over
  // is the item pushed in that position.
  lemma FirstInFirstOut<T>(slots: SlotCount, moves: seq<Move<T>>)
    requires IsPowerOfTwo(slots) && slots <= WORD
    ensures var q := Play(Create<T>(slots), moves);
            && q.popped <= |q.pushed| <= q.popped + slots - 1
            && (q.consumer.PopReturned? && q.consumer.item.Some?
                ==> q.popped > 0 && q.consumer.item.value == Holds(q.pushed[q.popped - 1]))
  {
    hide Play;
    CreateInv<T>(slots);
    PlayKeepsInv(Create<T>(slots), moves);
    SlotsKept(Create<T>(slots), moves);
  }

  lemma {:induction false} SlotsKept<T>(q: Ring<T>, moves: seq<Move<T>>)
    ensures Play(q, moves).slots == q.slots
  {
    if |moves| > 0 { SlotsKept(q, moves[..|moves| - 1]); }
  }

  lemma {:induction false} ClosedIsFinal<T>(q: Ring<T>, moves: seq<Move<T>>)
    requires Inv(q) && q.closed
    ensures var q' := Play(q, moves); q'.closed && q'.pushed == q.pushed && q.popped <= q'.popped <= |q'.pushed|
  {
    hide Inv, Apply;
    if |moves| > 0 {
      var before := Play(q, moves[..|moves| - 1]);
      ClosedIsFinal(q, moves[..|moves| - 1]);
      PlayKeepsInv(q, moves[..|moves| - 1]);
      ApplyKeepsInv(before, moves[|moves| - 1]);
      ConsumerKnows(Apply(before, moves[|moves| - 1]));
    } else {
      ConsumerKnows(q);
    }
  }

  // When only the producer closes, and between its calls, a drain that reports true is final: from then
  // on everything pushed has been popped, whatever either thread does.
  lemma DrainedIsFinal<T>(slots: SlotCount, before: seq<Move<T>>, later: seq<Move<T>>)
    requires IsPowerOfTwo(slots) && slots <= WORD
    ensures var q := Play(Create<T>(slots), before);
            q.consumer == DrainReturned(true) ==>
              var q' := Play(q, later); q'.closed && q'.pushed == q.pushed && q'.popped == |q'.pushed|
  {
    hide Play, Inv;
    var q := Play(Create<T>(slots), before);
    CreateInv<T>(slots);
    PlayKeepsInv(Create<T>(slots), before);
    ConsumerKnows(q);
    if q.consumer == DrainReturned(true) {
      ClosedIsFinal(q, later);
    }
  }

  // ---- Closing from outside ----

  // Nothing more is admitted once the queue is closed in this state.
  ghost predicate CloseIsBarrier<T(!new)>(q: Ring<T>) {
    forall moves: seq<Move<T>> :: Play(Close(q), moves).pushed == q.pushed
  }

  // Steps the consumer needs before its next completed pop, on a queue that is not empty.
  function PopRank<T>(c: Consumer<T>): nat {
    match c
    case DrainClosed => 9
    case DrainRead => 8
    case DrainWrite(_) => 7
    case DrainReturned(_) => 6
    case PopReturned(_) => 6
    case ConsumerIdle => 5
    case PopLoadRead => 4
    case PopLoadWrite(_) => 3
    case CopySlot(_) => 2
    case StoreRead(_, _) => 1
  }

  predicate HoldsRead<T>(q: Ring<T>) {
    match q.consumer
    case PopLoadWrite(r) => r == q.read
    case CopySlot(r) => r == q.read
    case StoreRead(r, _) => r == q.read
    case _ => true
  }

  // The consumer alone can complete a pop.
  lemma {:induction false} PopOnce<T>(q: Ring<T>) returns (moves: seq<Move<T>>)
    requires HoldsRead(q) && q.read != q.write
    ensures var q' := Play(q, moves);
            && q'.read == And(q.read + 1, q.slots - 1) && q'.write == q.write && q'.slots == q.slots
            && q'.producer == q.producer && q'.pushed == q.pushed
    decreases PopRank(q.consumer)
  {
    hide And;
    var m := if q.consumer.ConsumerIdle? then Pop else Take;
    var next := Apply(q, m);
    if q.consumer.StoreRead? {
      moves := [m];
      PlayOne(q, m);
    } else {
      var rest := PopOnce(next);
      moves := [m] + rest;
      PlayFirst(q, m, rest);
    }
  }

  lemma PlayOne<T>(q: Ring<T>, m: Move<T>)
    ensures Play(q, [m]) == Apply(q, m)
  {
    hide Apply;
    assert [m][..0] == [];
  }

  lemma {:induction false} PlayFirst<T>(q: Ring<T>, m: Move<T>, rest: seq<Move<T>>)
    ensures Play(q, [m] + rest) == Play(Apply(q, m), rest)
  {
    hide Apply;
    if |rest| == 0 {
      assert [m] + rest == [m];
      PlayOne(q, m);
    } else {
      PlayFirst(q, m, rest[..|rest| - 1]);
      assert ([m] + rest)[..|rest|] == [m] + rest[..|rest| - 1];
    }
  }

  // The producer alone can complete a push that has passed its closed-check, unless the queue is full
  // and the push has still to find out.
  lemma {:induction false} PushOnce<T>(q: Ring<T>) returns (moves: seq<Move<T>>)
    requires InFlight(q.producer)
    requires q.producer.LoadWrite? ==> And(q.write + 1, q.slots - 1) != q.read
    requires q.producer.LoadRead? ==> And(q.producer.w + 1, q.slots - 1) != q.read
    ensures |Play(q, moves).pushed| == |q.pushed| + 1
    decreases if q.producer.LoadWrite? then 5 else if q.producer.LoadRead? then 4 else if q.producer.BeginWrite? then 3
              else if q.producer.EndWrite? then 2 else 1
  {
    hide And;
    if q.producer.StoreWrite? {
      moves := [Advance];
      PlayOne(q, Advance);
    } else {
      var rest := PushOnce(Apply(q, Advance));
      moves := [Advance] + rest;
      PlayFirst(q, Advance, rest);
    }
  }

  lemma {:induction false} PlayAppend<T>(q: Ring<T>, a: seq<Move<T>>, b: seq<Move<T>>)
    ensures Play(q, a + b) == Play(Play(q, a), b)
  {
    hide Apply;
    if |b| == 0 {
      assert a + b == a;
    } else {
      assert (a + b)[..|a + b| - 1] == a + b[..|b| - 1];
      PlayAppend(q, a, b[..|b| - 1]);
    }
  }

  lemma QuietClose<T>(q: Ring<T>)
    requires Inv(q) && !InFlight(q.producer)
    ensures Inv(Close(q))
  {
  }

  lemma FullFacts<T>(q: Ring<T>)
    requires Inv(q) && (q.producer.LoadWrite? || q.producer.LoadRead?) && And(q.write + 1, q.slots - 1) == q.read
    ensures HoldsRead(q) && q.read != q.write && And(q.read + 1, q.slots - 1) != q.read
    ensures q.producer.LoadRead? ==> q.producer.w == q.write
  {
    hide And;
    FullTest(q);
    EmptyTest(q);
    MaskSuccessor(q.read, q.slots);
  }

  lemma Admits<T>(q: Ring<T>) returns (moves: seq<Move<T>>)
    requires Inv(q) && InFlight(q.producer)
    ensures |Play(Close(q), moves).pushed| == |q.pushed| + 1
  {
    hide And, Inv;
    var shut := Close(q);
    StaleWrite(q);
    if (q.producer.LoadWrite? || q.producer.LoadRead?) && And(q.write + 1, q.slots - 1) == q.read {
      FullFacts(q);
      var pops := PopOnce(shut);
      var pushes := PushOnce(Play(shut, pops));
      PlayAppend(shut, pops, pushes);
      moves := pops + pushes;
    } else {
      moves := PushOnce(shut);
    }
  }

  lemma StaleWrite<T>(q: Ring<T>)
    requires Inv(q)
    ensures q.producer.LoadRead? ==> q.producer.w == q.write
  {
  }

  // Closing is an admission barrier exactly when no push has passed its closed-check without returning:
  // any such push can still be completed, after a pop if the queue is full.
  lemma CloseIsBarrierExactly<T(!new)>(q: Ring<T>)
    requires Inv(q)
    ensures CloseIsBarrier(q) <==> !InFlight(q.producer)
  {
    hide Inv;
    if InFlight(q.producer) {
      var moves := Admits(q);
      assert Play(Close(q), moves).pushed != q.pushed;
    } else {
      QuietClose(q);
      forall moves: seq<Move<T>> ensures Play(Close(q), moves).pushed == q.pushed {
        ClosedIsFinal(Close(q), moves);
      }
    }
  }
}
