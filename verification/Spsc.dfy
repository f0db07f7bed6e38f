// The single-producer/single-consumer ring buffer, one atomic load or store per step.
// `pushed` and `popped` are history variables: no step's control flow or data reads them.
module Spsc {
  import opened Bits
  import opened Options

  // A slot is Undefined before its first write and while a (non-atomic) write to it is in progress.
  datatype Slot<T> = Undefined | Holds(value: T)

  type SlotCount = n: nat | n >= 2 witness 2

  // Where the producer thread is inside try_push or occupancy.
  datatype Producer<T> =
    | ProducerIdle
    | LoadClosed(v: T)
    | LoadWrite(v: T)
    | LoadRead(v: T, w: nat)
    | BeginWrite(v: T, w: nat, next: nat)
    | EndWrite(v: T, w: nat, next: nat)
    | StoreWrite(v: T, w: nat, next: nat)
    | PushReturned(ok: bool)
    | SizeWrite
    | SizeRead(w: nat)
    | SizeReturned(size: nat)

  // Where the consumer thread is inside try_pop or closed_and_empty.
  datatype Consumer<T> =
    | ConsumerIdle
    | PopLoadRead
    | PopLoadWrite(r: nat)
    | CopySlot(r: nat)
    | StoreRead(r: nat, copied: Slot<T>)
    | PopReturned(item: Option<Slot<T>>)
    | DrainClosed
    | DrainRead
    | DrainWrite(r: nat)
    | DrainReturned(drained: bool)

  datatype Ring<T> = Ring(
    slots: SlotCount, buffer: seq<Slot<T>>, write: nat, read: nat, closed: bool,
    producer: Producer<T>, consumer: Consumer<T>,
    pushed: seq<T>, popped: nat)

  function Create<T>(slots: SlotCount): Ring<T> {
    Ring(slots, seq(slots, i => Undefined), 0, 0, false, ProducerIdle, ConsumerIdle, [], 0)
  }

  function Put<T>(buffer: seq<Slot<T>>, i: nat, s: Slot<T>): seq<Slot<T>> {
    if i < |buffer| then buffer[i := s] else buffer
  }

  function Get<T>(buffer: seq<Slot<T>>, i: nat): Slot<T> {
    if i < |buffer| then buffer[i] else Undefined
  }

  // One step of try_push or occupancy.
  function ProducerStep<T>(q: Ring<T>): Ring<T> {
    match q.producer
    case LoadClosed(v) => q.(producer := if q.closed then PushReturned(false) else LoadWrite(v))
    case LoadWrite(v) => q.(producer := LoadRead(v, q.write))
    case LoadRead(v, w) =>
      var next := And(w + 1, q.slots - 1);
      q.(producer := if next == q.read then PushReturned(false) else BeginWrite(v, w, next))
    case BeginWrite(v, w, next) => q.(buffer := Put(q.buffer, w, Undefined), producer := EndWrite(v, w, next))
    case EndWrite(v, w, next) => q.(buffer := Put(q.buffer, w, Holds(v)), producer := StoreWrite(v, w, next))
    case StoreWrite(v, w, next) => q.(write := next, producer := PushReturned(true), pushed := q.pushed + [v])
    case SizeWrite => q.(producer := SizeRead(q.write))
    case SizeRead(w) => q.(producer := SizeReturned(And((w - q.read) % WORD, q.slots - 1)))
    case _ => q
  }

  // One step of try_pop or closed_and_empty.
  function ConsumerStep<T>(q: Ring<T>): Ring<T> {
    match q.consumer
    case PopLoadRead => q.(consumer := PopLoadWrite(q.read))
    case PopLoadWrite(r) => q.(consumer := if r == q.write then PopReturned(None) else CopySlot(r))
    case CopySlot(r) => q.(consumer := StoreRead(r, Get(q.buffer, r)))
    case StoreRead(r, copied) =>
      q.(read := And(r + 1, q.slots - 1), consumer := PopReturned(Some(copied)), popped := q.popped + 1)
    case DrainClosed => q.(consumer := if q.closed then DrainRead else DrainReturned(false))
    case DrainRead => q.(consumer := DrainWrite(q.read))
    case DrainWrite(r) => q.(consumer := DrainReturned(r == q.write))
    case _ => q
  }

  function Close<T>(q: Ring<T>): Ring<T> {
    q.(closed := true)
  }

  // A push that has passed its closed-check and has not returned.
  predicate InFlight<T>(p: Producer<T>) {
    p.LoadWrite? || p.LoadRead? || p.BeginWrite? || p.EndWrite? || p.StoreWrite?
  }

  // Slot of the n-th item ever pushed.
  function Index(n: nat, slots: nat): nat
    requires slots > 0
  {
    if n < slots then n else Index(n - slots, slots)
  }

  lemma {:induction false} IndexInRange(n: nat, slots: nat)
    requires slots > 0
    ensures Index(n, slots) < slots
  {
    if n >= slots { IndexInRange(n - slots, slots); }
  }

  lemma {:induction false} IndexSuccessor(n: nat, slots: nat)
    requires slots > 0
    ensures Index(n, slots) < slots
    ensures Index(n + 1, slots) == if Index(n, slots) + 1 == slots then 0 else Index(n, slots) + 1
  {
    if n >= slots { IndexSuccessor(n - slots, slots); }
  }

  // Fewer than `slots` consecutive items never share a slot.
  lemma {:induction false} IndexDistance(a: nat, b: nat, slots: nat)
    requires slots > 0 && a <= b < a + slots
    ensures Index(a, slots) < slots && Index(b, slots) < slots
    ensures b - a == if Index(a, slots) <= Index(b, slots) then Index(b, slots) - Index(a, slots)
                     else Index(b, slots) - Index(a, slots) + slots
  {
    if a >= slots {
      IndexDistance(a - slots, b - slots, slots);
    }
  }

  // ---- The protocol invariant ----

  ghost predicate ProducerInv<T>(q: Ring<T>)
    requires |q.buffer| == q.slots
  {
    match q.producer
    case LoadWrite(_) => !q.closed
    case LoadRead(_, w) => !q.closed && w == q.write
    case BeginWrite(_, w, next) => Reserved(q, w, next)
    case EndWrite(_, w, next) => Reserved(q, w, next)
    case StoreWrite(v, w, next) => Reserved(q, w, next) && Get(q.buffer, w) == Holds(v)
    case SizeRead(w) => w == q.write
    case SizeReturned(size) => size < q.slots
    case _ => true
  }

  ghost predicate Reserved<T>(q: Ring<T>, w: nat, next: nat) {
    !q.closed && w == q.write && next == Index(|q.pushed| + 1, q.slots) && |q.pushed| + 1 < q.popped + q.slots
  }

  ghost predicate ConsumerInv<T>(q: Ring<T>)
    requires q.popped <= |q.pushed|
  {
    match q.consumer
    case PopLoadWrite(r) => r == q.read
    case CopySlot(r) => r == q.read && q.popped < |q.pushed|
    case StoreRead(r, copied) => r == q.read && q.popped < |q.pushed| && copied == Holds(q.pushed[q.popped])
    case PopReturned(Some(copied)) => q.popped > 0 && copied == Holds(q.pushed[q.popped - 1])
    case DrainRead => q.closed
    case DrainWrite(r) => q.closed && r == q.read
    case DrainReturned(drained) => drained ==> q.closed && q.popped == |q.pushed|
    case _ => true
  }

  ghost predicate Shape<T>(q: Ring<T>) {
    && IsPowerOfTwo(q.slots) && q.slots <= WORD
    && |q.buffer| == q.slots
    && q.popped <= |q.pushed| < q.popped + q.slots
    && q.write == Index(|q.pushed|, q.slots) < q.slots
    && q.read == Index(q.popped, q.slots) < q.slots
  }

  ghost predicate Live<T>(q: Ring<T>) {
    forall i {:trigger q.pushed[i]} | q.popped <= i < |q.pushed| ::
        Get(q.buffer, Index(i, q.slots)) == Holds(q.pushed[i])
  }

  ghost predicate Inv<T>(q: Ring<T>) {
    Shape(q) && Live(q) && ProducerInv(q) && ConsumerInv(q)
  }

  // What a client may rely on: the items pushed and not yet popped, in order.
  ghost function Contents<T>(q: Ring<T>): seq<T>
    requires Shape(q)
  {
    q.pushed[q.popped..]
  }

  lemma CreateInv<T>(slots: SlotCount)
    requires IsPowerOfTwo(slots) && slots <= WORD
    ensures Inv(Create<T>(slots)) && Contents(Create<T>(slots)) == []
  {
  }

  // The slot being written is not the slot of any live item.
  lemma WriteSlotIsFree<T>(q: Ring<T>)
    requires Shape(q)
    ensures forall i {:trigger Index(i, q.slots)} | q.popped <= i < |q.pushed| :: Index(i, q.slots) != q.write
  {
    forall i {:trigger Index(i, q.slots)} | q.popped <= i < |q.pushed|
      ensures Index(i, q.slots) != q.write
    {
      IndexDistance(i, |q.pushed|, q.slots);
    }
  }

  // The masked comparison `next == read` is exactly "slots - 1 items are queued".
  lemma FullTest<T>(q: Ring<T>)
    requires Shape(q)
    ensures And(q.write + 1, q.slots - 1) == Index(|q.pushed| + 1, q.slots)
    ensures And(q.write + 1, q.slots - 1) == q.read <==> |Contents(q)| == q.slots - 1
  {
    MaskSuccessor(q.write, q.slots);
    IndexSuccessor(|q.pushed|, q.slots);
    IndexDistance(q.popped, |q.pushed|, q.slots);
  }

  lemma EmptyTest<T>(q: Ring<T>)
    requires Shape(q)
    ensures q.read == q.write <==> |Contents(q)| == 0
  {
    IndexDistance(q.popped, |q.pushed|, q.slots);
  }

  lemma SizeTest<T>(q: Ring<T>)
    requires Shape(q)
    ensures And((q.write - q.read) % WORD, q.slots - 1) == |Contents(q)|
  {
    IndexDistance(q.popped, |q.pushed|, q.slots);
    MaskedDifference(q.write, q.read, q.slots);
  }

  // What a producer step leaves alone.
  lemma ProducerLeaves<T>(q: Ring<T>)
    ensures var q' := ProducerStep(q);
            && q'.popped == q.popped && q'.consumer == q.consumer && q'.closed == q.closed && q'.slots == q.slots
            && q'.read == q.read
  {
    hide And;
  }

  lemma ProducerKeeps<T>(q: Ring<T>)
    requires Inv(q)
    ensures Inv(ProducerStep(q))
  {
    hide And;
    match q.producer {
      case LoadRead(_, _) => LoadReadKeeps(q);
      case BeginWrite(_, _, _) => WriteSlotRefines(q);
      case EndWrite(_, _, _) => WriteSlotRefines(q);
      case StoreWrite(_, _, _) => StoreWriteRefines(q);
      case SizeRead(_) => SizeTest(q);
      case _ =>
    }
  }

  lemma LoadReadKeeps<T>(q: Ring<T>)
    requires Inv(q) && q.producer.LoadRead?
    ensures Inv(ProducerStep(q))
  {
    hide And;
    FullTest(q);
  }

  // Every producer step refines the bounded FIFO: only the final store changes the contents, it
  // appends the caller's value below capacity on an open queue, and a push is refused only when
  // the queue is closed or holds slots - 1 items at the load that decides.
  lemma ProducerRefines<T>(q: Ring<T>)
    requires Inv(q)
    ensures var q' := ProducerStep(q);
            && Inv(q') && q'.popped == q.popped && q'.consumer == q.consumer && q'.closed == q.closed
                  && q'.slots == q.slots
            && (q.producer.StoreWrite?
                ==> q'.pushed == q.pushed + [q.producer.v] && q'.producer == PushReturned(true)
                    && Contents(q') == Contents(q) + [q.producer.v] && |Contents(q')| <= q.slots - 1 && !q.closed)
            && (!q.producer.StoreWrite? ==> q'.pushed == q.pushed)
            && (q'.producer == PushReturned(false) && q.producer != q'.producer
                ==> (q.producer.LoadClosed? && q.closed) || (q.producer.LoadRead? && |Contents(q)| == q.slots - 1))
            && (q.producer.SizeRead? ==> q'.producer == SizeReturned(|Contents(q)|))
  {
    hide And, Live;
    ProducerKeeps(q);
    ProducerLeaves(q);
    if q.producer.LoadRead? {
      FullTest(q);
    } else if q.producer.SizeRead? {
      SizeTest(q);
    }
  }

  lemma WriteSlotRefines<T>(q: Ring<T>)
    requires Inv(q) && (q.producer.BeginWrite? || q.producer.EndWrite?)
    ensures Inv(ProducerStep(q))
  {
    WriteSlotIsFree(q);
  }

  lemma StoreWriteRefines<T>(q: Ring<T>)
    requires Inv(q) && q.producer.StoreWrite?
    ensures Inv(ProducerStep(q))
  {
    var q' := ProducerStep(q);
    IndexInRange(|q.pushed| + 1, q.slots);
    forall i {:trigger q'.pushed[i]} | q'.popped <= i < |q'.pushed|
      ensures Get(q'.buffer, Index(i, q'.slots)) == Holds(q'.pushed[i])
    {
      if i < |q.pushed| {
        assert q'.pushed[i] == q.pushed[i];
      }
    }
  }

  // What a consumer step leaves alone.
  lemma ConsumerLeaves<T>(q: Ring<T>)
    ensures var q' := ConsumerStep(q);
            && q'.pushed == q.pushed && q'.producer == q.producer && q'.closed == q.closed && q'.slots == q.slots
            && q'.write == q.write && q'.buffer == q.buffer
            && q'.popped == q.popped + if q.consumer.StoreRead? then 1 else 0
  {
    hide And;
  }

  lemma LiveRemains<T>(q: Ring<T>)
    requires Live(q)
    ensures Live(ConsumerStep(q))
  {
    hide ConsumerStep;
    ConsumerLeaves(q);
  }

  lemma HeadHeld<T>(q: Ring<T>)
    requires Shape(q) && Live(q) && q.popped < |q.pushed|
    ensures Get(q.buffer, q.read) == Holds(q.pushed[q.popped])
  {
    var head := q.pushed[q.popped];
  }

  lemma ConsumerKeeps<T>(q: Ring<T>)
    requires Inv(q)
    ensures Inv(ConsumerStep(q))
  {
    hide And, Live;
    LiveRemains(q);
    match q.consumer {
      case PopLoadWrite(_) => EmptyTest(q);
      case CopySlot(_) => HeadHeld(q);
      case DrainWrite(_) => EmptyTest(q);
      case StoreRead(_, _) => StoreReadRefines(q);
      case _ =>
    }
  }

  // Every consumer step refines the bounded FIFO: only the final store changes the contents, it
  // removes the head, which is the value the caller receives; a pop reports empty and a drain
  // reports true only when the contents are empty at the load that decides.
  lemma ConsumerRefines<T>(q: Ring<T>)
    requires Inv(q)
    ensures var q' := ConsumerStep(q);
            && Inv(q') && q'.pushed == q.pushed && q'.producer == q.producer && q'.closed == q.closed
                  && q'.slots == q.slots
            && (q.consumer.StoreRead?
                ==> |Contents(q)| > 0 && q'.popped == q.popped + 1
                    && q'.consumer == PopReturned(Some(Holds(Contents(q)[0]))) && Contents(q') == Contents(q)[1..])
            && (!q.consumer.StoreRead? ==> q'.popped == q.popped)
            && (q.consumer.PopLoadWrite? ==> (q'.consumer == PopReturned(None) <==> Contents(q) == []))
            && (q.consumer.DrainWrite? ==> (q'.consumer == DrainReturned(true) <==> Contents(q) == []))
  {
    hide And, Live;
    ConsumerKeeps(q);
    ConsumerLeaves(q);
    if q.consumer.PopLoadWrite? || q.consumer.DrainWrite? {
      EmptyTest(q);
    }
  }

  lemma StoreReadRefines<T>(q: Ring<T>)
    requires Inv(q) && q.consumer.StoreRead?
    ensures Inv(ConsumerStep(q))
  {
    hide And, Live;
    LiveRemains(q);
    IndexSuccessor(q.popped, q.slots);
    MaskSuccessor(q.read, q.slots);
  }

  lemma ConsumerKnows<T>(q: Ring<T>)
    requires Inv(q)
    ensures q.popped <= |q.pushed| && ConsumerInv(q)
  {
  }

  // Starting or finishing a call keeps the invariant.
  lemma ProducerCall<T>(q: Ring<T>, p: Producer<T>)
    requires Inv(q) && (p.ProducerIdle? || p.LoadClosed? || p.SizeWrite?)
    ensures Inv(q.(producer := p))
  {
  }

  lemma ConsumerCall<T>(q: Ring<T>, c: Consumer<T>)
    requires Inv(q) && (c.ConsumerIdle? || c.PopLoadRead? || c.DrainClosed?)
    ensures Inv(q.(consumer := c))
  {
  }

  // The producer may close its own queue between calls.
  lemma OwnClose<T>(q: Ring<T>)
    requires Inv(q) && q.producer.ProducerIdle?
    ensures Inv(Close(q))
  {
  }

  // The two threads never touch one slot at the same time.
  lemma NoSlotRace<T>(q: Ring<T>)
    requires Inv(q) && (q.producer.BeginWrite? || q.producer.EndWrite?) && q.consumer.CopySlot?
    ensures q.producer.w != q.consumer.r
  {
    WriteSlotIsFree(q);
    assert Index(q.popped, q.slots) == q.read;
  }
}
