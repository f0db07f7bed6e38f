// What every interleaving keeps, stated worker by worker. Everything here holds in failing runs too,
// except the clauses guarded by `!s.cancelled`.
module PipelineInvariant {
  import opened Bits
  import opened Options
  import opened Spsc
  import opened Controllers
  import opened Features
  import opened Pipeline

  // ---- Histories ----

  function Flat(bs: seq<Batch>): seq<Snapshot> {
    if |bs| == 0 then [] else Flat(bs[..|bs| - 1]) + Last(bs).items
  }

  datatype Link = Link(snap: Snapshot, batch: Batch)

  function Links(b: Batch): seq<Link> { seq(|b.items|, i requires 0 <= i < |b.items| => Link(b.items[i], b)) }

  // Every event of every batch, paired with its batch.
  function Expand(bs: seq<Batch>): seq<Link> {
    if |bs| == 0 then [] else Expand(bs[..|bs| - 1]) + Links(Last(bs))
  }

  function AlphaAfter(c: Config, xs: seq<Snapshot>): real {
    if |xs| == 0 then c.alphaInitial else NextAlpha(c, AlphaAfter(c, xs[..|xs| - 1]), Last(xs).used)
  }

  function UsersAfter(xs: seq<Snapshot>): Users {
    if |xs| == 0 then map[] else ExtractUsers(UsersAfter(xs[..|xs| - 1]), Last(xs).event, Last(xs).alpha)
  }

  function ControlAfter(c: Config, starts: seq<Start>): BatchControl {
    if |starts| == 0 then BatchControl(c.batchInitial, 0, 0, 0)
    else NextControl(c, ControlAfter(c, starts[..|starts| - 1]), Last(starts).observation.value)
  }

  function PressureBefore(starts: seq<Start>, j: nat): real
    requires j <= |starts|
  {
    if j == 0 then 0.0 else starts[j - 1].observation.value
  }

  // The snapshots are the source's events in order, each computed from the history before it.
  ghost predicate GoodHistory(env: Env, started: nat, xs: seq<Snapshot>) {
    |xs| == 0 || (GoodHistory(env, started, xs[..|xs| - 1]) && Follows(env, started, xs[..|xs| - 1], Last(xs)))
  }

  ghost predicate Follows(env: Env, started: nat, xs: seq<Snapshot>, m: Snapshot) {
    && |xs| < |env.events| && m.event == env.events[|xs|]
    && m.alpha == NextAlpha(env.config, AlphaAfter(env.config, xs), m.used)
    && Admissible(UsersAfter(xs), env.config.maxKeys, m.event, m.alpha)
    && m.x == ExtractVector(env.num, UsersAfter(xs), m.event, m.alpha)
    && started <= m.created <= m.loaded
    && (|xs| > 0 ==>
          !Regresses(Some(Last(xs).event), m.event)
          && Last(xs).created <= m.created && Last(xs).used.generation <= m.used.generation)
  }

  // ---- Derived views ----

  predicate Delivered(s: State) { s.batches.producer.PushReturned? && s.batches.producer.ok }

  predicate Open(s: State) { |s.batcher.batch.items| > 0 && !Delivered(s) }

  // Every batch begun, delivered or not.
  function Begun(s: State): seq<Batch> {
    if Open(s) then s.batches.pushed + [s.batcher.batch] else s.batches.pushed
  }

  // The event popped from the feature ring but not yet in a batch.
  function InHand(s: State): seq<Snapshot> {
    match s.features.consumer
    case PopReturned(Some(Holds(v))) => [v]
    case _ => if s.batcher.hand.Some? then [s.batcher.hand.value] else []
  }

  predicate Drained<T>(q: Ring<T>) { q.closed && q.popped == |q.pushed| }

  predicate IsWhole(x: real) { x == x.Floor as real }

  // A whole number of the slots - 1 usable slots.
  predicate SlotFraction(slots: nat, raw: real) {
    Fraction(raw) && IsWhole(raw * (slots - 1) as real)
  }

  predicate UsedRight(starts: seq<Start>, used: Observation, loaded: nat) {
    || used == NO_OBSERVATION
    || (1 <= used.generation <= |starts| && used == starts[used.generation - 1].observation && used.sampled <= loaded)
  }

  // ---- Source ----

  predicate Pushing<T>(p: Producer<T>) { p.LoadClosed? || InFlight(p) }

  predicate SourceEndpoint(s: State) {
    var w, q := s.source, s.features;
    && q.pushed <= w.made && |w.made| <= |q.pushed| + 1
    && (w.pc == SPush ==>
          (Pushing(q.producer) && |w.made| == |q.pushed| + 1 && q.producer.v == Last(w.made))
          || (q.producer.PushReturned? && |w.made| == |q.pushed| + if q.producer.ok then 0 else 1))
    && (w.pc == SRetry ==> q.producer.ProducerIdle? && |w.made| == |q.pushed| + 1)
    && (w.pc !in {SPush, SRetry, SDone} ==> q.producer.ProducerIdle? && |w.made| == |q.pushed|)
    && (q.closed ==> w.pc == SDone && q.producer.ProducerIdle? && |w.made| == |q.pushed|)
  }

  predicate SourceCursor(env: Env, s: State) {
    var w, n := s.source, |env.events|;
    && s.failed == s.cancelled
    && |w.made| <= w.index <= n && w.read == w.index && w.extracted == |w.made|
    && (w.pc in {SCreated, SObserve, SLoaded} ==> w.index == |w.made| + 1)
    && (w.pc !in {SCreated, SObserve, SLoaded, SDone} ==> w.index == |w.made|)
    && (w.pc != SDone ==> w.previous == if w.index == 0 then None else Some(env.events[w.index - 1]))
    && (w.pc in {SCreated, SObserve, SLoaded} && |w.made| > 0 ==>
          !Regresses(Some(env.events[|w.made| - 1]), env.events[|w.made|]))
    && (w.pc == SFinish ==> s.cancelled || w.index == n)
    && (w.pc == SClose ==> w.index == n)
    && (s.features.closed ==> w.index == |w.made| == n)
    && (w.pc == SDone && !s.cancelled ==> s.features.closed)
  }

  // `alpha` and `users` are the controller and feature state the history leaves behind.
  ghost predicate History(env: Env, started: nat, w: Source) {
    GoodHistory(env, started, w.made) && w.alpha == AlphaAfter(env.config, w.made) && w.users == UsersAfter(w.made)
  }

  predicate UsesRight(starts: seq<Start>, made: seq<Snapshot>, clock: nat) {
    forall i | 0 <= i < |made| ::
      UsedRight(starts, made[i].used, made[i].loaded) && made[i].created <= made[i].loaded <= clock
  }

  predicate Observing(started: nat, clock: nat, starts: seq<Start>, w: Source) {
    && (w.pc in {SObserve, SLoaded} ==>
          started <= w.created <= clock && (|w.made| > 0 ==> Last(w.made).created <= w.created))
    && (w.pc == SLoaded ==>
          UsedRight(starts, w.observed, clock)
          && (|w.made| > 0 ==> Last(w.made).used.generation <= w.observed.generation))
  }

  ghost predicate SourceData(env: Env, s: State) {
    && History(env, s.started, s.source)
    && UsesRight(s.batcher.starts, s.source.made, s.clock)
    && Observing(s.started, s.clock, s.batcher.starts, s.source)
  }

  // ---- Feedback ----

  ghost predicate StartRight(env: Env, started: nat, clock: nat, starts: seq<Start>, j: nat)
    requires j < |starts| && env.config.batchSlots >= 2
  {
    var o := starts[j].observation;
    && o.generation == j + 1 < WORD && o.available && Fraction(o.value)
    && SlotFraction(env.config.batchSlots, starts[j].raw)
    && o.value == EmaStep(env.config.occupancyGain, PressureBefore(starts, j), starts[j].raw)
    && started <= o.sampled <= clock && (j > 0 ==> starts[j - 1].observation.sampled <= o.sampled)
  }

  ghost predicate StartsRight(env: Env, started: nat, clock: nat, starts: seq<Start>, signal: Observation)
    requires env.config.batchSlots >= 2
  {
    && started <= clock
    && signal == (if |starts| == 0 then NO_OBSERVATION else Last(starts).observation)
    && (forall j | 0 <= j < |starts| :: StartRight(env, started, clock, starts, j))
  }

  predicate Sampling(c: Config, started: nat, clock: nat, signal: Observation, w: Batcher) {
    var n := |w.starts|;
    && (w.pc in {BClock, BStore} ==>
          Fraction(w.ema) && SlotFraction(c.batchSlots, w.raw)
          && w.ema == EmaStep(c.occupancyGain, PressureBefore(w.starts, n), w.raw))
    && (w.pc == BStore ==> started <= w.sampled <= clock && (n > 0 ==> signal.sampled <= w.sampled))
    && (w.pc == BStart ==> n > 0 && w.raw == Last(w.starts).raw)
    && (w.pc !in {BClock, BStore, BDone} ==> w.ema == PressureBefore(w.starts, n))
  }

  ghost predicate Feedback(env: Env, s: State)
    requires env.config.batchSlots >= 2
  {
    && StartsRight(env, s.started, s.clock, s.batcher.starts, s.signal)
    && Sampling(env.config, s.started, s.clock, s.signal, s.batcher)
  }

  // ---- Batcher ----

  predicate BatcherEndpoint(s: State) {
    var w, q, r := s.batcher, s.features, s.batches;
    && (w.pc in {BOccupancy, BClock, BStore, BStart} ==> w.hand.Some? && |w.batch.items| == 0)
    && (w.pc !in {BOccupancy, BClock, BStore, BStart, BDone} ==> w.hand.None?)
    && (w.pc == BPop ==> q.consumer.PopLoadRead? || q.consumer.PopLoadWrite? || q.consumer.CopySlot?
                         || q.consumer.StoreRead? || q.consumer.PopReturned?)
    && (w.pc == BDrain ==>
          q.consumer.DrainClosed? || q.consumer.DrainRead? || q.consumer.DrainWrite? || q.consumer.DrainReturned?)
    && (w.pc !in {BPop, BDrain, BDone} ==> q.consumer.ConsumerIdle?)
    && (w.pc == BOccupancy ==> r.producer.SizeWrite? || r.producer.SizeRead? || r.producer.SizeReturned?)
    && (w.pc == BPush ==> (Pushing(r.producer) && r.producer.v == w.batch) || r.producer.PushReturned?)
    && (w.pc !in {BOccupancy, BPush, BDone} ==> r.producer.ProducerIdle?)
    && (w.pc in {BTrace, BPush, BRetry} ==> |w.batch.items| > 0 && (|w.batch.items| == w.batch.target || w.tail))
    && (w.pc in {BCheck, BPop, BDrain, BEnd} ==> |w.batch.items| == 0 || |w.batch.items| < w.batch.target)
    && (w.tail ==> w.pc in {BTrace, BPush, BRetry, BClose, BDone} && Drained(q))
    && (w.tail && |w.batch.items| > 0 ==> |w.batch.items| < w.batch.target)
    && (w.pc == BEnd ==> s.cancelled || Drained(q))
    && (w.pc == BClose ==> Drained(q) && |w.batch.items| == 0)
    && (r.closed ==> w.pc == BDone && Drained(q) && |w.batch.items| == 0 && w.hand.None? && q.consumer.ConsumerIdle?
                     && r.producer.ProducerIdle?)
    && (w.pc == BDone && !s.cancelled ==> r.closed)
  }

  predicate BatcherCounters(s: State) {
    var w, b := s.batcher, Begun(s);
    && w.batched == |Flat(b)|
    && w.batches + (if Delivered(s) then 1 else 0) == |s.batches.pushed|
    && w.tails == (if w.tail then 1 else 0)
    && |b| <= |w.starts| <= |b| + 1
    && (w.pc != BDone ==> |w.starts| == |b| + if w.pc == BStart then 1 else 0)
    && (s.batches.closed ==> |w.starts| == |b|)
    && s.features.popped <= |s.features.pushed|
    && Flat(b) + InHand(s) == s.features.pushed[..s.features.popped]
  }

  // Batch j belongs to start j; its events used pressure no newer than its own record, and its first
  // event, created before the record was sampled, used strictly older pressure.
  predicate BatchRight(c: Config, starts: seq<Start>, b: Batch, j: nat)
    requires j < |starts|
  {
    && 0 < |b.items| <= b.target <= MAX_BATCH
    && b.start == starts[j].observation && b.raw == starts[j].raw
    && b.target == ControlAfter(c, starts[..j + 1]).current
    && (forall t | 0 <= t < |b.items| :: b.items[t].used.generation <= j + 1)
    && b.items[0].used.generation <= j && b.items[0].created <= b.start.sampled
  }

  predicate BatchesRight(c: Config, starts: seq<Start>, bs: seq<Batch>) {
    |bs| <= |starts| && forall j | 0 <= j < |bs| :: BatchRight(c, starts, bs[j], j)
  }

  // Only the batch flushed at the end of input may be short of its target.
  predicate FullButTail(s: State) {
    var b := Begun(s);
    && (forall j | 0 <= j < |s.batches.pushed| :: |b[j].items| < b[j].target ==> s.batcher.tail && j == |b| - 1)
    && (s.batcher.tail ==> |b| > 0 && |Last(b).items| < Last(b).target)
  }

  predicate ControlRight(c: Config, s: State) {
    var w := s.batcher;
    && (w.pc == BStart ==> |w.starts| > 0 && w.control == ControlAfter(c, w.starts[..|w.starts| - 1]))
    && (w.pc !in {BStart, BDone} ==> w.control == ControlAfter(c, w.starts))
    && (s.batches.closed ==>
          w.actions == ControlAfter(c, w.starts).actions && w.changes == ControlAfter(c, w.starts).changes)
  }

  predicate HandRight(s: State) {
    var w := s.batcher;
    && (w.pc in {BOccupancy, BClock, BStore, BStart} ==>
          w.hand.Some? && w.hand.value.used.generation <= |Begun(s)| && w.hand.value.created <= s.clock)
    && (w.pc == BStore ==> w.hand.Some? && w.hand.value.created <= w.sampled)
    && (w.pc == BStart ==> w.hand.Some? && w.hand.value.created <= s.signal.sampled)
  }

  predicate BatcherData(env: Env, s: State) {
    && BatchesRight(env.config, s.batcher.starts, Begun(s))
    && FullButTail(s) && ControlRight(env.config, s) && HandRight(s)
  }

  predicate TraceData(s: State) {
    var w, b := s.batcher, Begun(s);
    && |s.batches.pushed| <= |w.trace| <= |b|
    && (w.pc in {BPush, BRetry} ==> |w.trace| == |b|)
    && (w.pc !in {BPush, BRetry, BDone} ==> |w.trace| == |s.batches.pushed|)
    && (forall j | 0 <= j < |w.trace| ::
          |b[j].items| > 0 && w.trace[j] == RowOf(b[j], |b[j].items| < b[j].target))
  }

  // ---- Scorer ----

  predicate ScorerEndpoint(s: State) {
    var w, r := s.scorer, s.batches;
    && (w.current.None? ==> w.i == 0)
    && (w.current.Some? ==> 0 < |w.current.value.items| && w.i <= |w.current.value.items|)
    && (w.pc == KPop ==> r.consumer.PopLoadRead? || r.consumer.PopLoadWrite? || r.consumer.CopySlot?
                         || r.consumer.StoreRead? || r.consumer.PopReturned?)
    && (w.pc == KDrain ==>
          r.consumer.DrainClosed? || r.consumer.DrainRead? || r.consumer.DrainWrite? || r.consumer.DrainReturned?)
    && (w.pc !in {KPop, KDrain, KDone} ==> r.consumer.ConsumerIdle?)
    && (w.pc in {KCheck, KPop, KDrain, KFlush} ==> w.current.None?)
    && (w.pc in {KItem, KClock} ==> w.current.Some?)
    && (w.pc == KClock ==> w.i < |w.current.value.items|)
    && (w.pc == KFlush ==> s.cancelled || Drained(r))
    && (w.pc == KDone && !s.cancelled ==> Drained(r) && w.current.None? && r.consumer.ConsumerIdle?)
  }

  predicate Returned<T>(c: Consumer<T>) { c.PopReturned? && c.item.Some? }

  predicate ScorerCounters(s: State) {
    var w, r := s.scorer, s.batches;
    && w.completed + (if w.current.Some? then 1 else 0) + (if Returned(r.consumer) then 1 else 0)
          == r.popped <= |r.pushed|
    && (w.current.Some? ==> w.current.value == r.pushed[w.completed])
    && |w.rows| == |Flat(r.pushed[..w.completed])| + w.i
    && w.written == |w.rows|
    && (w.pc != KDone ==> w.scored == |w.rows| + if w.pc == KClock then 1 else 0)
    && (w.pc == KDone && !s.cancelled ==> w.scored == |w.rows|)
  }

  predicate RowRight(env: Env, clock: nat, row: PredictionRow, link: Link) {
    && row == MakeRow(link.snap, Score(env.num, env.model, link.snap.x), row.scored, link.batch)
    && link.batch.start.sampled <= row.scored && link.snap.loaded <= row.scored <= clock
  }

  predicate ScorerData(env: Env, s: State) {
    var w, e := s.scorer, Expand(s.batches.pushed);
    && |w.rows| <= |e|
    && (forall k | 0 <= k < |w.rows| :: RowRight(env, s.clock, w.rows[k], e[k]))
    && (forall k | 0 < k < |w.rows| :: w.rows[k - 1].scored <= w.rows[k].scored)
    && (w.pc == KClock ==> w.current.Some? && w.i < |w.current.value.items|
                           && w.score == Score(env.num, env.model, w.current.value.items[w.i].x))
  }

  // ---- The invariant ----

  ghost predicate Rings(env: Env, s: State) {
    && Spsc.Inv(s.features) && Spsc.Inv(s.batches)
    && s.features.slots == env.config.featureSlots && s.batches.slots == env.config.batchSlots
  }

  ghost predicate SourceInv(env: Env, s: State) {
    SourceEndpoint(s) && SourceCursor(env, s) && SourceData(env, s)
  }

  ghost predicate BatcherInv(env: Env, s: State)
    requires env.config.batchSlots >= 2
  {
    Feedback(env, s) && BatcherEndpoint(s) && BatcherCounters(s) && BatcherData(env, s) && TraceData(s)
  }

  ghost predicate ScorerInv(env: Env, s: State) {
    ScorerEndpoint(s) && ScorerCounters(s) && ScorerData(env, s)
  }

  ghost predicate Invariant(env: Env, s: State) {
    Valid(env.config) && Rings(env, s) && SourceInv(env, s) && BatcherInv(env, s) && ScorerInv(env, s)
  }

  lemma ValidRings(c: Config)
    requires Valid(c)
    ensures IsPowerOfTwo(c.featureSlots) && IsPowerOfTwo(c.batchSlots)
    ensures c.featureSlots <= WORD && c.batchSlots <= WORD
  {
    PowerOfTwoTest(c.featureSlots);
    PowerOfTwoTest(c.batchSlots);
  }

  lemma InitInvariant(env: Env, started: nat)
    requires Valid(env.config)
    ensures Invariant(env, Init(env, started))
  {
    ValidRings(env.config);
    CreateInv<Snapshot>(env.config.featureSlots);
    CreateInv<Batch>(env.config.batchSlots);
  }

  // ---- Sequence lemmas ----

  lemma FlatAppend(bs: seq<Batch>, b: Batch)
    ensures Flat(bs + [b]) == Flat(bs) + b.items
    ensures Expand(bs + [b]) == Expand(bs) + Links(b)
  {
    assert (bs + [b])[..|bs|] == bs;
  }

  lemma {:induction false} ExpandFlat(bs: seq<Batch>)
    ensures |Expand(bs)| == |Flat(bs)|
    ensures forall k | 0 <= k < |Flat(bs)| :: Expand(bs)[k].snap == Flat(bs)[k]
  {
    if |bs| > 0 { ExpandFlat(bs[..|bs| - 1]); }
  }

  // Event t of batch j sits |Flat(bs[..j])| + t places into the expansion.
  lemma {:induction false} ExpandAt(bs: seq<Batch>, j: nat, t: nat)
    requires j < |bs| && t < |bs[j].items|
    ensures |Flat(bs[..j])| + t < |Expand(bs)| && Expand(bs)[|Flat(bs[..j])| + t] == Link(bs[j].items[t], bs[j])
  {
    var p := bs[..|bs| - 1];
    ExpandFlat(p);
    if j < |p| {
      assert p[..j] == bs[..j];
      ExpandAt(p, j, t);
    } else {
      assert bs[..j] == p;
    }
  }

  lemma FlatPrefix(bs: seq<Batch>, cs: seq<Batch>)
    requires bs <= cs
    ensures |Expand(bs)| <= |Expand(cs)| && Expand(bs) == Expand(cs)[..|Expand(bs)|]
    ensures |Flat(bs)| <= |Flat(cs)| && Flat(bs) == Flat(cs)[..|Flat(bs)|]
    decreases |cs|
  {
    if |bs| < |cs| {
      FlatPrefix(bs, cs[..|cs| - 1]);
    } else {
      assert bs == cs;
    }
  }

  lemma {:induction false} GoodPrefix(env: Env, started: nat, xs: seq<Snapshot>, n: nat)
    requires GoodHistory(env, started, xs) && n < |xs|
    ensures GoodHistory(env, started, xs[..n]) && Follows(env, started, xs[..n], xs[n])
    decreases |xs|
  {
    if n < |xs| - 1 {
      GoodPrefix(env, started, xs[..|xs| - 1], n);
      assert xs[..|xs| - 1][..n] == xs[..n];
    }
  }

  lemma {:induction false} AlphaInRange(c: Config, xs: seq<Snapshot>)
    requires ValidAlpha(c.alphaMin, c.alphaMax, c.alphaDelta, c.alphaInitial)
    ensures c.alphaMin <= AlphaAfter(c, xs) <= c.alphaMax
  {
    if |xs| > 0 { AlphaInRange(c, xs[..|xs| - 1]); }
  }

  lemma {:induction false} ControlInRange(c: Config, starts: seq<Start>)
    requires Valid(c)
    ensures Bounded(Law(c), ControlAfter(c, starts))
  {
    if |starts| > 0 {
      var before := ControlAfter(c, starts[..|starts| - 1]);
      ControlInRange(c, starts[..|starts| - 1]);
      BatchStepBounded(Law(c), before, Last(starts).observation.value);
    }
  }
}
