// The engine cannot deadlock or spin forever: a measure no step raises, and in every live state a
// worker whose own steps lower it whatever the others do.
module PipelineProgress {
  import opened Bits
  import opened Spsc
  import opened Controllers
  import opened Features
  import opened Pipeline
  import opened PipelineInvariant
  import opened PipelineSource
  import opened PipelineBatcher
  import opened PipelineScorer
  import opened PipelineSafety

  // A push that has not yet reserved a slot, and a pop or drain that has not yet found anything.
  predicate Polls<T>(p: Producer<T>) {
    p.LoadClosed? || p.LoadWrite? || p.LoadRead? || (p.PushReturned? && !p.ok)
  }

  // ---- Work left, worker by worker; a polling loop stays at one rank ----

  function PushRank<T>(p: Producer<T>): nat {
    match p
    case BeginWrite(_, _, _) => 4
    case EndWrite(_, _, _) => 3
    case StoreWrite(_, _, _) => 2
    case PushReturned(ok) => if ok then 1 else 5
    case _ => 5
  }

  function SourceRank(s: State): nat {
    match s.source.pc
    case SDone => 0
    case SClose => 1
    case SFinish => 2
    case SNext => 3
    case SCheck => 4
    case SPush => 4 + PushRank(s.features.producer)
    case SRetry => 9
    case SLoaded => 10
    case SObserve => 11
    case SCreated => 12
  }

  function SourceWork(n: int, s: State): int {
    12 * (n - s.source.index) + SourceRank(s)
  }

  function PopRank<T>(c: Consumer<T>, poll: nat): nat
    requires poll >= 2
  {
    match c
    case CopySlot(_) => poll - 1
    case StoreRead(_, _) => poll - 2
    case PopReturned(item) => if item.Some? then poll + 18 else poll
    case DrainReturned(drained) => if drained then poll - 1 else poll
    case _ => poll
  }

  function SizeRank<T>(p: Producer<T>): nat {
    match p case SizeReturned(_) => 0 case SizeRead(_) => 1 case _ => 2
  }

  const POLL := 12

  function BatcherRank(s: State): nat {
    var base := if s.batcher.tail then 0 else POLL;
    match s.batcher.pc
    case BDone => 0
    case BClose => 1
    case BEnd => 9
    case BCheck => POLL
    case BPop => PopRank(s.features.consumer, POLL)
    case BDrain => PopRank(s.features.consumer, POLL)
    case BOccupancy => POLL + 15 + SizeRank(s.batches.producer)
    case BClock => POLL + 14
    case BStore => POLL + 13
    case BStart => POLL + 12
    case BTrace => base + 8
    case BPush => base + 2 + PushRank(s.batches.producer)
    case BRetry => base + 7
  }

  function BatcherWork(n: int, s: State): int {
    24 * (n - s.features.popped) + BatcherRank(s)
  }

  function ScorerRank(s: State): nat {
    match s.scorer.pc
    case KDone => 0
    case KFlush => 1
    case KCheck => 6
    case KPop => PopRank(s.batches.consumer, 6)
    case KDrain => PopRank(s.batches.consumer, 6)
    case KItem => 8
    case KClock => 7
  }

  function ScorerWork(n: int, s: State): int {
    24 * (n - s.batches.popped) + 4 * (n - |s.scorer.rows|) + ScorerRank(s)
  }

  function Work(env: Env, s: State): int {
    var n := |env.events|;
    SourceWork(n, s) + BatcherWork(n, s) + ScorerWork(n, s)
  }

  lemma {:induction false} NoMoreBatchesThanEvents(bs: seq<Batch>)
    requires forall j | 0 <= j < |bs| :: |bs[j].items| > 0
    ensures |bs| <= |Flat(bs)|
  {
    if |bs| > 0 { NoMoreBatchesThanEvents(bs[..|bs| - 1]); }
  }

  lemma WorkIsNatural(env: Env, s: State)
    requires Invariant(env, s)
    ensures 0 <= Work(env, s)
    ensures s.source.index <= |env.events| && s.features.popped <= |env.events| && s.batches.popped <= |env.events|
    ensures |s.scorer.rows| <= |env.events|
  {
    hide Valid, Spsc.Inv, SourceData, Feedback, Sampling, TraceData, BatcherEndpoint, ScorerEndpoint, Flat, RowRight,
         BatchRight, Expand;
    var bs := s.batches.pushed;
    forall j | 0 <= j < |bs| ensures |bs[j].items| > 0 {
      NonemptyBatch(env, s, j);
    }
    NoMoreBatchesThanEvents(bs);
    FlatPrefix(bs, Begun(s));
    ExpandFlat(bs);
    assert |Flat(Begun(s)) + InHand(s)| == s.features.popped;
  }

  lemma NonemptyBatch(env: Env, s: State, j: nat)
    requires BatchesRight(env.config, s.batcher.starts, Begun(s)) && j < |s.batches.pushed|
    ensures |s.batches.pushed[j].items| > 0
  {
    hide ControlAfter;
    assert BatchRight(env.config, s.batcher.starts, Begun(s)[j], j);
  }

  // ---- Who can make progress now ----

  predicate Full<T>(q: Ring<T>) { |q.pushed| - q.popped == q.slots - 1 }

  predicate SourcePolls(s: State) {
    s.source.pc == SRetry || (s.source.pc == SPush && Polls(s.features.producer))
  }

  predicate PushPolls(s: State) {
    s.batcher.pc == BRetry || (s.batcher.pc == BPush && Polls(s.batches.producer))
  }

  predicate Looks<T>(c: Consumer<T>) {
    c.PopLoadRead? || c.PopLoadWrite? || (c.PopReturned? && c.item.None?)
    || c.DrainClosed? || c.DrainRead? || c.DrainWrite? || (c.DrainReturned? && !c.drained)
  }

  predicate FeaturePolls(s: State) {
    s.batcher.pc == BCheck || ((s.batcher.pc == BPop || s.batcher.pc == BDrain) && Looks(s.features.consumer))
  }

  predicate ScorerPolls(s: State) {
    s.scorer.pc == KCheck || ((s.scorer.pc == KPop || s.scorer.pc == KDrain) && Looks(s.batches.consumer))
  }

  predicate SourceBlocked(s: State) { s.source.pc == SDone || (SourcePolls(s) && Full(s.features)) }

  predicate BatcherBlocked(s: State) { s.batcher.pc == BDone || (PushPolls(s) && Full(s.batches)) }

  // The first worker of the chain that is neither finished nor waiting for room.
  function Helper(s: State): Action {
    if !SourceBlocked(s) then RunSource else if !BatcherBlocked(s) then RunBatcher else RunScorer
  }

  // Steps a polling worker needs before it finds room or an item.
  function PushDistance<T>(p: Producer<T>): nat {
    match p
    case LoadRead(_, _) => 1
    case LoadWrite(_) => 2
    case LoadClosed(_) => 3
    case PushReturned(ok) => if ok then 0 else 5
    case _ => 0
  }

  function PopDistance<T>(q: Ring<T>): nat {
    var empty := q.popped >= |q.pushed|;
    match q.consumer
    case PopLoadWrite(_) => if empty then 5 else 1
    case PopLoadRead => if empty then 6 else 2
    case DrainWrite(_) => if empty then 1 else 5
    case DrainRead => if empty then 2 else 6
    case DrainClosed => if empty then 3 else 7
    case PopReturned(item) => if item.Some? then 0 else if empty then 4 else 8
    case DrainReturned(drained) => if drained then 0 else if empty then 8 else 4
    case _ => 0
  }

  function CheckDistance<T>(q: Ring<T>): nat { if q.popped >= |q.pushed| then 7 else 3 }

  function SourceDistance(s: State): nat {
    if s.source.pc == SRetry then 4 else if s.source.pc == SPush then PushDistance(s.features.producer) else 0
  }

  function BatcherDistance(s: State): nat {
    if s.batcher.pc == BRetry then 4
    else if s.batcher.pc == BPush then PushDistance(s.batches.producer)
    else if s.batcher.pc == BCheck then CheckDistance(s.features)
    else if s.batcher.pc == BPop || s.batcher.pc == BDrain then PopDistance(s.features)
    else 0
  }

  function ScorerDistance(s: State): nat {
    if s.scorer.pc == KCheck then CheckDistance(s.batches)
    else if s.scorer.pc == KPop || s.scorer.pc == KDrain then PopDistance(s.batches)
    else 0
  }

  function Distance(s: State): nat {
    match Helper(s)
    case RunSource => SourceDistance(s)
    case RunBatcher => BatcherDistance(s)
    case _ => ScorerDistance(s)
  }

  function Rank(env: Env, s: State): int { 9 * Work(env, s) + Distance(s) }

  // ---- Each worker's own step ----

  // An item to take, or the certainty that none will come.
  predicate Settled<T>(q: Ring<T>) { q.popped < |q.pushed| || q.closed }

  // A step inside a polling loop: no work done, one place further round the loop.
  predicate SourceSpins(s: State, s': State) {
    && SourcePolls(s) && SourcePolls(s') && s'.features.pushed == s.features.pushed
          && s'.features.popped == s.features.popped
    && (!Full(s.features) ==> SourceDistance(s') < SourceDistance(s))
  }

  // A source step lowers the source's work, except inside the push polling loop.
  lemma SourceWorks(env: Env, s: State)
    requires Spsc.Inv(s.features) && SourceEndpoint(s) && s.source.pc != SDone && s.source.index <= |env.events|
    ensures var s', n := SourceStep(env, s), |env.events|;
            SourceWork(n, s') < SourceWork(n, s) || (SourceWork(n, s') == SourceWork(n, s) && SourceSpins(s, s'))
  {
    hide Spsc.Inv, Admissible, ExtractVector, ExtractUsers, NextAlpha, ProducerStep;
    if s.source.pc == SPush {
      hide SourceStep, SourceWork, SourceSpins, SourceEndpoint;
      SourcePushWorks(env, s);
    }
  }

  lemma SourcePushWorks(env: Env, s: State)
    requires Spsc.Inv(s.features) && SourceEndpoint(s) && s.source.pc == SPush
    ensures var s', n := SourceStep(env, s), |env.events|;
            SourceWork(n, s') < SourceWork(n, s) || (SourceWork(n, s') == SourceWork(n, s) && SourceSpins(s, s'))
  {
    hide Spsc.Inv, Extract;
    ProducerRefines(s.features);
    RoomFound(s.features);
  }

  // A push that reads the consumer's index while there is room goes on to write.
  lemma RoomFound<T>(q: Ring<T>)
    requires Spsc.Inv(q)
    ensures q.producer.LoadRead? ==> (ProducerStep(q).producer == PushReturned(false) <==> Full(q))
  {
    if q.producer.LoadRead? {
      FullTest(q);
    }
  }

  predicate BatcherSpins(s: State, s': State) {
    && s'.features.pushed == s.features.pushed && s'.features.popped == s.features.popped
    && s'.features.closed == s.features.closed
    && s'.batches.pushed == s.batches.pushed && s'.batches.popped == s.batches.popped
    && ((FeaturePolls(s) && FeaturePolls(s') && (Settled(s.features) ==> BatcherDistance(s') < BatcherDistance(s)))
        || (PushPolls(s) && PushPolls(s') && (!Full(s.batches) ==> BatcherDistance(s') < BatcherDistance(s))))
  }

  // A batcher step lowers the batcher's work, except inside its two polling loops.
  lemma BatcherWorks(env: Env, s: State)
    requires Spsc.Inv(s.features) && Spsc.Inv(s.batches) && BatcherEndpoint(s) && s.batcher.pc != BDone
    ensures var s', n := BatcherStep(env, s), |env.events|;
            BatcherWork(n, s') < BatcherWork(n, s) || (BatcherWork(n, s') == BatcherWork(n, s) && BatcherSpins(s, s'))
  {
    hide Spsc.Inv, PopFeature, DrainFeatures, PushBatch, SampleOccupancy, StartBatch, BatcherWork, BatcherSpins,
         BatcherEndpoint;
    match s.batcher.pc {
      case BPop => PopWorks(env, s);
      case BDrain => DrainWorks(env, s);
      case BPush => PushWorks(env, s);
      case BOccupancy => OccupancyWorks(env, s);
      case BCheck => LoopWorks(env, s);
      case BRetry => LoopWorks(env, s);
      case _ => PlainWorks(env, s);
    }
  }

  // The head of the event loop and a blocked retry.
  lemma LoopWorks(env: Env, s: State)
    requires s.batcher.pc == BCheck || s.batcher.pc == BRetry
    ensures var s', n := BatcherStep(env, s), |env.events|;
            BatcherWork(n, s') < BatcherWork(n, s) || (BatcherWork(n, s') == BatcherWork(n, s) && BatcherSpins(s, s'))
  {
  }

  // Steps outside every loop.
  lemma PlainWorks(env: Env, s: State)
    requires s.batcher.pc in {BClock, BStore, BStart, BTrace, BEnd, BClose} && BatcherEndpoint(s)
    ensures BatcherWork(|env.events|, BatcherStep(env, s)) < BatcherWork(|env.events|, s)
  {
    hide EmaStep, NextControl, Storable, Stored, Fraction;
  }

  lemma PopWorks(env: Env, s: State)
    requires Spsc.Inv(s.features) && BatcherEndpoint(s) && s.batcher.pc == BPop
    ensures var s', n := PopFeature(s), |env.events|;
            BatcherWork(n, s') < BatcherWork(n, s) || (BatcherWork(n, s') == BatcherWork(n, s) && BatcherSpins(s, s'))
  {
    hide Spsc.Inv;
    ConsumerKnows(s.features);
    ConsumerRefines(s.features);
  }

  lemma DrainWorks(env: Env, s: State)
    requires Spsc.Inv(s.features) && BatcherEndpoint(s) && s.batcher.pc == BDrain
    ensures var s', n := DrainFeatures(s), |env.events|;
            BatcherWork(n, s') < BatcherWork(n, s) || (BatcherWork(n, s') == BatcherWork(n, s) && BatcherSpins(s, s'))
  {
    hide Spsc.Inv;
    ConsumerKnows(s.features);
    ConsumerRefines(s.features);
  }

  lemma PushWorks(env: Env, s: State)
    requires Spsc.Inv(s.batches) && BatcherEndpoint(s) && s.batcher.pc == BPush
    ensures var s', n := PushBatch(s), |env.events|;
            BatcherWork(n, s') < BatcherWork(n, s) || (BatcherWork(n, s') == BatcherWork(n, s) && BatcherSpins(s, s'))
  {
    hide Spsc.Inv;
    ProducerRefines(s.batches);
    RoomFound(s.batches);
  }

  lemma OccupancyWorks(env: Env, s: State)
    requires Spsc.Inv(s.batches) && BatcherEndpoint(s) && s.batcher.pc == BOccupancy
    ensures BatcherWork(|env.events|, SampleOccupancy(env, s)) < BatcherWork(|env.events|, s)
  {
    hide Spsc.Inv, EmaStep, And;
  }

  predicate ScorerSpins(s: State, s': State) {
    && s'.batches.pushed == s.batches.pushed && s'.batches.popped == s.batches.popped
    && s'.batches.closed == s.batches.closed
    && ScorerPolls(s) && ScorerPolls(s') && (Settled(s.batches) ==> ScorerDistance(s') < ScorerDistance(s))
  }

  // A scorer step lowers the scorer's work, except inside its polling loop.
  lemma ScorerWorks(env: Env, s: State)
    requires Spsc.Inv(s.batches) && ScorerEndpoint(s) && s.scorer.pc != KDone
    ensures var s', n := ScorerStep(env, s), |env.events|;
            ScorerWork(n, s') < ScorerWork(n, s) || (ScorerWork(n, s') == ScorerWork(n, s) && ScorerSpins(s, s'))
  {
    hide Spsc.Inv, Score, ConsumerStep;
    if s.scorer.pc == KPop || s.scorer.pc == KDrain {
      ScorerPollWorks(env, s);
    }
  }

  lemma ScorerPollWorks(env: Env, s: State)
    requires Spsc.Inv(s.batches) && ScorerEndpoint(s) && (s.scorer.pc == KPop || s.scorer.pc == KDrain)
    ensures var s', n := ScorerStep(env, s), |env.events|;
            ScorerWork(n, s') < ScorerWork(n, s) || (ScorerWork(n, s') == ScorerWork(n, s) && ScorerSpins(s, s'))
  {
    hide Spsc.Inv, ScorerStep, ScorerWork, ScorerSpins, ScorerEndpoint;
    if s.scorer.pc == KPop { ScorerPopWorks(env, s); } else { ScorerDrainWorks(env, s); }
  }

  lemma ScorerPopWorks(env: Env, s: State)
    requires Spsc.Inv(s.batches) && ScorerEndpoint(s) && s.scorer.pc == KPop
    ensures var s', n := ScorerStep(env, s), |env.events|;
            ScorerWork(n, s') < ScorerWork(n, s) || (ScorerWork(n, s') == ScorerWork(n, s) && ScorerSpins(s, s'))
  {
    hide Spsc.Inv, Score;
    ConsumerKnows(s.batches);
    ConsumerRefines(s.batches);
  }

  lemma ScorerDrainWorks(env: Env, s: State)
    requires Spsc.Inv(s.batches) && ScorerEndpoint(s) && s.scorer.pc == KDrain
    ensures var s', n := ScorerStep(env, s), |env.events|;
            ScorerWork(n, s') < ScorerWork(n, s) || (ScorerWork(n, s') == ScorerWork(n, s) && ScorerSpins(s, s'))
  {
    hide Spsc.Inv, Score;
    ConsumerKnows(s.batches);
    ConsumerRefines(s.batches);
  }

  // ---- The helper makes progress whatever the others do ----

  lemma SourceSide(env: Env, s: State)
    requires Invariant(env, s)
    ensures Spsc.Inv(s.features) && Spsc.Inv(s.batches) && SourceEndpoint(s) && BatcherEndpoint(s) && ScorerEndpoint(s)
    ensures s.source.index <= |env.events| && s.failed == s.cancelled
    ensures s.source.pc == SDone && !s.cancelled ==> s.features.closed
    ensures s.features.closed ==> s.source.pc == SDone
    ensures s.batcher.pc == BDone && !s.cancelled ==> s.batches.closed && s.features.closed
    ensures s.batches.closed ==> s.batcher.pc == BDone
    ensures s.scorer.pc == KDone && !s.cancelled ==> s.batches.closed && s.features.closed
  {
    hide Valid, Spsc.Inv, SourceData, Feedback, BatcherCounters, BatcherData, TraceData, ScorerCounters, ScorerData;
  }

  lemma DistanceBound(s: State)
    ensures Distance(s) <= 8
  {
  }

  predicate Advances(env: Env, s: State, s': State, a: Action) {
    s'.cancelled || Joined(s') || Rank(env, s') < Rank(env, s)
    || (Rank(env, s') == Rank(env, s) && Helper(s') == Helper(s) && a != Helper(s))
  }

  lemma LessWork(env: Env, s: State, s': State, a: Action)
    requires Work(env, s') < Work(env, s)
    ensures Advances(env, s, s', a)
  {
    hide Work, Distance, Joined, Helper;
    DistanceBound(s');
  }

  lemma SourceAdvances(env: Env, s: State)
    requires Invariant(env, s) && !s.cancelled && !Joined(s)
    ensures Advances(env, s, SourceStep(env, s), RunSource)
  {
    hide Invariant, Spsc.Inv, SourceStep, SourceRank, BatcherRank, ScorerRank, SourceDistance, BatcherDistance,
         ScorerDistance;
    SourceSide(env, s);
    var s' := SourceStep(env, s);
    SourceRing(env, s);
    SourceLeaves(env, s);
    if s.source.pc == SDone {
      DoneStays(env, s);
    } else {
      SourceWorks(env, s);
      SourceOthers(env, s, s');
      if SourceWork(|env.events|, s') < SourceWork(|env.events|, s) {
        LessWork(env, s, s', RunSource);
      }
    }
  }

  lemma DoneStays(env: Env, s: State)
    ensures s.source.pc == SDone ==> SourceStep(env, s) == s
    ensures s.batcher.pc == BDone ==> BatcherStep(env, s) == s
    ensures s.scorer.pc == KDone ==> ScorerStep(env, s) == s
  {
  }

  // Another worker's work and distance do not read what a source step writes.
  lemma SourceOthers(env: Env, s: State, s': State)
    requires s'.batcher == s.batcher && s'.scorer == s.scorer && s'.batches == s.batches
    requires s'.features.consumer == s.features.consumer && s'.features.popped == s.features.popped
    ensures BatcherWork(|env.events|, s') == BatcherWork(|env.events|, s)
    ensures ScorerWork(|env.events|, s') == ScorerWork(|env.events|, s)
    ensures BatcherBlocked(s') == BatcherBlocked(s) && ScorerDistance(s') == ScorerDistance(s)
    ensures s'.features.pushed == s.features.pushed ==> BatcherDistance(s') == BatcherDistance(s)
  {
  }

  lemma BatcherAdvances(env: Env, s: State)
    requires Invariant(env, s) && !s.cancelled && !Joined(s)
    ensures Advances(env, s, BatcherStep(env, s), RunBatcher)
  {
    hide Invariant, Spsc.Inv, BatcherStep, SourceRank, BatcherRank, ScorerRank, SourceDistance, BatcherDistance,
         ScorerDistance, BatcherEndpoint, SourceEndpoint;
    SourceSide(env, s);
    var s' := BatcherStep(env, s);
    BatcherRings(env, s);
    BatcherStepMoves(env, s);
    if s.batcher.pc == BDone {
      DoneStays(env, s);
    } else {
      BatcherWorks(env, s);
      BatcherOthers(env, s, s');
      if BatcherWork(|env.events|, s') < BatcherWork(|env.events|, s) {
        LessWork(env, s, s', RunBatcher);
      }
    }
  }

  lemma BatcherOthers(env: Env, s: State, s': State)
    requires s'.source == s.source && s'.scorer == s.scorer && s'.features.producer == s.features.producer
    requires s'.batches.consumer == s.batches.consumer && s'.batches.popped == s.batches.popped
    ensures SourceWork(|env.events|, s') == SourceWork(|env.events|, s)
    ensures ScorerWork(|env.events|, s') == ScorerWork(|env.events|, s)
    ensures SourceDistance(s') == SourceDistance(s) && SourcePolls(s') == SourcePolls(s)
    ensures s'.batches.pushed == s.batches.pushed ==> ScorerDistance(s') == ScorerDistance(s)
  {
  }

  lemma ScorerAdvances(env: Env, s: State)
    requires Invariant(env, s) && !s.cancelled && !Joined(s)
    ensures Advances(env, s, ScorerStep(env, s), RunScorer)
  {
    hide Invariant, Spsc.Inv, ScorerStep, SourceRank, BatcherRank, ScorerRank, SourceDistance, BatcherDistance,
         ScorerDistance, BatcherEndpoint, SourceEndpoint, ScorerEndpoint;
    SourceSide(env, s);
    var s' := ScorerStep(env, s);
    ScorerRing(env, s);
    ScorerLeaves(env, s);
    if s.scorer.pc == KDone {
      DoneStays(env, s);
    } else {
      ScorerWorks(env, s);
      ScorerOthers(env, s, s');
      if ScorerWork(|env.events|, s') < ScorerWork(|env.events|, s) {
        LessWork(env, s, s', RunScorer);
      }
    }
  }

  lemma ScorerOthers(env: Env, s: State, s': State)
    requires s'.source == s.source && s'.batcher == s.batcher && s'.features == s.features
    requires s'.batches.producer == s.batches.producer && s'.batches.pushed == s.batches.pushed
    ensures SourceWork(|env.events|, s') == SourceWork(|env.events|, s)
    ensures BatcherWork(|env.events|, s') == BatcherWork(|env.events|, s)
    ensures SourceDistance(s') == SourceDistance(s) && SourceBlocked(s') == SourceBlocked(s)
    ensures BatcherDistance(s') == BatcherDistance(s) && PushPolls(s') == PushPolls(s)
  {
  }
}
