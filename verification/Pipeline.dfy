// The engine: a source/feature worker, a batching/feedback worker and a scoring worker joined by two
// rings and a feedback record. One step of a worker performs at most one access to shared state
// (an atomic load or store, a slot copy, a locked record access or a clock read).
// Any interleaving of steps is a run; memory is sequentially consistent.
//
// `made`, `starts` and `completed` are history variables: no step's control flow reads them, except
// that the source keeps its current snapshot as the last entry of `made`.
module Pipeline {
  import opened Bits
  import opened Options
  import opened Spsc
  import opened Controllers
  import opened Features

  datatype Mode = Fixed | BatchOnly | AlphaOnly | Joint

  datatype Config = Config(
    mode: Mode, batchInitial: nat, batchMin: nat, batchMax: nat,
    alphaInitial: real, alphaMin: real, alphaMax: real, alphaDelta: real,
    occupancyGain: real, low: real, high: real, shrink: real, grow: real,
    featureSlots: nat, batchSlots: nat, maxKeys: nat, timeoutSeconds: nat)

  const MAX_BATCH := 256

  function Law(c: Config): BatchLaw {
    BatchLaw(c.batchMin, c.batchMax, c.low, c.high, c.shrink, c.grow)
  }

  predicate AdaptsBatch(c: Config) { c.mode == BatchOnly || c.mode == Joint }

  predicate AdaptsAlpha(c: Config) { c.mode == AlphaOnly || c.mode == Joint }

  predicate ValidSlots(slots: nat) { slots >= 2 && And(slots, slots - 1) == 0 }

  // The configurations `validate` lets through.
  predicate Valid(c: Config) {
    && c.batchMax <= MAX_BATCH && 0 < c.batchMin <= c.batchInitial <= c.batchMax
    && c.maxKeys > 0 && 0 < c.timeoutSeconds <= 86400
    && c.featureSlots <= 1048576 && c.batchSlots <= 4096
    && ValidSlots(c.featureSlots) && ValidSlots(c.batchSlots)
    && ValidAlpha(c.alphaMin, c.alphaMax, c.alphaDelta, c.alphaInitial)
    && ValidLaw(Law(c), c.batchInitial)
    && ValidGain(c.occupancyGain)
  }

  datatype Batch = Batch(items: seq<Snapshot>, start: Observation, raw: real, target: nat)

  const EMPTY_BATCH := Batch([], NO_OBSERVATION, 0.0, 0)

  datatype TraceRow = TraceRow(generation: nat, sampled: nat, occupancy: real, ema: real, target: nat,
                               firstSeq: nat, lastSeq: nat, count: nat, tail: bool)

  datatype PredictionRow = PredictionRow(event: RawEvent, score: real, alpha: real, used: Observation,
                                         created: nat, scored: nat, latency: int, batchSize: nat,
                                         batchPressure: real, batchGeneration: nat, x: Vector, loaded: nat)

  // What run_pipeline is called with; `events` is what the source callback yields.
  datatype Env = Env(config: Config, num: Numerics, model: Model, events: seq<RawEvent>)

  // ---- Workers ----

  datatype SourcePc = SCheck | SNext | SCreated | SObserve | SLoaded | SPush | SRetry | SFinish | SClose | SDone

  datatype Source = Source(pc: SourcePc, index: nat, previous: Option<RawEvent>, created: nat, observed: Observation,
                           alpha: real, users: Users, made: seq<Snapshot>, read: nat, extracted: nat, retries: nat)

  datatype BatcherPc = BCheck | BPop | BDrain | BOccupancy | BClock | BStore | BStart | BTrace | BPush | BRetry
                     | BEnd | BClose | BDone

  // One batch start: the raw occupancy and the record stored for it.
  datatype Start = Start(raw: real, observation: Observation)

  datatype Batcher = Batcher(pc: BatcherPc, hand: Option<Snapshot>, ema: real, raw: real, sampled: nat,
                             control: BatchControl, batch: Batch, tail: bool, starts: seq<Start>, trace: seq<TraceRow>,
                             batched: nat, batches: nat, tails: nat, retries: nat, actions: nat, changes: nat)

  datatype ScorerPc = KCheck | KPop | KDrain | KItem | KClock | KFlush | KDone

  datatype Scorer = Scorer(pc: ScorerPc, current: Option<Batch>, i: nat, score: real, completed: nat,
                           rows: seq<PredictionRow>, scored: nat, written: nat)

  datatype State = State(clock: nat, started: nat, cancelled: bool, failed: bool, signal: Observation,
                         features: Ring<Snapshot>, batches: Ring<Batch>,
                         source: Source, batcher: Batcher, scorer: Scorer)

  function Init(env: Env, started: nat): State
    requires Valid(env.config)
  {
    var c := env.config;
    State(started, started, false, false, NO_OBSERVATION, Create(c.featureSlots), Create(c.batchSlots),
          Source(SCheck, 0, None, 0, NO_OBSERVATION, c.alphaInitial, map[], [], 0, 0, 0),
          Batcher(BCheck, None, 0.0, 0.0, 0, BatchControl(c.batchInitial, 0, 0, 0), EMPTY_BATCH, false, [], [],
                  0, 0, 0, 0, 0, 0),
          Scorer(KCheck, None, 0, 0.0, 0, [], 0, 0))
  }

  // An exception in a worker is recorded, cancels the run and ends that worker.
  function FailSource(s: State): State {
    s.(cancelled := true, failed := true, source := s.source.(pc := SDone))
  }

  function FailBatcher(s: State): State {
    s.(cancelled := true, failed := true, batcher := s.batcher.(pc := BDone))
  }

  function FailScorer(s: State): State {
    s.(cancelled := true, failed := true, scorer := s.scorer.(pc := KDone))
  }

  function Last<T>(xs: seq<T>): T
    requires |xs| > 0
  {
    xs[|xs| - 1]
  }

  // ---- Source worker ----

  predicate Regresses(previous: Option<RawEvent>, e: RawEvent) {
    previous.Some? && (e.seqno <= previous.value.seqno || e.ts < previous.value.ts)
  }

  function NextAlpha(c: Config, current: real, used: Observation): real {
    if AdaptsAlpha(c) && used.available
    then AlphaStep(c.alphaMin, c.alphaMax, c.alphaDelta, current, used.value) else current
  }

  function SourceStep(env: Env, s: State): State {
    var w := s.source;
    match w.pc
    case SCheck => s.(source := w.(pc := if s.cancelled then SFinish else SNext))
    case SNext =>
      if w.index >= |env.events| then s.(source := w.(pc := SFinish))
      else
        var e := env.events[w.index];
        var w' := w.(index := w.index + 1, read := w.read + 1);
        if Regresses(w.previous, e) then FailSource(s.(source := w'))
        else s.(source := w'.(pc := SCreated, previous := Some(e)))
    case SCreated => s.(source := w.(pc := SObserve, created := s.clock))
    case SObserve => s.(source := w.(pc := SLoaded, observed := s.signal))
    case SLoaded => Extract(env, s)
    case SPush =>
      (match s.features.producer
       case PushReturned(ok) =>
         s.(source := w.(pc := if ok then SCheck else SRetry), features := s.features.(producer := ProducerIdle))
       case _ => s.(features := ProducerStep(s.features)))
    case SRetry =>
      if s.cancelled || |w.made| == 0 then s.(source := w.(pc := SDone))
      else s.(source := w.(pc := SPush, retries := (w.retries + 1) % WORD),
              features := s.features.(producer := LoadClosed(Last(w.made))))
    case SFinish => s.(source := w.(pc := if s.cancelled then SDone else SClose))
    case SClose => s.(source := w.(pc := SDone), features := Close(s.features))
    case SDone => s
  }

  function Extract(env: Env, s: State): State {
    var w, c := s.source, env.config;
    if w.previous.None? || (AdaptsAlpha(c) && w.observed.available && !Fraction(w.observed.value)) then FailSource(s)
    else
      var event := w.previous.value;
      var alpha := NextAlpha(c, w.alpha, w.observed);
      if !Admissible(w.users, c.maxKeys, event, alpha) then FailSource(s)
      else
        var snapshot := Snapshot(event, ExtractVector(env.num, w.users, event, alpha), alpha, w.observed, w.created,
                                 s.clock);
        s.(source := w.(pc := SPush, alpha := alpha, users := ExtractUsers(w.users, event, alpha),
                        made := w.made + [snapshot], extracted := w.extracted + 1),
           features := s.features.(producer := LoadClosed(snapshot)))
  }

  // ---- Batching worker ----

  function Filled(w: Batcher, batch: Batch): Batcher {
    w.(hand := None, batch := batch, batched := w.batched + 1,
       pc := if |batch.items| == batch.target then BTrace else BCheck)
  }

  function RowOf(batch: Batch, tail: bool): TraceRow
    requires |batch.items| > 0
  {
    TraceRow(batch.start.generation, batch.start.sampled, batch.raw, batch.start.value, batch.target,
             batch.items[0].event.seqno, Last(batch.items).event.seqno, |batch.items|, tail)
  }

  function BatcherStep(env: Env, s: State): State {
    var w := s.batcher;
    match w.pc
    case BCheck =>
      if s.cancelled then s.(batcher := w.(pc := BEnd))
      else s.(batcher := w.(pc := BPop), features := s.features.(consumer := PopLoadRead))
    case BPop => PopFeature(s)
    case BDrain => DrainFeatures(s)
    case BOccupancy => SampleOccupancy(env, s)
    case BClock => s.(batcher := w.(pc := BStore, sampled := s.clock))
    case BStore =>
      if !Storable(s.signal, w.ema, w.sampled) then FailBatcher(s)
      else
        var stored := Stored(s.signal, w.ema, w.sampled);
        s.(batcher := w.(pc := BStart, starts := w.starts + [Start(w.raw, stored)]), signal := stored)
    case BStart => StartBatch(env, s)
    case BTrace =>
      if |w.batch.items| == 0 then s
      else s.(batcher := w.(pc := BPush, trace := w.trace + [RowOf(w.batch, w.tail)]),
              batches := s.batches.(producer := LoadClosed(w.batch)))
    case BPush => PushBatch(s)
    case BRetry =>
      if s.cancelled then s.(batcher := w.(pc := BDone))
      else s.(batcher := w.(pc := BPush, retries := (w.retries + 1) % WORD),
              batches := s.batches.(producer := LoadClosed(w.batch)))
    case BEnd =>
      if s.cancelled then s.(batcher := w.(pc := BDone))
      else if |w.batch.items| > 0 then s.(batcher := w.(pc := BTrace, tail := true, tails := w.tails + 1))
      else s.(batcher := w.(pc := BClose))
    case BClose =>
      s.(batcher := w.(pc := BDone, actions := w.control.actions, changes := w.control.changes),
         batches := Close(s.batches))
    case BDone => s
  }

  // An event that arrives when no batch is open starts one; otherwise it joins the open batch.
  function PopFeature(s: State): State {
    var w := s.batcher;
    match s.features.consumer
    case PopReturned(Some(Holds(v))) =>
      var idle := s.features.(consumer := ConsumerIdle);
      if |w.batch.items| == 0
      then s.(batcher := w.(pc := BOccupancy, hand := Some(v)), features := idle,
              batches := s.batches.(producer := SizeWrite))
      else s.(batcher := Filled(w, w.batch.(items := w.batch.items + [v])), features := idle)
    case PopReturned(None) =>
      s.(batcher := w.(pc := BDrain), features := s.features.(consumer := DrainClosed))
    case _ => s.(features := ConsumerStep(s.features))
  }

  function DrainFeatures(s: State): State {
    match s.features.consumer
    case DrainReturned(drained) =>
      s.(batcher := s.batcher.(pc := if drained then BEnd else BCheck),
         features := s.features.(consumer := ConsumerIdle))
    case _ => s.(features := ConsumerStep(s.features))
  }

  function SampleOccupancy(env: Env, s: State): State {
    var w := s.batcher;
    match s.batches.producer
    case SizeReturned(n) =>
      var raw := n as real / (s.batches.slots - 1) as real;
      if !Fraction(raw) then FailBatcher(s)
      else s.(batcher := w.(pc := BClock, raw := raw, ema := EmaStep(env.config.occupancyGain, w.ema, raw)),
              batches := s.batches.(producer := ProducerIdle))
    case _ => s.(batches := ProducerStep(s.batches))
  }

  function PushBatch(s: State): State {
    var w := s.batcher;
    match s.batches.producer
    case PushReturned(true) =>
      s.(batcher := w.(pc := if w.tail then BClose else BCheck, batches := w.batches + 1, batch := EMPTY_BATCH),
         batches := s.batches.(producer := ProducerIdle))
    case PushReturned(false) =>
      s.(batcher := w.(pc := BRetry), batches := s.batches.(producer := ProducerIdle))
    case _ => s.(batches := ProducerStep(s.batches))
  }

  function NextControl(c: Config, b: BatchControl, pressure: real): BatchControl {
    if AdaptsBatch(c) then BatchStep(Law(c), b, pressure) else b
  }

  // The record is read back, the target decided, and the first event joins the new batch.
  function StartBatch(env: Env, s: State): State {
    var w, c := s.batcher, env.config;
    if w.hand.None? || (AdaptsBatch(c) && !Fraction(w.ema)) then FailBatcher(s)
    else
      var control := NextControl(c, w.control, w.ema);
      s.(batcher := Filled(w.(control := control), Batch([w.hand.value], s.signal, w.raw, control.current)))
  }

  // ---- Scoring worker ----

  function MakeRow(snap: Snapshot, score: real, scored: nat, batch: Batch): PredictionRow {
    PredictionRow(snap.event, score, snap.alpha, snap.used, snap.created, scored, scored - snap.created,
                  |batch.items|, batch.start.value, batch.start.generation, snap.x, snap.loaded)
  }

  function ScorerStep(env: Env, s: State): State {
    var w := s.scorer;
    match w.pc
    case KCheck =>
      if s.cancelled then s.(scorer := w.(pc := KFlush))
      else s.(scorer := w.(pc := KPop), batches := s.batches.(consumer := PopLoadRead))
    case KPop =>
      (match s.batches.consumer
       case PopReturned(Some(Holds(b))) =>
         if |b.items| == 0 || |b.items| > MAX_BATCH then FailScorer(s)
         else s.(scorer := w.(pc := KItem, current := Some(b), i := 0), batches := s.batches.(consumer := ConsumerIdle))
       case PopReturned(None) =>
         s.(scorer := w.(pc := KDrain), batches := s.batches.(consumer := DrainClosed))
       case _ => s.(batches := ConsumerStep(s.batches)))
    case KDrain =>
      (match s.batches.consumer
       case DrainReturned(drained) =>
         s.(scorer := w.(pc := if drained then KFlush else KCheck), batches := s.batches.(consumer := ConsumerIdle))
       case _ => s.(batches := ConsumerStep(s.batches)))
    case KItem =>
      if w.current.None? || w.i >= |w.current.value.items|
      then s.(scorer := w.(pc := KCheck, current := None, i := 0,
                           completed := w.completed + if w.current.Some? then 1 else 0))
      else if s.cancelled then s.(scorer := w.(pc := KDone))
      else s.(scorer := w.(pc := KClock, score := Score(env.num, env.model, w.current.value.items[w.i].x),
                           scored := w.scored + 1))
    case KClock =>
      if w.current.None? || w.i >= |w.current.value.items| then s
      else
        var row := MakeRow(w.current.value.items[w.i], w.score, s.clock, w.current.value);
        s.(scorer := w.(pc := KItem, i := w.i + 1, rows := w.rows + [row], written := w.written + 1))
    case KFlush => s.(scorer := w.(pc := KDone))
    case KDone => s
  }

  // ---- Runs ----

  // A Fail action is any exception a worker may meet at its current point: deadline, callback, stream.
  datatype Action = RunSource | RunBatcher | RunScorer | Tick(d: nat) | AbortSource | AbortBatcher | AbortScorer

  function Step(env: Env, s: State, a: Action): State {
    match a
    case RunSource => SourceStep(env, s)
    case RunBatcher => BatcherStep(env, s)
    case RunScorer => ScorerStep(env, s)
    case Tick(d) => if s.clock + d < WORD then s.(clock := s.clock + d) else s
    case AbortSource => if s.source.pc == SDone then s else FailSource(s)
    case AbortBatcher => if s.batcher.pc == BDone then s else FailBatcher(s)
    case AbortScorer => if s.scorer.pc == KDone then s else FailScorer(s)
  }

  function Run(env: Env, s: State, schedule: seq<Action>): State {
    if |schedule| == 0 then s
    else Step(env, Run(env, s, schedule[..|schedule| - 1]), Last(schedule))
  }

  predicate Joined(s: State) {
    s.source.pc == SDone && s.batcher.pc == BDone && s.scorer.pc == KDone
  }

  predicate ClosedAndEmpty<T>(q: Ring<T>) { q.closed && q.read == q.write }

  // The check made after the workers are joined.
  predicate Conserved(s: State) {
    && ClosedAndEmpty(s.features) && ClosedAndEmpty(s.batches)
    && s.source.read == s.source.extracted == s.batcher.batched == s.scorer.scored == s.scorer.written
  }
}
