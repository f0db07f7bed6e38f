// The independent replay checker: it recomputes, from the emitted rows alone and with its own
// arithmetic, everything the engine claims to have done. Closeness is equality over exact reals.
module Checker {
  import opened Bits
  import opened Options
  import opened Reals
  import opened Features
  import opened Pipeline

  datatype Receipt = Receipt(config: Config, read: nat, extracted: nat, batched: nat, scored: nat, written: nat,
                             batches: nat, tails: nat, sourceRetries: nat, batchRetries: nat,
                             actions: nat, changes: nat, started: nat, finished: nat)

  datatype Attempt = Attempt(num: Numerics, model: Model, events: seq<RawEvent>, receipt: Receipt,
                             predictions: seq<PredictionRow>, trace: seq<TraceRow>)

  predicate IsSlots(slots: nat, maximum: nat) { 2 <= slots <= maximum && And(slots, slots - 1) == 0 }

  predicate ConfigOk(c: Config) {
    && c.timeoutSeconds > 0 && c.maxKeys > 0
    && 0 < c.batchMin <= c.batchInitial <= c.batchMax <= 256
    && 0.0 < c.alphaMin <= c.alphaInitial <= c.alphaMax <= 1.0 && c.alphaDelta > 0.0
    && 0.0 < c.occupancyGain <= 1.0 && 0.0 <= c.low < c.high <= 1.0 && 0.0 < c.shrink < 1.0 < c.grow
    && IsSlots(c.featureSlots, 1048576) && IsSlots(c.batchSlots, 4096)
    && c.timeoutSeconds <= 86400
  }

  predicate ReceiptOk(a: Attempt) {
    var r, n := a.receipt, |a.events|;
    && ConfigOk(r.config)
    && n == |a.predictions|
    && r.read == r.extracted == r.batched == r.scored == r.written == n
    && r.batches < WORD && r.tails < WORD && r.sourceRetries < WORD && r.batchRetries < WORD
    && r.actions < WORD && r.changes < WORD
    && r.started <= r.finished < WORD
    && r.batches == |a.trace|
  }

  // ---- Controller trace ----

  function Min(a: int, b: int): int { if b < a then b else a }
  function Max(a: int, b: int): int { if b > a then b else a }

  datatype TraceState = TraceState(pressure: real, target: int, actions: nat, changes: nat, direction: int,
                                   tails: nat, offset: nat, sampled: nat)

  function TraceInit(r: Receipt): TraceState {
    TraceState(0.0, r.config.batchInitial, 0, 0, 0, 0, 0, r.started)
  }

  predicate IsInteger(x: real) { x == x.Floor as real }

  function ReplayPressure(c: Config, pressure: real, raw: real): real {
    c.occupancyGain * raw + (1.0 - c.occupancyGain) * pressure
  }

  function Shrunk(c: Config, target: int): int { Max(c.batchMin, (target as real * c.shrink).Floor) }

  function Grown(c: Config, target: int): int { Min(c.batchMax, Max(target + 1, (target as real * c.grow).Floor)) }

  function SlotsUsed(raw: real, usable: int): real { raw * usable as real }

  predicate SlotRatio(c: Config, raw: real) {
    0.0 <= raw <= 1.0 && IsInteger(SlotsUsed(raw, c.batchSlots - 1))
  }

  function ReplayTarget(c: Config, target: int, used: real): int {
    if c.mode == BatchOnly || c.mode == Joint then
      if used > c.high && target > c.batchMin then Shrunk(c, target)
      else if used < c.low && target < c.batchMax then Grown(c, target)
      else target
    else target
  }

  function TraceNext(c: Config, t: TraceState, row: TraceRow): TraceState {
    var target := ReplayTarget(c, t.target, row.ema);
    var direction := (if target > t.target then 1 else 0) - (if target < t.target then 1 else 0);
    TraceState(
      ReplayPressure(c, t.pressure, row.occupancy),
      target,
      t.actions + if direction != 0 then 1 else 0,
      t.changes + if direction != 0 && t.direction != 0 && t.direction != direction then 1 else 0,
      if direction != 0 then direction else t.direction,
      t.tails + if row.tail then 1 else 0,
      t.offset + row.count,
      row.sampled)
  }

  // State of the replay before row g.
  function TraceBefore(a: Attempt, g: nat): TraceState
    requires g <= |a.trace|
  {
    if g == 0 then TraceInit(a.receipt) else TraceNext(a.receipt.config, TraceBefore(a, g - 1), a.trace[g - 1])
  }

  predicate RowOk(a: Attempt, t: TraceState, g: nat)
    requires g < |a.trace|
  {
    var c, row, u := a.receipt.config, a.trace[g], TraceNext(a.receipt.config, t, a.trace[g]);
    && row.generation == g + 1
    && t.sampled <= row.sampled <= a.receipt.finished
    && SlotRatio(c, row.occupancy)
    && row.ema == u.pressure && row.target == u.target
    && 0 < row.count <= u.target
    && (row.count < u.target <==> row.tail) && (row.tail ==> g + 1 == |a.trace|)
    && u.offset <= |a.predictions|
    && row.firstSeq == a.predictions[t.offset].event.seqno && row.lastSeq == a.predictions[u.offset - 1].event.seqno
    && GroupOk(a, t, g)
  }

  // Every prediction of the batch carries the batch's identity and was scored after its sample.
  predicate GroupOk(a: Attempt, t: TraceState, g: nat)
    requires g < |a.trace| && 0 < a.trace[g].count && t.offset + a.trace[g].count <= |a.predictions|
  {
    var row, pressure := a.trace[g], TraceNext(a.receipt.config, t, a.trace[g]).pressure;
    && a.predictions[t.offset].created <= row.sampled
    && forall k | t.offset <= k < t.offset + row.count ::
         && a.predictions[k].batchSize == row.count && a.predictions[k].batchGeneration == g + 1
         && a.predictions[k].batchPressure == pressure && row.sampled <= a.predictions[k].scored
  }

  predicate TraceOk(a: Attempt) {
    && (forall g | 0 <= g < |a.trace| :: RowOk(a, TraceBefore(a, g), g))
    && var t := TraceBefore(a, |a.trace|);
       t.offset == |a.predictions|
       && t.actions == a.receipt.actions && t.changes == a.receipt.changes && t.tails == a.receipt.tails
  }

  // ---- Per-event replay ----

  datatype Replayed = Replayed(engagement: real, gap: real, pv: nat, cartFav: nat, buy: nat, count: nat,
                               last: Option<nat>)

  const UNSEEN := Replayed(0.0, 0.0, 0, 0, 0, 0, None)

  datatype EventState = EventState(states: map<Word, Replayed>, alpha: real, previous: Option<PredictionRow>)

  function ReplayGap(u: Replayed, ts: nat): real {
    if u.last.Some? then (ts - u.last.value) as real / 1000000000.0 else 0.0
  }

  function Blend(alpha: real, before: real, latest: real): real { (1.0 - alpha) * before + alpha * latest }

  function ReplayUser(u: Replayed, event: RawEvent, alpha: real): Replayed {
    var gap := ReplayGap(u, event.ts);
    var weight :=
      if event.behavior == 0 then 1.0
      else if event.behavior == 1 then 3.0
      else if event.behavior == 2 then 2.0
      else 5.0;
    Replayed(Blend(alpha, u.engagement, weight), Blend(alpha, u.gap, gap),
             u.pv + (if event.behavior == 0 then 1 else 0),
             u.cartFav + (if event.behavior == 1 || event.behavior == 2 then 1 else 0),
             u.buy + (if event.behavior == 3 then 1 else 0), u.count + 1, Some(event.ts))
  }

  function Lookup(states: map<Word, Replayed>, key: Word): Replayed {
    if key in states then states[key] else UNSEEN
  }

  function ReplayVector(num: Numerics, u: Replayed, v: Replayed, event: RawEvent): Vector
    requires v.count > 0
  {
    Vector(v.engagement, num.log1p(v.pv as real), num.log1p(v.cartFav as real),
           MinReal(ReplayGap(u, event.ts), 3600.0) / 3600.0,
           v.buy as real / v.count as real, num.log1p(v.buy as real), v.gap)
  }

  function ReplayAlpha(c: Config, alpha: real, row: PredictionRow): real {
    if row.used.available && (c.mode == AlphaOnly || c.mode == Joint) then
      var target := c.alphaMin + (c.alphaMax - c.alphaMin) * row.used.value;
      MinReal(c.alphaMax, MaxReal(c.alphaMin, alpha + MinReal(c.alphaDelta, MaxReal(-c.alphaDelta, target - alpha))))
    else alpha
  }

  // The checker's own logit, summed over paired columns, and its own logistic function.
  function PairSum(ws: seq<real>, xs: seq<real>): real
    requires |ws| == |xs|
  {
    if |ws| == 0 then 0.0 else ws[0] * xs[0] + PairSum(ws[1..], xs[1..])
  }

  function Logistic(num: Numerics, z: real): real {
    if z >= 0.0 then 1.0 / (1.0 + num.exp(-z)) else num.exp(z) / (1.0 + num.exp(z))
  }

  function ReplayScore(num: Numerics, model: Model, x: Vector): real {
    Logistic(num, model.bias + PairSum(Columns(model.weights), Columns(x)))
  }

  function EventNext(c: Config, e: EventState, row: PredictionRow): EventState {
    EventState(e.states[row.event.key := ReplayUser(Lookup(e.states, row.event.key), row.event, row.alpha)],
               ReplayAlpha(c, e.alpha, row), Some(row))
  }

  function EventBefore(a: Attempt, i: nat): EventState
    requires i <= |a.predictions|
  {
    if i == 0 then EventState(map[], a.receipt.config.alphaInitial, None)
    else EventNext(a.receipt.config, EventBefore(a, i - 1), a.predictions[i - 1])
  }

  predicate ClocksOk(a: Attempt, e: EventState, row: PredictionRow) {
    && a.receipt.started <= row.created <= row.loaded <= row.scored <= a.receipt.finished
    && row.latency == row.scored - row.created
    && (e.previous.Some? ==>
          var p := e.previous.value;
          row.event.seqno > p.event.seqno && row.event.ts >= p.event.ts && row.created >= p.created
          && row.scored >= p.scored && row.used.generation >= p.used.generation)
  }

  predicate PressureOk(a: Attempt, row: PredictionRow) {
    if row.used.available then
      && 1 <= row.used.generation <= |a.trace|
      && row.used.value == a.trace[row.used.generation - 1].ema
      && row.used.sampled == a.trace[row.used.generation - 1].sampled <= row.loaded
      && row.used.generation <= row.batchGeneration
    else row.used.generation == 0 && row.used.sampled == 0 && row.used.value == 0.0
  }

  predicate FeaturesOk(a: Attempt, e: EventState, row: PredictionRow) {
    var u := Lookup(e.states, row.event.key);
    var x := ReplayVector(a.num, u, ReplayUser(u, row.event, row.alpha), row.event);
    && row.alpha == ReplayAlpha(a.receipt.config, e.alpha, row)
    && (row.event.key in e.states || |e.states| < a.receipt.config.maxKeys)
    && row.x == x && row.score == ReplayScore(a.num, a.model, x)
  }

  predicate EventOk(a: Attempt, e: EventState, i: nat)
    requires i < |a.predictions| && i < |a.events|
  {
    var row := a.predictions[i];
    && a.events[i].behavior < 4 && row.event == a.events[i]
    && ClocksOk(a, e, row) && PressureOk(a, row) && FeaturesOk(a, e, row)
  }

  predicate EventsOk(a: Attempt) {
    |a.events| == |a.predictions| && forall i | 0 <= i < |a.events| :: EventOk(a, EventBefore(a, i), i)
  }

  predicate Accepts(a: Attempt) {
    ReceiptOk(a) && TraceOk(a) && EventsOk(a)
  }

  // ---- The checker as the script runs it ----

  method Verify(a: Attempt) returns (passed: bool)
    ensures passed <==> Accepts(a)
  {
    if !ReceiptOk(a) { return false; }
    passed := VerifyTrace(a);
    if passed {
      passed := VerifyEvents(a);
    }
  }

  method VerifyTrace(a: Attempt) returns (passed: bool)
    ensures passed <==> TraceOk(a)
  {
    hide RowOk, TraceNext;
    var t := TraceInit(a.receipt);
    var g := 0;
    while g < |a.trace|
      invariant 0 <= g <= |a.trace| && t == TraceBefore(a, g)
      invariant forall h | 0 <= h < g :: RowOk(a, TraceBefore(a, h), h)
    {
      var ok, next := VerifyRow(a, t, g);
      if !ok { return false; }
      t := next;
      g := g + 1;
    }
    return t.offset == |a.predictions| && t.actions == a.receipt.actions && t.changes == a.receipt.changes
        && t.tails == a.receipt.tails;
  }

  // One controller row: its own checks, then the predictions of its batch.
  method VerifyRow(a: Attempt, t: TraceState, g: nat) returns (ok: bool, next: TraceState)
    requires g < |a.trace|
    ensures ok <==> RowOk(a, t, g)
    ensures ok ==> next == TraceNext(a.receipt.config, t, a.trace[g])
  {
    hide ReplayPressure, Shrunk, Grown, SlotRatio, GroupOk;
    var c, row := a.receipt.config, a.trace[g];
    next := t;
    if row.generation != g + 1 { return false, t; }
    if row.sampled < t.sampled || row.sampled > a.receipt.finished { return false, t; }
    if !SlotRatio(c, row.occupancy) { return false, t; }
    var pressure, target := ReplayPressure(c, t.pressure, row.occupancy), t.target;
    if row.ema != pressure { return false, t; }
    if c.mode == BatchOnly || c.mode == Joint {
      if row.ema > c.high && target > c.batchMin {
        target := Shrunk(c, target);
      } else if row.ema < c.low && target < c.batchMax {
        target := Grown(c, target);
      }
    }
    if row.target != target { return false, t; }
    var turned := (if target > t.target then 1 else 0) - (if target < t.target then 1 else 0);
    var actions, changes, direction := t.actions, t.changes, t.direction;
    if turned != 0 {
      actions := actions + 1;
      changes := changes + if direction != 0 && direction != turned then 1 else 0;
      direction := turned;
    }
    if row.count == 0 || row.count > target { return false, t; }
    if (row.count < target) != row.tail || (row.tail && g + 1 != |a.trace|) { return false, t; }
    if t.offset + row.count > |a.predictions| { return false, t; }
    if row.firstSeq != a.predictions[t.offset].event.seqno { return false, t; }
    if row.lastSeq != a.predictions[t.offset + row.count - 1].event.seqno { return false, t; }
    ok := VerifyGroup(a, t.offset, row.count, g, pressure, t);
    next := TraceState(pressure, target, actions, changes, direction, t.tails + (if row.tail then 1 else 0),
                       t.offset + row.count, row.sampled);
  }

  method VerifyGroup(a: Attempt, offset: nat, count: nat, g: nat, pressure: real, ghost t: TraceState)
      returns (passed: bool)
    requires g < |a.trace| && 0 < count == a.trace[g].count && offset == t.offset && offset + count <= |a.predictions|
    requires pressure == TraceNext(a.receipt.config, t, a.trace[g]).pressure
    ensures passed <==> GroupOk(a, t, g)
  {
    var row := a.trace[g];
    var k := offset;
    while k < offset + count
      invariant offset <= k <= offset + count
      invariant k > offset ==> a.predictions[offset].created <= row.sampled
      invariant forall h | offset <= h < k ::
                  && a.predictions[h].batchSize == row.count && a.predictions[h].batchGeneration == g + 1
                  && a.predictions[h].batchPressure == pressure && row.sampled <= a.predictions[h].scored
    {
      var record := a.predictions[k];
      if record.batchSize != count || record.batchGeneration != g + 1 { return false; }
      if record.batchPressure != pressure { return false; }
      if k == offset && record.created > row.sampled { return false; }
      if row.sampled > record.scored { return false; }
      k := k + 1;
    }
    return true;
  }

  method VerifyEvents(a: Attempt) returns (passed: bool)
    requires |a.events| == |a.predictions|
    ensures passed <==> EventsOk(a)
  {
    hide ClocksOk, PressureOk, FeaturesOk, ReplayUser, ReplayAlpha, ReceiptOk;
    var states: map<Word, Replayed>, previous: Option<PredictionRow> := map[], None;
    var alpha := a.receipt.config.alphaInitial;
    var i := 0;
    while i < |a.events|
      invariant 0 <= i <= |a.events| == |a.predictions|
      invariant EventState(states, alpha, previous) == EventBefore(a, i)
      invariant forall h | 0 <= h < i :: EventOk(a, EventBefore(a, h), h)
    {
      var event, row := a.events[i], a.predictions[i];
      ghost var e := EventBefore(a, i);
      if event.behavior > 3 || row.event != event { return false; }
      if !ClocksOk(a, EventState(states, alpha, previous), row) { return false; }
      if !PressureOk(a, row) { return false; }
      if !FeaturesOk(a, EventState(states, alpha, previous), row) { return false; }
      alpha := ReplayAlpha(a.receipt.config, alpha, row);
      states := states[event.key := ReplayUser(Lookup(states, event.key), event, row.alpha)];
      previous := Some(row);
      i := i + 1;
    }
    return true;
  }
}
