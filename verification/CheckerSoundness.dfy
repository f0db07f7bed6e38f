// What an accepted attempt guarantees, whoever produced it: the requirements of the replay, gathered from
// its loops into statements about any batch, any two batches and any prediction.
module CheckerSoundness {
  import opened Bits
  import opened Reals
  import opened Controllers
  import opened Features
  import opened Pipeline
  import opened Checker
  import opened CheckerCompleteness

  // First prediction of batch g.
  function Offset(a: Attempt, g: nat): nat
    requires g <= |a.trace|
  {
    TraceBefore(a, g).offset
  }

  lemma OffsetNext(a: Attempt, g: nat)
    requires g < |a.trace|
    ensures Offset(a, g + 1) == Offset(a, g) + a.trace[g].count && Offset(a, 0) == 0
  {
    NextOffset(a, g);
  }

  lemma {:induction false} OffsetsGrow(a: Attempt, g: nat, h: nat)
    requires g <= h <= |a.trace|
    ensures Offset(a, g) <= Offset(a, h)
  {
    hide Offset;
    if g < h {
      OffsetsGrow(a, g, h - 1);
      OffsetNext(a, h - 1);
    }
  }

  lemma RowAt(a: Attempt, g: nat)
    requires TraceOk(a) && g < |a.trace|
    ensures RowOk(a, TraceBefore(a, g), g)
  {
  }

  // ---- Batches ----

  // What holds of batch g on its own.
  ghost predicate BatchSound(a: Attempt, g: nat)
    requires g < |a.trace| && 2 <= a.receipt.config.batchSlots
  {
    var c, row := a.receipt.config, a.trace[g];
    && row.generation == g + 1 && c.batchMin <= row.target <= c.batchMax && 0 < row.count <= row.target
    && (g + 1 < |a.trace| ==> row.count == row.target && !row.tail) && (row.tail <==> row.count < row.target)
    && WholeSlots(c.batchSlots - 1, row.occupancy)
    && 0.0 <= row.ema <= 1.0
    && a.receipt.started <= row.sampled <= a.receipt.finished
  }

  lemma TargetInBounds(c: Config, target: int, used: real)
    requires ConfigOk(c) && c.batchMin <= target <= c.batchMax
    ensures c.batchMin <= ReplayTarget(c, target, used) <= c.batchMax
  {
    if used > c.high && target > c.batchMin { ShrinkLowers(target, c.shrink); }
  }

  lemma AverageInUnit(gain: real, pressure: real, raw: real)
    requires 0.0 < gain <= 1.0 && 0.0 <= pressure <= 1.0 && 0.0 <= raw <= 1.0
    ensures 0.0 <= EmaStep(gain, pressure, raw) <= 1.0
  {
    Convex(gain, pressure, raw, 0.0, 1.0);
  }

  // The replay state before batch g stays in bounds.
  predicate ReplayBounded(a: Attempt, t: TraceState) {
    && a.receipt.config.batchMin <= t.target <= a.receipt.config.batchMax && 0.0 <= t.pressure <= 1.0
    && a.receipt.started <= t.sampled <= a.receipt.finished
  }

  lemma {:induction false} BoundedBefore(a: Attempt, g: nat)
    requires ReceiptOk(a) && TraceOk(a) && g <= |a.trace|
    ensures ReplayBounded(a, TraceBefore(a, g))
  {
    hide TraceOk, RowOk, TraceNext, ReplayBounded;
    if g == 0 {
      BoundedStart(a);
    } else {
      BoundedBefore(a, g - 1);
      RowAt(a, g - 1);
      BoundedNext(a, TraceBefore(a, g - 1), g - 1);
    }
  }

  lemma BoundedStart(a: Attempt)
    requires ReceiptOk(a)
    ensures ReplayBounded(a, TraceInit(a.receipt))
  {
    hide IsSlots;
  }

  lemma BoundedNext(a: Attempt, t: TraceState, g: nat)
    requires ReceiptOk(a) && g < |a.trace| && RowOk(a, t, g) && ReplayBounded(a, t)
    ensures ReplayBounded(a, TraceNext(a.receipt.config, t, a.trace[g]))
  {
    hide IsSlots, ReplayTarget, ReplayPressure, GroupOk, EmaStep;
    var c, row := a.receipt.config, a.trace[g];
    TargetInBounds(c, t.target, row.ema);
    PressureAgrees(c, t.pressure, row.occupancy);
    AverageInUnit(c.occupancyGain, t.pressure, row.occupancy);
  }

  lemma BatchesSound(a: Attempt, g: nat)
    requires Accepts(a) && g < |a.trace|
    ensures a.receipt.config.batchSlots >= 2 && BatchSound(a, g)
  {
    hide EventsOk, TraceOk, RowOk, TraceNext, TraceBefore, BatchSound, ReplayBounded;
    RowAt(a, g);
    BoundedBefore(a, g);
    BoundedNext(a, TraceBefore(a, g), g);
    RowSound(a, TraceBefore(a, g), g);
  }

  lemma RowSound(a: Attempt, t: TraceState, g: nat)
    requires ReceiptOk(a) && g < |a.trace| && RowOk(a, t, g)
    requires ReplayBounded(a, t) && ReplayBounded(a, TraceNext(a.receipt.config, t, a.trace[g]))
    ensures BatchSound(a, g)
  {
    hide ReplayTarget, ReplayPressure, GroupOk, IsInteger, WholeSlots, SlotRatio;
    SlotsAreWhole(a.receipt.config, a.trace[g].occupancy);
  }

  // The occupancy is a whole number of the usable slots.
  ghost predicate WholeSlots(usable: nat, raw: real)
    requires usable > 0
  {
    0.0 <= raw <= 1.0 && exists m: nat :: IsShare(m, usable, raw)
  }

  predicate IsShare(m: nat, usable: nat, raw: real)
    requires usable > 0
  {
    m <= usable && raw == m as real / usable as real
  }

  lemma SlotsAreWhole(c: Config, raw: real)
    requires SlotRatio(c, raw) && c.batchSlots >= 2
    ensures WholeSlots(c.batchSlots - 1, raw)
  {
    hide SlotsUsed;
    var m := SlotsUsed(raw, c.batchSlots - 1).Floor;
    UsedWithin(raw, c.batchSlots - 1, m);
  }

  lemma UsedWithin(raw: real, usable: nat, m: int)
    requires usable > 0 && 0.0 <= raw <= 1.0 && m as real == SlotsUsed(raw, usable)
    ensures 0 <= m && IsShare(m, usable, raw)
  {
    var x := usable as real;
    SharesOf(raw, x);
    DivideOut(raw, x, m as real);
  }

  lemma DivideOut(p: real, x: real, y: real)
    requires x > 0.0 && y == p * x
    ensures p == y / x
  {
  }

  lemma SharesOf(p: real, x: real)
    requires 0.0 <= p <= 1.0 && x >= 0.0
    ensures 0.0 <= p * x <= x
  {
    ProductNonnegative(p, x);
    ProductNonnegative(1.0 - p, x);
    assert (1.0 - p) * x == x - p * x;
  }

  // Batch samples never run backwards.
  lemma {:induction false} SamplesOrdered(a: Attempt, g: nat, h: nat)
    requires Accepts(a) && g <= h < |a.trace|
    ensures a.trace[g].sampled <= a.trace[h].sampled
  {
    hide EventsOk, ReceiptOk, TraceOk, GroupOk, ReplayTarget, ReplayPressure;
    if g < h {
      SamplesOrdered(a, g, h - 1);
      RowAt(a, h);
    }
  }

  // ---- Predictions and their batches ----

  // Prediction k belongs to batch g.
  predicate InBatch(a: Attempt, g: nat, k: nat) { g < |a.trace| && Offset(a, g) <= k < Offset(a, g + 1) }

  predicate Joined(a: Attempt, g: nat, k: nat)
    requires g < |a.trace| && k < |a.predictions|
  {
    var row, p := a.trace[g], a.predictions[k];
    && p.batchSize == row.count && p.batchGeneration == g + 1 && p.batchPressure == row.ema && row.sampled <= p.scored
    && (k == Offset(a, g) ==> p.event.seqno == row.firstSeq && p.created <= row.sampled)
    && (k + 1 == Offset(a, g + 1) ==> p.event.seqno == row.lastSeq)
  }

  lemma {:induction false} BatchOf(a: Attempt, k: nat, h: nat) returns (g: nat)
    requires h <= |a.trace| && k < Offset(a, h)
    ensures InBatch(a, g, k) && g < h
  {
    hide Offset;
    if h == 0 {
      OffsetStart(a);
    } else {
      OffsetNext(a, h - 1);
      if k < Offset(a, h - 1) { g := BatchOf(a, k, h - 1); } else { g := h - 1; }
    }
  }

  lemma OffsetStart(a: Attempt)
    ensures Offset(a, 0) == 0
  {
  }

  // Every prediction is in exactly one batch, and carries that batch's identity, size and pressure.
  lemma PredictionsJoined(a: Attempt, k: nat)
    requires Accepts(a) && k < |a.predictions|
    ensures exists g: nat :: InBatch(a, g, k) && Joined(a, g, k)
    ensures forall g: nat, h: nat | InBatch(a, g, k) && InBatch(a, h, k) :: g == h
  {
    hide EventsOk, ReceiptOk, Joined, RowOk, Offset;
    AllBatched(a);
    var g := BatchOf(a, k, |a.trace|);
    RowAt(a, g);
    RowJoins(a, g, k);
    forall h: nat, i: nat | InBatch(a, h, k) && InBatch(a, i, k) ensures h == i {
      if h < i { OffsetsGrow(a, h + 1, i); }
      if i < h { OffsetsGrow(a, i + 1, h); }
    }
  }

  lemma AllBatched(a: Attempt)
    requires TraceOk(a)
    ensures Offset(a, |a.trace|) == |a.predictions|
  {
  }

  lemma RowJoins(a: Attempt, g: nat, k: nat)
    requires g < |a.trace| && RowOk(a, TraceBefore(a, g), g) && InBatch(a, g, k) && k < |a.predictions|
    ensures Joined(a, g, k)
  {
    hide ReplayTarget, ReplayPressure, TraceBefore;
    OffsetNext(a, g);
  }

  // ---- Feedback, gains and keys ----

  // A gain in use lies between its bounds.
  lemma {:induction false} GainsBounded(a: Attempt, i: nat)
    requires Accepts(a) && i <= |a.predictions|
    ensures a.receipt.config.alphaMin <= EventBefore(a, i).alpha <= a.receipt.config.alphaMax
  {
    hide TraceOk, EventsOk, ReplayUser;
    if i > 0 { GainsBounded(a, i - 1); }
  }

  // What a prediction says of its gain and its feedback is what the trace recorded, from no later batch.
  lemma FeedbackSound(a: Attempt, k: nat)
    requires Accepts(a) && k < |a.predictions|
    ensures var c, p := a.receipt.config, a.predictions[k];
            && c.alphaMin <= p.alpha <= c.alphaMax && p.event.behavior <= 3
            && (p.used.available ==>
                  1 <= p.used.generation <= |a.trace| && p.used.generation <= p.batchGeneration
                  && p.used.value == a.trace[p.used.generation - 1].ema
                  && p.used.sampled == a.trace[p.used.generation - 1].sampled)
            && (!p.used.available ==> p.used.generation == 0 && p.used.value == 0.0 && p.used.sampled == 0)
  {
    hide TraceOk, ReceiptOk, EventNext, ClocksOk, ReplayVector, ReplayUser, ReplayScore, ReplayAlpha;
    assert EventOk(a, EventBefore(a, k), k);
    GainsBounded(a, k + 1);
    NextGain(a, k);
  }

  lemma NextGain(a: Attempt, k: nat)
    requires k < |a.predictions|
    ensures EventBefore(a, k + 1).alpha == ReplayAlpha(a.receipt.config, EventBefore(a, k).alpha, a.predictions[k])
  {
    hide ReplayAlpha, ReplayUser;
  }

  ghost function KeysBefore(a: Attempt, i: nat): set<Word>
    requires i <= |a.predictions|
  {
    set j | 0 <= j < i :: a.predictions[j].event.key
  }

  // The keys of the first i predictions are the replay's, and stay within the budget.
  ghost predicate KeysKept(a: Attempt, e: EventState, i: nat)
    requires i <= |a.predictions|
  {
    e.states.Keys == KeysBefore(a, i) && |KeysBefore(a, i)| <= a.receipt.config.maxKeys
  }

  lemma {:induction false} KeysWithinBudget(a: Attempt, i: nat)
    requires Accepts(a) && i <= |a.predictions|
    ensures KeysKept(a, EventBefore(a, i), i)
  {
    hide KeysKept, Accepts, EventBefore, FeaturesOk, EventNext;
    if i > 0 {
      KeysWithinBudget(a, i - 1);
      EventAt(a, i - 1);
      KeyAdded(a, i - 1, EventBefore(a, i - 1));
    } else {
      NoKeys(a);
    }
  }

  lemma NoKeys(a: Attempt)
    ensures KeysKept(a, EventBefore(a, 0), 0)
  {
    assert KeysBefore(a, 0) == {};
  }

  lemma EventAt(a: Attempt, i: nat)
    requires Accepts(a) && i < |a.predictions|
    ensures FeaturesOk(a, EventBefore(a, i), a.predictions[i])
    ensures EventBefore(a, i + 1) == EventNext(a.receipt.config, EventBefore(a, i), a.predictions[i])
  {
    hide TraceOk, ReceiptOk, ClocksOk, PressureOk, FeaturesOk, EventNext;
    assert EventOk(a, EventBefore(a, i), i);
  }

  lemma KeyAdded(a: Attempt, i: nat, e: EventState)
    requires i < |a.predictions| && FeaturesOk(a, e, a.predictions[i])
    requires KeysKept(a, e, i)
    ensures KeysKept(a, EventNext(a.receipt.config, e, a.predictions[i]), i + 1)
  {
    hide ReplayUser, ReplayVector, ReplayScore, ReplayAlpha, KeysBefore;
    NextKeys(a, i);
    assert |e.states.Keys| == |e.states|;
  }

  lemma NextKeys(a: Attempt, i: nat)
    requires i < |a.predictions|
    ensures KeysBefore(a, i + 1) == KeysBefore(a, i) + {a.predictions[i].event.key}
  {
  }

  // The receipt counts every event at every stage, and every batch.
  lemma CountersSound(a: Attempt)
    requires Accepts(a)
    ensures var r, n := a.receipt, |a.events|;
            && |a.predictions| == n && r.read == n && r.extracted == n && r.batched == n && r.scored == n
            && r.written == n
            && r.batches == |a.trace| && r.started <= r.finished < WORD
            && r.sourceRetries < WORD && r.batchRetries < WORD && r.tails <= 1
  {
    hide EventsOk;
    TailsCounted(a, |a.trace|);
  }

  lemma {:induction false} TailsCounted(a: Attempt, g: nat)
    requires TraceOk(a) && g <= |a.trace|
    ensures TraceBefore(a, g).tails == if g == |a.trace| > 0 && a.trace[g - 1].tail then 1 else 0
  {
    hide ReplayTarget, ReplayPressure, GroupOk;
    if g > 0 {
      TailsCounted(a, g - 1);
      RowAt(a, g - 1);
    }
  }
}
