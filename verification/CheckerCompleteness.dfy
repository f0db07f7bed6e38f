// Every run that ends without an error has scored every event exactly once, in order, and leaves a
// trace the independent checker accepts.
module CheckerCompleteness {
  import opened Bits
  import opened Options
  import opened Reals
  import opened Controllers
  import opened Features
  import opened Pipeline
  import opened PipelineInvariant
  import opened Checker
  import opened Scoring

  function ReceiptOf(env: Env, s: State): Receipt {
    Receipt(env.config, s.source.read, s.source.extracted, s.batcher.batched, s.scorer.scored, s.scorer.written,
            s.batcher.batches, s.batcher.tails, s.source.retries, s.batcher.retries,
            s.batcher.actions, s.batcher.changes, s.started, s.clock)
  }

  function AttemptOf(env: Env, s: State): Attempt {
    Attempt(env.num, env.model, env.events, ReceiptOf(env, s), s.scorer.rows, s.batcher.trace)
  }

  // What is left when all workers have ended and none failed.
  ghost predicate Clean(env: Env, s: State) {
    var bs, made, starts := s.batches.pushed, s.source.made, s.batcher.starts;
    && GoodHistory(env, s.started, made) && |made| == |env.events|
    && UsesRight(starts, made, s.clock)
    && Flat(bs) == made
    && env.config.batchSlots >= 2 && StartsRight(env, s.started, s.clock, starts, s.signal)
    && |starts| == |bs| == |s.batcher.trace| && BatchesRight(env.config, starts, bs)
    && (forall j | 0 <= j < |bs| :: |bs[j].items| < bs[j].target ==> s.batcher.tail && j == |bs| - 1)
    && (s.batcher.tail ==> |bs| > 0 && |Last(bs).items| < Last(bs).target)
    && (forall j | 0 <= j < |bs| :: |bs[j].items| > 0
          && s.batcher.trace[j] == RowOf(bs[j], |bs[j].items| < bs[j].target))
    && |s.scorer.rows| == |made| && ScorerData(env, s)
  }

  ghost predicate Counted(env: Env, s: State) {
    && s.source.read == s.source.extracted == s.batcher.batched == s.scorer.scored == s.scorer.written == |env.events|
    && s.batcher.batches == |s.batches.pushed| && s.batcher.tails == (if s.batcher.tail then 1 else 0)
    && s.batcher.actions == ControlAfter(env.config, s.batcher.starts).actions
    && s.batcher.changes == ControlAfter(env.config, s.batcher.starts).changes
  }

  // All workers joined without an error: both rings are closed and drained.
  lemma AllDrained(env: Env, s: State)
    requires Invariant(env, s) && Joined(s) && !s.failed
    ensures s.features.closed && s.batches.closed && Drained(s.features) && Drained(s.batches)
    ensures s.scorer.current.None? && s.scorer.i == 0 && s.scorer.completed == |s.batches.pushed|
    ensures s.source.made == s.features.pushed && |s.source.made| == |env.events|
    ensures Begun(s) == s.batches.pushed && InHand(s) == []
  {
    hide Valid, Spsc.Inv, SourceData, Feedback, BatcherData, TraceData, ScorerData, Flat;
  }

  lemma CleanFacts(env: Env, s: State)
    requires Invariant(env, s) && Joined(s) && !s.failed
    ensures Clean(env, s)
  {
    hide Valid, Spsc.Inv, StartsRight, Sampling, BatchesRight, BatchRight, GoodHistory, AlphaAfter, UsersAfter,
         ControlAfter, Flat, Expand, RowOf, RowRight, SourceEndpoint, SourceCursor, BatcherEndpoint, ScorerEndpoint;
    TwoSlots(env.config);
    AllDrained(env, s);
    assert s.batches.pushed[..s.scorer.completed] == s.batches.pushed;
    assert s.features.pushed[..s.features.popped] == s.source.made;
    assert s.batcher.batch.items == [] by { EmptyBatch(env, s); }
  }

  // The engine starts on exactly the configurations the checker admits.
  lemma ValidExactly(c: Config)
    ensures Valid(c) <==> ConfigOk(c)
  {
    hide And;
  }

  lemma TwoSlots(c: Config)
    requires Valid(c)
    ensures c.batchSlots >= 2
  {
  }

  lemma EmptyBatch(env: Env, s: State)
    requires BatcherEndpoint(s) && s.batches.closed
    ensures s.batcher.batch.items == []
  {
  }

  lemma CountedFacts(env: Env, s: State)
    requires Invariant(env, s) && Joined(s) && !s.failed
    ensures Counted(env, s)
  {
    hide Valid, Spsc.Inv, Feedback, BatchesRight, GoodHistory, AlphaAfter, UsersAfter, ControlAfter, Flat,
         ScorerData, TraceData, SourceEndpoint, ScorerEndpoint, FullButTail, HandRight;
    AllDrained(env, s);
    CleanFacts(env, s);
  }

  // ---- Controller trace ----

  // The checker's batch law is the engine's.
  lemma TargetAgrees(c: Config, b: BatchControl, used: real)
    requires Bounded(Law(c), b) && ValidLaw(Law(c), c.batchInitial)
    ensures ReplayTarget(c, b.current, used) == NextControl(c, b, used).current
    ensures Bounded(Law(c), NextControl(c, b, used))
  {
    hide Resize, Shrunk, Grown;
    BatchStepBounded(Law(c), b, used);
    ResizeAgrees(c, b.current, used);
  }

  lemma ResizeAgrees(c: Config, current: nat, used: real)
    ensures Resize(Law(c), current, used) ==
      if used > c.high && current > c.batchMin then Shrunk(c, current)
      else if used < c.low && current < c.batchMax then Grown(c, current)
      else current
  {
  }

  // The replay state before row g, in the engine's terms.
  ghost predicate Tracks(env: Env, s: State, t: TraceState, g: nat)
    requires g <= |s.batcher.starts| && g <= |s.batches.pushed| && g <= |s.batcher.trace|
  {
    var starts, ctl := s.batcher.starts, ControlAfter(env.config, s.batcher.starts[..g]);
    && t.pressure == PressureBefore(starts, g)
    && t.target == ctl.current && t.actions == ctl.actions && t.changes == ctl.changes && t.direction == ctl.direction
    && t.tails == (if g > 0 && s.batcher.trace[g - 1].tail then 1 else 0)
    && t.offset == |Flat(s.batches.pushed[..g])|
    && t.sampled == (if g == 0 then s.started else starts[g - 1].observation.sampled)
  }

  lemma {:induction false} ReplayTracks(env: Env, s: State, g: nat)
    requires Valid(env.config) && Clean(env, s) && g <= |s.batcher.trace|
    ensures Tracks(env, s, TraceBefore(AttemptOf(env, s), g), g)
    decreases g
  {
    hide Valid, GoodHistory, StartsRight, BatchesRight, EmaStep, ReplayTarget, ReplayPressure, NextControl, ScorerData;
    if g > 0 {
      ReplayTracks(env, s, g - 1);
      TrackStep(env, s, g - 1, TraceBefore(AttemptOf(env, s), g - 1));
    }
  }

  // What a clean run says about row g.
  ghost predicate CleanRowAt(env: Env, s: State, g: nat) {
    var bs, starts, trace := s.batches.pushed, s.batcher.starts, s.batcher.trace;
    && g < |starts| == |bs| == |trace| && env.config.batchSlots >= 2
    && StartRight(env, s.started, s.clock, starts, g) && BatchRight(env.config, starts, bs[g], g)
    && |bs[g].items| > 0 && trace[g] == RowOf(bs[g], |bs[g].items| < bs[g].target)
    && (|bs[g].items| < bs[g].target ==> g == |bs| - 1)
  }

  lemma CleanRow(env: Env, s: State, g: nat)
    requires Clean(env, s) && g < |s.batcher.trace|
    ensures CleanRowAt(env, s, g)
  {
    hide GoodHistory, UsesRight, ScorerData, Flat, EmaStep, SlotFraction, ControlAfter, RowOf;
    assert StartRight(env, s.started, s.clock, s.batcher.starts, g);
    assert BatchRight(env.config, s.batcher.starts, s.batches.pushed[g], g);
  }

  lemma TrackStep(env: Env, s: State, g: nat, t: TraceState)
    requires Valid(env.config) && Clean(env, s) && g < |s.batcher.trace| && Tracks(env, s, t, g)
    ensures Tracks(env, s, TraceNext(env.config, t, s.batcher.trace[g]), g + 1)
    ensures TraceNext(env.config, t, s.batcher.trace[g]).pressure == s.batcher.trace[g].ema
    ensures TraceNext(env.config, t, s.batcher.trace[g]).target == s.batcher.trace[g].target
  {
    hide Valid, Clean, CleanRowAt, TraceNext;
    CleanRow(env, s, g);
    TrackControl(env, s, g, t);
    TrackPosition(env, s, g, t);
  }

  lemma TrackControl(env: Env, s: State, g: nat, t: TraceState)
    requires Valid(env.config) && CleanRowAt(env, s, g) && Tracks(env, s, t, g)
    ensures var next, row := TraceNext(env.config, t, s.batcher.trace[g]), s.batcher.trace[g];
            var ctl := ControlAfter(env.config, s.batcher.starts[..g + 1]);
            && next.pressure == PressureBefore(s.batcher.starts, g + 1) == row.ema
            && next.target == ctl.current == row.target && next.actions == ctl.actions && next.changes == ctl.changes
            && next.direction == ctl.direction
  {
    hide Valid, EmaStep, ReplayTarget, ReplayPressure, NextControl, ControlAfter, Flat, SlotFraction;
    var c, starts, row := env.config, s.batcher.starts, s.batcher.trace[g];
    PressureAgrees(c, t.pressure, row.occupancy);
    ControlNext(c, starts, g);
    ControlValid(c, starts[..g]);
    TargetAgrees(c, ControlAfter(c, starts[..g]), row.ema);
    ControlMoves(c, ControlAfter(c, starts[..g]), row.ema);
  }

  lemma TrackPosition(env: Env, s: State, g: nat, t: TraceState)
    requires Clean(env, s) && CleanRowAt(env, s, g) && Tracks(env, s, t, g)
    ensures var next := TraceNext(env.config, t, s.batcher.trace[g]);
            && next.tails == (if s.batcher.trace[g].tail then 1 else 0)
            && next.offset == |Flat(s.batches.pushed[..g + 1])|
            && next.sampled == s.batcher.starts[g].observation.sampled
  {
    hide Clean, StartRight, ReplayTarget, ReplayPressure, ControlAfter, Flat;
    if g > 0 { CleanRow(env, s, g - 1); }
    var bs := s.batches.pushed;
    assert bs[..g + 1] == bs[..g] + [bs[g]];
    FlatAppend(bs[..g], bs[g]);
  }

  lemma ControlNext(c: Config, starts: seq<Start>, g: nat)
    requires g < |starts|
    ensures ControlAfter(c, starts[..g + 1]) == NextControl(c, ControlAfter(c, starts[..g]),
                                                            starts[g].observation.value)
  {
    hide NextControl;
    assert starts[..g + 1][..g] == starts[..g];
  }

  lemma PressureAgrees(c: Config, pressure: real, raw: real)
    ensures ReplayPressure(c, pressure, raw) == EmaStep(c.occupancyGain, pressure, raw)
  {
    EmaForms(c.occupancyGain, pressure, raw);
  }

  lemma ControlValid(c: Config, starts: seq<Start>)
    requires Valid(c)
    ensures ValidLaw(Law(c), c.batchInitial) && Bounded(Law(c), ControlAfter(c, starts))
  {
    ControlInRange(c, starts);
  }

  // Actions, reversals and direction as the checker counts them.
  lemma ControlMoves(c: Config, b: BatchControl, used: real)
    requires Bounded(Law(c), b) && ValidLaw(Law(c), c.batchInitial)
    ensures var b' := NextControl(c, b, used);
            var d := (if b'.current > b.current then 1 else 0) - (if b'.current < b.current then 1 else 0);
            && b'.actions == b.actions + (if d != 0 then 1 else 0)
            && b'.changes == b.changes + (if d != 0 && b.direction != 0 && b.direction != d then 1 else 0)
            && b'.direction == (if d != 0 then d else b.direction)
  {
    BatchStepBounded(Law(c), b, used);
  }

  // Row |Flat(bs[..g])| + t of the output is event t of batch g.
  lemma RowOfBatch(env: Env, s: State, g: nat, t: nat)
    requires Clean(env, s) && g < |s.batches.pushed| && t < |s.batches.pushed[g].items|
    ensures var k := |Flat(s.batches.pushed[..g])| + t;
            k < |s.scorer.rows|
            && RowRight(env, s.clock, s.scorer.rows[k], Link(s.batches.pushed[g].items[t], s.batches.pushed[g]))
  {
    hide GoodHistory, StartsRight, BatchesRight, UsesRight, RowOf, RowRight;
    ExpandAt(s.batches.pushed, g, t);
    ExpandFlat(s.batches.pushed);
  }

  lemma RowAccepted(env: Env, s: State, g: nat)
    requires Valid(env.config) && Clean(env, s) && g < |s.batcher.trace|
    ensures var a := AttemptOf(env, s); RowOk(a, TraceBefore(a, g), g)
  {
    hide Valid, Clean, CleanRowAt, Tracks, RowOk, TraceNext, GroupOk, Flat;
    var a, bs := AttemptOf(env, s), s.batches.pushed;
    var t := TraceBefore(a, g);
    CleanRow(env, s, g);
    CleanSizes(env, s);
    ReplayTracks(env, s, g);
    TrackStep(env, s, g, t);
    RowEnds(env, s, g);
    RowInBounds(env, s, g, t);
    GroupAccepted(env, s, g, t);
    RowChecks(env, s, g, t);
  }

  lemma RowInBounds(env: Env, s: State, g: nat, t: TraceState)
    requires CleanRowAt(env, s, g) && Tracks(env, s, t, g) && |Flat(s.batches.pushed)| == |s.scorer.rows|
    ensures t.offset == |Flat(s.batches.pushed[..g])| && 0 < s.batcher.trace[g].count
    ensures t.offset + s.batcher.trace[g].count <= |s.scorer.rows|
  {
    hide Flat, StartRight, ControlAfter;
    var bs := s.batches.pushed;
    assert bs[..g + 1] == bs[..g] + [bs[g]];
    FlatAppend(bs[..g], bs[g]);
    FlatPrefix(bs[..g + 1], bs);
  }

  lemma RowChecks(env: Env, s: State, g: nat, t: TraceState)
    requires CleanRowAt(env, s, g) && Tracks(env, s, t, g) && |Flat(s.batches.pushed)| == |s.scorer.rows|
    requires var u := TraceNext(env.config, t, s.batcher.trace[g]);
             u.pressure == s.batcher.trace[g].ema && u.target == s.batcher.trace[g].target
    requires var b, o := s.batches.pushed[g], |Flat(s.batches.pushed[..g])|;
             && o + |b.items| <= |s.scorer.rows|
             && s.scorer.rows[o].event.seqno == b.items[0].event.seqno
             && s.scorer.rows[o + |b.items| - 1].event.seqno == Last(b.items).event.seqno
    requires 0 < s.batcher.trace[g].count && t.offset + s.batcher.trace[g].count <= |s.scorer.rows|
             && GroupOk(AttemptOf(env, s), t, g)
    ensures RowOk(AttemptOf(env, s), t, g)
  {
    hide ReplayTarget, ReplayPressure, ControlAfter, Flat, SlotFraction, SlotRatio, GroupOk, EmaStep;
    SlotAgrees(env.config, s.batcher.trace[g].occupancy);
  }

  lemma CleanSizes(env: Env, s: State)
    requires Clean(env, s)
    ensures Flat(s.batches.pushed) == s.source.made && |s.scorer.rows| == |s.source.made| == |env.events|
    ensures |s.batcher.starts| == |s.batches.pushed| == |s.batcher.trace|
  {
    hide GoodHistory, UsesRight, ScorerData, StartsRight, BatchesRight, RowOf;
  }

  lemma SlotAgrees(c: Config, raw: real)
    requires c.batchSlots >= 2 && SlotFraction(c.batchSlots, raw)
    ensures SlotRatio(c, raw)
  {
    assert IsWhole(raw * (c.batchSlots - 1) as real);
  }

  lemma RowEnds(env: Env, s: State, g: nat)
    requires Clean(env, s) && g < |s.batches.pushed|
    ensures var b, o := s.batches.pushed[g], |Flat(s.batches.pushed[..g])|;
            && |b.items| > 0 && o + |b.items| <= |s.scorer.rows|
            && s.scorer.rows[o].event.seqno == b.items[0].event.seqno
            && s.scorer.rows[o + |b.items| - 1].event.seqno == Last(b.items).event.seqno
  {
    hide GoodHistory, StartsRight, UsesRight, Flat, ScorerData, Score;
    RowOfBatch(env, s, g, 0);
    RowOfBatch(env, s, g, |s.batches.pushed[g].items| - 1);
  }

  lemma GroupAccepted(env: Env, s: State, g: nat, t: TraceState)
    requires Clean(env, s) && g < |s.batcher.trace| && t.offset == |Flat(s.batches.pushed[..g])|
    requires TraceNext(env.config, t, s.batcher.trace[g]).pressure == s.batcher.trace[g].ema
    requires t.offset + s.batcher.trace[g].count <= |s.scorer.rows| && 0 < s.batcher.trace[g].count
    ensures GroupOk(AttemptOf(env, s), t, g)
  {
    hide GoodHistory, UsesRight, Flat, ScorerData, Score, TraceNext, EmaStep, SlotFraction, ControlAfter;
    var a, b, row := AttemptOf(env, s), s.batches.pushed[g], s.batcher.trace[g];
    assert StartRight(env, s.started, s.clock, s.batcher.starts, g);
    assert BatchRight(env.config, s.batcher.starts, b, g);
    RowOfBatch(env, s, g, 0);
    forall k | t.offset <= k < t.offset + row.count
      ensures a.predictions[k].batchSize == row.count && a.predictions[k].batchGeneration == g + 1
      ensures a.predictions[k].batchPressure == row.ema && row.sampled <= a.predictions[k].scored
    {
      RowOfBatch(env, s, g, k - t.offset);
    }
  }

  lemma TraceAccepted(env: Env, s: State)
    requires Valid(env.config) && Clean(env, s) && Counted(env, s)
    ensures TraceOk(AttemptOf(env, s))
  {
    hide Valid, GoodHistory, StartsRight, BatchesRight, UsesRight, ScorerData, RowOk, NextControl;
    var a, n := AttemptOf(env, s), |s.batcher.trace|;
    forall g | 0 <= g < n ensures RowOk(a, TraceBefore(a, g), g) {
      RowAccepted(env, s, g);
    }
    ReplayTracks(env, s, n);
    assert s.batcher.starts[..n] == s.batcher.starts && s.batches.pushed[..n] == s.batches.pushed;
  }

  // ---- Per-event replay ----

  // The checker's per-user record mirrors the engine's.
  predicate SameUser(u: UserState, r: Replayed) {
    && r.engagement == u.engagement && r.gap == u.gapEma && r.pv == u.pv && r.cartFav == u.cartFav
    && r.buy == u.buy && r.count == u.count && r.last == if u.seen then Some(u.last) else None
  }

  predicate SameUsers(users: Users, states: map<Word, Replayed>) {
    users.Keys == states.Keys && forall k | k in users :: SameUser(users[k], states[k])
  }

  lemma UserAgrees(num: Numerics, u: UserState, r: Replayed, event: RawEvent, alpha: real)
    requires SameUser(u, r) && event.behavior <= 3 && (u.seen ==> event.ts >= u.last)
    ensures SameUser(Advance(u, event, alpha), ReplayUser(r, event, alpha))
    ensures ReplayVector(num, r, ReplayUser(r, event, alpha), event)
            == VectorOf(num, u, Advance(u, event, alpha), event)
  {
    hide EmaStep, Blend;
    assert ReplayGap(r, event.ts) == Gap(u, event);
    BlendIsEma(alpha, u.engagement, BehaviorWeight(event.behavior));
    BlendIsEma(alpha, u.gapEma, Gap(u, event));
  }

  // The columnwise sum and the written-out one give the same score.
  lemma ScoreAgrees(num: Numerics, model: Model, x: Vector)
    ensures ReplayScore(num, model, x) == Score(num, model, x)
  {
    hide Logit, PairSum, Dot, Columns;
    LogitIsDot(model, x);
    PairSumIsLogit(model, x);
  }

  lemma PairSumIsLogit(model: Model, x: Vector)
    ensures model.bias + PairSum(Columns(model.weights), Columns(x)) == Logit(model, x)
  {
    hide Term, Logit;
    LogitIsSum(model, x);
    SumFrom(Columns(model.weights), Columns(x));
  }

  lemma SumFrom(w: seq<real>, c: seq<real>)
    requires |w| == |c| == 7
    ensures PairSum(w, c) == Term(w[0], c[0]) + Term(w[1], c[1]) + Term(w[2], c[2]) + Term(w[3], c[3])
                             + Term(w[4], c[4]) + Term(w[5], c[5]) + Term(w[6], c[6])
  {
    hide Term, PairSum;
    assert w[0..] == w && c[0..] == c;
    ThreeTerms(w, c, 0);
    ThreeTerms(w, c, 3);
    PairSumAt(w, c, 6);
    PairSumAt(w, c, 7);
  }

  lemma ThreeTerms(w: seq<real>, c: seq<real>, i: nat)
    requires |w| == |c| && i + 3 <= |w|
    ensures PairSum(w[i..], c[i..])
         == Term(w[i], c[i]) + Term(w[i + 1], c[i + 1]) + Term(w[i + 2], c[i + 2]) + PairSum(w[i + 3..], c[i + 3..])
  {
    hide Term, PairSum;
    PairSumAt(w, c, i);
    PairSumAt(w, c, i + 1);
    PairSumAt(w, c, i + 2);
  }

  lemma PairSumAt(w: seq<real>, c: seq<real>, i: nat)
    requires |w| == |c| && i <= |w|
    ensures PairSum(w[i..], c[i..]) == if i == |w| then 0.0 else Term(w[i], c[i]) + PairSum(w[i + 1..], c[i + 1..])
  {
    if i < |w| { assert w[i..][1..] == w[i + 1..] && c[i..][1..] == c[i + 1..]; }
  }

  lemma BlendIsEma(alpha: real, before: real, latest: real)
    ensures Blend(alpha, before, latest) == EmaStep(alpha, before, latest)
  {
    EmaForms(alpha, before, latest);
  }

  lemma AlphaAgrees(c: Config, alpha: real, row: PredictionRow)
    requires c.alphaMin <= c.alphaMax && c.alphaDelta > 0.0
    ensures ReplayAlpha(c, alpha, row) == NextAlpha(c, alpha, row.used)
  {
    hide Clamp, MinReal, MaxReal;
    if row.used.available && AdaptsAlpha(c) {
      ClampForms(c, alpha, c.alphaMin + (c.alphaMax - c.alphaMin) * row.used.value);
    }
  }

  lemma ClampForms(c: Config, alpha: real, target: real)
    requires c.alphaMin <= c.alphaMax && c.alphaDelta > 0.0
    ensures MinReal(c.alphaMax, MaxReal(c.alphaMin,
                                        alpha + MinReal(c.alphaDelta, MaxReal(-c.alphaDelta, target - alpha))))
         == Clamp(alpha + Clamp(target - alpha, -c.alphaDelta, c.alphaDelta), c.alphaMin, c.alphaMax)
  {
  }

  // The replay state before event i, in the engine's terms.
  ghost predicate Mirrors(env: Env, s: State, e: EventState, i: nat)
    requires i <= |s.source.made| && i <= |s.scorer.rows|
  {
    && SameUsers(UsersAfter(s.source.made[..i]), e.states)
    && e.alpha == AlphaAfter(env.config, s.source.made[..i])
    && e.previous == if i == 0 then None else Some(s.scorer.rows[i - 1])
  }

  // Row i is the row of snapshot i.
  lemma RowOfEvent(env: Env, s: State, i: nat)
    requires Clean(env, s) && i < |env.events|
    ensures i < |s.source.made| && i < |s.scorer.rows|
    ensures var m, row := s.source.made[i], s.scorer.rows[i];
            && row.event == m.event && row.alpha == m.alpha && row.used == m.used && row.created == m.created
            && row.loaded == m.loaded && row.x == m.x && row.score == Score(env.num, env.model, m.x)
            && row.latency == row.scored - row.created && m.loaded <= row.scored <= s.clock
    ensures s.source.made[i].used.generation <= s.scorer.rows[i].batchGeneration
  {
    hide GoodHistory, UsesRight, RowOf, Score, Flat, Expand, EmaStep, SlotFraction, BatchRight;
    ExpandFlat(s.batches.pushed);
    forall j | 0 <= j < |s.batches.pushed| ensures s.batcher.starts[j].observation.generation == j + 1 {
      assert StartRight(env, s.started, s.clock, s.batcher.starts, j);
    }
    LinksCausal(env, s.batcher.starts, s.batches.pushed, i);
    assert RowRight(env, s.clock, s.scorer.rows[i], Expand(s.batches.pushed)[i]);
  }

  // No event used pressure newer than the record of the batch that contains it.
  lemma {:induction false} LinksCausal(env: Env, starts: seq<Start>, bs: seq<Batch>, k: nat)
    requires BatchesRight(env.config, starts, bs) && k < |Expand(bs)|
    requires forall j | 0 <= j < |bs| :: starts[j].observation.generation == j + 1
    ensures Expand(bs)[k].snap.used.generation <= Expand(bs)[k].batch.start.generation
    decreases |bs|
  {
    hide ControlAfter;
    var n := |bs| - 1;
    if k < |Expand(bs[..n])| {
      forall j | 0 <= j < n ensures BatchRight(env.config, starts, bs[..n][j], j) {
        assert BatchRight(env.config, starts, bs[j], j);
      }
      LinksCausal(env, starts, bs[..n], k);
    } else {
      assert BatchRight(env.config, starts, bs[n], n);
    }
  }

  lemma {:induction false} ReplayMirrors(env: Env, s: State, i: nat)
    requires Valid(env.config) && Clean(env, s) && i <= |env.events|
    ensures i <= |s.source.made| && i <= |s.scorer.rows|
    ensures Mirrors(env, s, EventBefore(AttemptOf(env, s), i), i)
  {
    hide Valid, Clean, Mirrors, EventNext, EventOk, EventBefore;
    CleanSizes(env, s);
    if i == 0 {
      FirstMirror(env, s);
    } else {
      ReplayMirrors(env, s, i - 1);
      MirrorStep(env, s, EventBefore(AttemptOf(env, s), i - 1), i - 1);
      NextReplayed(env, s, i - 1);
    }
  }

  lemma NextReplayed(env: Env, s: State, i: nat)
    requires i < |s.scorer.rows|
    ensures EventBefore(AttemptOf(env, s), i + 1)
         == EventNext(env.config, EventBefore(AttemptOf(env, s), i), s.scorer.rows[i])
  {
    hide EventNext;
  }

  lemma FirstMirror(env: Env, s: State)
    ensures Mirrors(env, s, EventBefore(AttemptOf(env, s), 0), 0)
  {
  }

  lemma MirrorStep(env: Env, s: State, e: EventState, i: nat)
    requires Valid(env.config) && Clean(env, s) && i < |env.events|
    requires i < |s.source.made| && i < |s.scorer.rows| && Mirrors(env, s, e, i)
    ensures Mirrors(env, s, EventNext(env.config, e, s.scorer.rows[i]), i + 1)
    ensures EventOk(AttemptOf(env, s), e, i)
  {
    hide Valid, GoodHistory, StartsRight, BatchesRight, UsesRight, RowOf, ScorerData, EventNext, UsersAfter,
         AlphaAfter, SameUsers, Clean, ClocksOk, PressureOk, FeaturesOk, ExtractVector, Admissible, NextAlpha;
    MadeAt(env, s, i);
    var m, row := s.source.made[i], s.scorer.rows[i];
    RowOfEvent(env, s, i);
    AdmissibleEvent(UsersAfter(s.source.made[..i]), env.config.maxKeys, m.event, m.alpha);
    ClocksAccepted(env, s, e, i);
    PressureAccepted(env, s, i);
    FeaturesAccepted(env, s, e, i);
    NextMirror(env, s, e, i);
  }

  lemma AdmissibleEvent(users: Users, maxKeys: nat, event: RawEvent, alpha: real)
    requires Admissible(users, maxKeys, event, alpha)
    ensures event.behavior <= 3
  {
  }

  lemma MadeAt(env: Env, s: State, i: nat)
    requires Clean(env, s) && i < |env.events|
    ensures i < |s.source.made| && Follows(env, s.started, s.source.made[..i], s.source.made[i])
    ensures s.source.made[i].event == env.events[i]
  {
    hide StartsRight, BatchesRight, UsesRight, RowOf, ScorerData, ExtractVector, Admissible, NextAlpha;
    GoodPrefix(env, s.started, s.source.made, i);
  }

  lemma ClocksAccepted(env: Env, s: State, e: EventState, i: nat)
    requires Clean(env, s) && i < |env.events|
    requires i < |s.source.made| && i < |s.scorer.rows| && Mirrors(env, s, e, i)
    ensures ClocksOk(AttemptOf(env, s), e, s.scorer.rows[i])
  {
    hide GoodHistory, StartsRight, BatchesRight, UsesRight, RowOf, UsersAfter, AlphaAfter, SameUsers, ExtractVector,
         Admissible, NextAlpha, Score, RowRight;
    MadeAt(env, s, i);
    RowOfEvent(env, s, i);
    if i > 0 {
      MadeAt(env, s, i - 1);
      RowOfEvent(env, s, i - 1);
      assert Last(s.source.made[..i]) == s.source.made[i - 1];
    }
  }

  lemma PressureAccepted(env: Env, s: State, i: nat)
    requires Clean(env, s) && i < |env.events|
    requires i < |s.source.made| && i < |s.scorer.rows|
    ensures PressureOk(AttemptOf(env, s), s.scorer.rows[i])
  {
    hide GoodHistory, ScorerData, EmaStep, SlotFraction, Score, BatchRight;
    RowOfEvent(env, s, i);
    var used, starts := s.source.made[i].used, s.batcher.starts;
    assert UsedRight(starts, used, s.source.made[i].loaded);
    if used != NO_OBSERVATION {
      var g := used.generation - 1;
      assert StartRight(env, s.started, s.clock, starts, g);
      BatchStart(env, s, g);
    }
  }

  lemma BatchStart(env: Env, s: State, g: nat)
    requires Clean(env, s) && g < |s.batcher.starts|
    ensures s.batcher.trace[g].ema == s.batcher.starts[g].observation.value
    ensures s.batcher.trace[g].sampled == s.batcher.starts[g].observation.sampled
  {
    hide GoodHistory, ScorerData, StartsRight, UsesRight, ControlAfter;
    assert BatchRight(env.config, s.batcher.starts, s.batches.pushed[g], g);
  }

  lemma FeaturesAccepted(env: Env, s: State, e: EventState, i: nat)
    requires Valid(env.config) && Clean(env, s) && i < |env.events|
    requires i < |s.source.made| && i < |s.scorer.rows| && Mirrors(env, s, e, i)
    ensures FeaturesOk(AttemptOf(env, s), e, s.scorer.rows[i])
  {
    hide GoodHistory, StartsRight, BatchesRight, UsesRight, RowOf, UsersAfter, AlphaAfter, Score, ReplayScore,
         ReplayVector, ReplayUser, VectorOf, Advance, ReplayAlpha, NextAlpha, ScorerData, Clean;
    MadeAt(env, s, i);
    RowOfEvent(env, s, i);
    var users, m := UsersAfter(s.source.made[..i]), s.source.made[i];
    var u, r := StateOf(users, m.event.key), Lookup(e.states, m.event.key);
    UserAgrees(env.num, u, r, m.event, m.alpha);
    AlphaAgrees(env.config, e.alpha, s.scorer.rows[i]);
    ScoreAgrees(env.num, env.model, m.x);
    assert |users.Keys| == |e.states.Keys|;
  }

  lemma NextMirror(env: Env, s: State, e: EventState, i: nat)
    requires Valid(env.config) && Clean(env, s) && i < |env.events|
    requires i < |s.source.made| && i < |s.scorer.rows| && Mirrors(env, s, e, i)
    ensures Mirrors(env, s, EventNext(env.config, e, s.scorer.rows[i]), i + 1)
  {
    hide GoodHistory, StartsRight, BatchesRight, UsesRight, RowOf, Score, ReplayVector, ReplayUser, VectorOf,
         Advance, ReplayAlpha, NextAlpha, ScorerData, Clean;
    MadeAt(env, s, i);
    RowOfEvent(env, s, i);
    var made, m := s.source.made, s.source.made[i];
    var users := UsersAfter(made[..i]);
    assert made[..i + 1][..i] == made[..i] && Last(made[..i + 1]) == m;
    UserAgrees(env.num, StateOf(users, m.event.key), Lookup(e.states, m.event.key), m.event, m.alpha);
    AlphaAgrees(env.config, e.alpha, s.scorer.rows[i]);
  }

  lemma EventsAccepted(env: Env, s: State)
    requires Valid(env.config) && Clean(env, s)
    ensures EventsOk(AttemptOf(env, s))
  {
    hide Valid, GoodHistory, StartsRight, BatchesRight, UsesRight, RowOf, ScorerData, EventOk;
    var a := AttemptOf(env, s);
    forall i | 0 <= i < |env.events| ensures EventOk(a, EventBefore(a, i), i) {
      ReplayMirrors(env, s, i);
      MirrorStep(env, s, EventBefore(a, i), i);
    }
  }

  // ---- What acceptance pins down ----

  // Attempts on the same events, model and configuration that report the same record for every event.
  predicate SameReports(a: Attempt, b: Attempt) {
    && a.events == b.events && a.model == b.model && a.receipt.config == b.receipt.config
    && |a.predictions| == |b.predictions|
    && forall i | 0 <= i < |a.predictions| :: a.predictions[i].used == b.predictions[i].used
  }

  predicate SameState(e: EventState, f: EventState) { e.states == f.states && e.alpha == f.alpha }

  lemma {:induction false} SameReplay(a: Attempt, b: Attempt, i: nat)
    requires EventsOk(a) && EventsOk(b) && SameReports(a, b) && a.num == b.num && i <= |a.predictions|
    ensures SameState(EventBefore(a, i), EventBefore(b, i))
    ensures forall k | 0 <= k < i :: SameValues(a.predictions[k], b.predictions[k])
  {
    hide EventOk, EventNext, SameState, SameValues;
    if i > 0 {
      SameReplay(a, b, i - 1);
      assert EventOk(a, EventBefore(a, i - 1), i - 1) && EventOk(b, EventBefore(b, i - 1), i - 1);
      SameRow(a, b, i - 1, EventBefore(a, i - 1), EventBefore(b, i - 1));
    } else {
      SameStart(a, b);
    }
  }

  lemma SameStart(a: Attempt, b: Attempt)
    requires SameReports(a, b)
    ensures SameState(EventBefore(a, 0), EventBefore(b, 0))
  {
  }

  lemma SameRow(a: Attempt, b: Attempt, i: nat, e: EventState, f: EventState)
    requires SameReports(a, b) && a.num == b.num && i < |a.predictions| && i < |a.events| && SameState(e, f)
    requires EventOk(a, e, i) && EventOk(b, f, i)
    ensures SameValues(a.predictions[i], b.predictions[i])
    ensures SameState(EventNext(a.receipt.config, e, a.predictions[i]),
                      EventNext(b.receipt.config, f, b.predictions[i]))
  {
    hide ReplayUser, ReplayVector, ReplayScore, ClocksOk, PressureOk;
    assert ReplayAlpha(a.receipt.config, e.alpha, a.predictions[i])
        == ReplayAlpha(b.receipt.config, f.alpha, b.predictions[i]);
  }

  predicate SameValues(p: PredictionRow, q: PredictionRow) {
    p.event == q.event && p.alpha == q.alpha && p.x == q.x && p.score == q.score
  }

  // The checker admits no freedom in the numbers: accepted attempts that report the same records agree on
  // every gain, feature and score.
  lemma AcceptedIsDetermined(a: Attempt, b: Attempt)
    requires Accepts(a) && Accepts(b) && SameReports(a, b) && a.num == b.num
    ensures forall k | 0 <= k < |a.predictions| :: SameValues(a.predictions[k], b.predictions[k])
  {
    hide ReceiptOk, TraceOk, EventsOk, SameValues;
    SameReplay(a, b, |a.predictions|);
  }

  // ---- Batches ----

  // Attempts on the same events and configuration that report the same raw occupancy for every batch.
  predicate SameOccupancies(a: Attempt, b: Attempt) {
    && a.events == b.events && a.receipt.config == b.receipt.config && |a.trace| == |b.trace|
    && forall g | 0 <= g < |a.trace| :: a.trace[g].occupancy == b.trace[g].occupancy
  }

  predicate SameBatch(p: PredictionRow, q: PredictionRow) {
    p.batchSize == q.batchSize && p.batchGeneration == q.batchGeneration && p.batchPressure == q.batchPressure
  }

  predicate SameTraceRow(p: TraceRow, q: TraceRow) {
    && p.generation == q.generation && p.ema == q.ema && p.target == q.target && p.count == q.count && p.tail == q.tail
  }

  predicate SameReplayed(t: TraceState, u: TraceState) {
    && t.pressure == u.pressure && t.target == u.target && t.offset == u.offset && t.actions == u.actions
    && t.changes == u.changes && t.direction == u.direction && t.tails == u.tails
  }

  // A batch that is not the last is full, so only the last one's size is left, and the rows fix that.
  lemma {:induction false} SameTrace(a: Attempt, b: Attempt, g: nat)
    requires TraceOk(a) && TraceOk(b) && SameOccupancies(a, b) && |a.predictions| == |b.predictions| && g <= |a.trace|
    ensures TraceBefore(a, g).offset <= |a.predictions| && TraceBefore(a, g).offset == TraceBefore(b, g).offset
    ensures SameReplayed(TraceBefore(a, g), TraceBefore(b, g))
    ensures forall h | 0 <= h < g :: SameTraceRow(a.trace[h], b.trace[h])
    ensures forall k | 0 <= k < TraceBefore(a, g).offset :: SameBatch(a.predictions[k], b.predictions[k])
  {
    hide RowOk, TraceNext, SameReplayed, SameTraceRow, SameBatch;
    if g == 0 {
      SameBeginning(a, b);
    } else {
      SameTrace(a, b, g - 1);
      assert RowOk(a, TraceBefore(a, g - 1), g - 1) && RowOk(b, TraceBefore(b, g - 1), g - 1);
      SameCount(a, b, g - 1);
      SameTraceStep(a, b, TraceBefore(a, g - 1), TraceBefore(b, g - 1), g - 1);
    }
  }

  lemma SameBeginning(a: Attempt, b: Attempt)
    requires a.receipt.config == b.receipt.config
    ensures SameReplayed(TraceBefore(a, 0), TraceBefore(b, 0))
    ensures TraceBefore(a, 0).offset == 0 == TraceBefore(b, 0).offset
  {
  }

  lemma SameCount(a: Attempt, b: Attempt, g: nat)
    requires TraceOk(a) && TraceOk(b) && SameOccupancies(a, b) && |a.predictions| == |b.predictions| && g < |a.trace|
    requires SameReplayed(TraceBefore(a, g), TraceBefore(b, g))
    ensures a.trace[g].count == b.trace[g].count
  {
    hide TraceBefore, RowOk, SameReplayed;
    assert RowOk(a, TraceBefore(a, g), g) && RowOk(b, TraceBefore(b, g), g);
    SameTarget(a, b, TraceBefore(a, g), TraceBefore(b, g), g);
    if g + 1 == |a.trace| {
      NextOffset(a, g);
      NextOffset(b, g);
      SameOffset(TraceBefore(a, g), TraceBefore(b, g));
    }
  }

  lemma SameOffset(t: TraceState, u: TraceState)
    requires SameReplayed(t, u)
    ensures t.offset == u.offset
  {
  }

  lemma NextOffset(a: Attempt, g: nat)
    requires g < |a.trace|
    ensures TraceBefore(a, g + 1).offset == TraceBefore(a, g).offset + a.trace[g].count
  {
    hide ReplayTarget, ReplayPressure;
  }

  // Before the last batch every batch has its target's size, and targets follow from the occupancies.
  lemma SameTarget(a: Attempt, b: Attempt, t: TraceState, u: TraceState, g: nat)
    requires g < |a.trace| && SameOccupancies(a, b) && RowOk(a, t, g) && RowOk(b, u, g) && SameReplayed(t, u)
    ensures g + 1 < |a.trace| ==> a.trace[g].count == b.trace[g].count
  {
    hide ReplayTarget, ReplayPressure, GroupOk, SlotRatio;
  }

  lemma SameTraceStep(a: Attempt, b: Attempt, t: TraceState, u: TraceState, g: nat)
    requires g < |a.trace| && SameOccupancies(a, b) && |a.predictions| == |b.predictions|
    requires RowOk(a, t, g) && RowOk(b, u, g) && SameReplayed(t, u) && a.trace[g].count == b.trace[g].count
    requires t.offset <= |a.predictions|
    requires forall k | 0 <= k < t.offset :: SameBatch(a.predictions[k], b.predictions[k])
    ensures var t', u' := TraceNext(a.receipt.config, t, a.trace[g]), TraceNext(b.receipt.config, u, b.trace[g]);
            && SameReplayed(t', u') && SameTraceRow(a.trace[g], b.trace[g])
            && t'.offset == u'.offset <= |a.predictions|
            && forall k | 0 <= k < t'.offset :: SameBatch(a.predictions[k], b.predictions[k])
  {
    hide ReplayTarget, ReplayPressure;
  }

  // Raw occupancies leave no freedom in the batches either: averages, targets, sizes and tails are fixed,
  // and with them every prediction's batch, the receipt's action, reversal and tail counters included.
  lemma AcceptedBatchesDetermined(a: Attempt, b: Attempt)
    requires Accepts(a) && Accepts(b) && SameOccupancies(a, b)
    ensures forall g | 0 <= g < |a.trace| :: SameTraceRow(a.trace[g], b.trace[g])
    ensures |a.predictions| == |b.predictions|
    ensures forall k | 0 <= k < |a.predictions| :: SameBatch(a.predictions[k], b.predictions[k])
    ensures a.receipt.actions == b.receipt.actions && a.receipt.changes == b.receipt.changes
    ensures a.receipt.tails == b.receipt.tails
  {
    hide EventsOk, RowOk, SameTraceRow, SameBatch, ConfigOk;
    SameTrace(a, b, |a.trace|);
  }

  // ---- Clocks ----

  // What acceptance says of the clocks of any two rows, in source order.
  lemma {:induction false} AcceptedClocks(a: Attempt, i: nat, j: nat)
    requires Accepts(a) && i <= j < |a.predictions|
    ensures var p, q := a.predictions[i], a.predictions[j];
            && p.event == a.events[i] && p.latency == p.scored - p.created
            && a.receipt.started <= p.created <= p.loaded <= p.scored <= a.receipt.finished
            && p.created <= q.created && p.scored <= q.scored && p.event.ts <= q.event.ts
            && p.used.generation <= q.used.generation && (i < j ==> p.event.seqno < q.event.seqno)
            && (q.used.available ==> q.used.generation <= q.batchGeneration && q.used.sampled <= q.loaded)
  {
    hide ReceiptOk, TraceOk, FeaturesOk, EventNext;
    assert EventOk(a, EventBefore(a, j), j);
    if i < j {
      AcceptedClocks(a, i, j - 1);
      PreviousRow(a, j);
    }
  }

  lemma PreviousRow(a: Attempt, i: nat)
    requires 0 < i <= |a.predictions|
    ensures EventBefore(a, i).previous == Some(a.predictions[i - 1])
  {
  }
}
