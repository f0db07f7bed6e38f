// What readers of the cache may rely on, policy by policy, over every run.
module PublicationGuarantees {
  import opened Bits
  import opened Reals
  import opened Controllers
  import opened Features
  import opened Publication
  import opened PublicationHistory

  // ---- Queries answer from history ----

  // The answer as the log determines it.
  ghost predicate AnswersFrom(log: Log, key: Word, ts: Word, a: Answer) {
    var u, p := LastUpdate(log, key), LastPublication(log, key);
    && a.key == key && a.ts == ts && (a.cold <==> p < 0)
    && a.version == |Publications(log, key)| && a.staleness == |Since(log, key)|
    && a.cached == (if p < 0 then ZERO_VECTOR else log[p].x)
    && a.freshX == (if u < 0 then ZERO_VECTOR else log[u].x)
    && (p >= 0 ==> a.latestSeq == log[p].event.seqno && a.latestTs == log[p].event.ts
                   && a.age == if ts >= log[p].event.ts then ts - log[p].event.ts else 0)
    && (a.cold ==> a.version == 0 && a.latestSeq == 0 && a.latestTs == 0 && a.age == ts)
  }

  lemma QueryAnswersFromHistory(setup: Setup, ops: seq<Op>, id: nat, key: Word, ts: Word)
    requires ValidSetup(setup)
    ensures AnswersFrom(LogOf(setup, ops), key, ts, AnswerOf(setup, Run(setup, ops), id, key, ts))
  {
    hide LastUpdate, LastPublication, Updates, Publications, Since, SquaredError, Run, LogOf, UsersAfter, VectorsRight;
    HistoryRefined(setup, ops);
    var log := LogOf(setup, ops);
    assert KeyRefines(log, Run(setup, ops), key);
    NothingSoFar(log, key);
  }

  // A warm answer with staleness zero serves exactly the fresh vector.
  lemma WarmAndCurrentIsFresh(log: Log, key: Word, ts: Word, a: Answer)
    requires AnswersFrom(log, key, ts, a) && !a.cold && a.staleness == 0
    ensures a.cached == a.freshX && SquaredError(a.cached, a.freshX) == 0.0
  {
    hide LastUpdate, LastPublication, Updates, Publications, Since;
    SomeSince(log, key);
    NothingSoFar(log, key);
  }

  lemma SomeSince(log: Log, key: Word)
    ensures LastUpdate(log, key) > LastPublication(log, key) ==> |Since(log, key)| > 0
  {
    if LastUpdate(log, key) > LastPublication(log, key) {
      assert LastUpdate(log, key) in Since(log, key);
    }
  }

  // ---- Versions sum to publications ----

  ghost function SumIds(versions: Versions, keys: set<Word>): nat
    requires keys <= versions.Keys
  {
    if keys == {} then 0 else
    var k :| k in keys;
    versions[k].id + SumIds(versions, keys - {k})
  }

  lemma {:induction false} SumIdsSplit(versions: Versions, keys: set<Word>, k: Word)
    requires keys <= versions.Keys && k in keys
    ensures SumIds(versions, keys) == versions[k].id + SumIds(versions, keys - {k})
  {
    var j :| j in keys && SumIds(versions, keys) == versions[j].id + SumIds(versions, keys - {j});
    if j != k {
      SumIdsSplit(versions, keys - {j}, k);
      SumIdsSplit(versions, keys - {k}, j);
      assert keys - {j} - {k} == keys - {k} - {j};
    }
  }

  lemma {:induction false} SumIdsSame(a: Versions, b: Versions, keys: set<Word>)
    requires keys <= a.Keys && keys <= b.Keys && forall k | k in keys :: a[k].id == b[k].id
    ensures SumIds(a, keys) == SumIds(b, keys)
  {
    if keys != {} {
      var k :| k in keys;
      SumIdsSplit(a, keys, k);
      SumIdsSplit(b, keys, k);
      SumIdsSame(a, b, keys - {k});
    }
  }

  lemma {:induction false} VersionsSumToTotal(setup: Setup, ops: seq<Op>)
    ensures var s := Run(setup, ops); SumIds(s.versions, s.versions.Keys) == s.total
  {
    if |ops| > 0 {
      var before, op := ops[..|ops| - 1], ops[|ops| - 1];
      VersionsSumToTotal(setup, before);
      StepKeepsSum(setup, Run(setup, before), op);
    }
  }

  lemma SumGrows(a: Versions, k: Word, v: Version)
    requires v.id == if k in a then a[k].id + 1 else 1
    ensures SumIds(a[k := v], a[k := v].Keys) == SumIds(a, a.Keys) + 1
  {
    var b, rest := a[k := v], a.Keys - {k};
    assert b.Keys == a.Keys + {k} && b.Keys - {k} == rest;
    SumIdsSplit(b, b.Keys, k);
    SumIdsSame(a, b, rest);
    if k in a {
      SumIdsSplit(a, a.Keys, k);
    } else {
      assert rest == a.Keys;
    }
  }

  lemma StepKeepsSum(setup: Setup, s: State, op: Op)
    requires SumIds(s.versions, s.versions.Keys) == s.total
    ensures var s' := StepOp(setup, s, op); SumIds(s'.versions, s'.versions.Keys) == s'.total
  {
    hide ExtractVector, ExtractUsers, Admissible, Decide, SumIds;
    var s' := StepOp(setup, s, op);
    if s'.total != s.total {
      SumGrows(s.versions, op.event.key, s'.versions[op.event.key]);
    }
  }

  // ---- Decisions, in terms of the log ----

  // What the tracking record says when an event of the key is decided: it counts that event.
  ghost predicate Tracks(log: Log, k: Word, t: Tracking) {
    var p := LastPublication(log, k);
    && t.pending == |Since(log, k)| + 1 && (t.hasPublished <==> p >= 0) && (p >= 0 ==> t.lastTs == log[p].event.ts)
  }

  // An accepted event is published exactly when the policy says so.
  lemma PublishedExactlyWhenDecided(setup: Setup, log: Log, s: State, event: RawEvent, pressure: real, wall: Word)
    requires Refines(setup, log, s)
    ensures var added := Logged(setup, s, Ingest(event, pressure, wall));
            && (Admissible(s.users, setup.maxKeys, event, setup.alpha) <==> |added| > 0) && |added| <= 1
            && (|added| > 0 ==> added[0].event == event
                                && (added[0].published <==>
                                    Decide(setup.policy, Decided(s, event.key), event.ts, pressure)))
    ensures Tracks(log, event.key, Decided(s, event.key))
  {
    hide ExtractVector, ExtractUsers, Admissible, Decide, Publish, UsersAfter, VectorsRight, LastUpdate,
         LastPublication, Updates, Publications, Since, AllPublished;
    CacheNeverThrows(setup, log, s, event, pressure, wall);
    assert KeyRefines(log, s, event.key);
    NothingSoFar(log, event.key);
  }

  // A key never published is answered with version zero and seven zeros.
  lemma ColdAnswer(setup: Setup, s: State, id: nat, key: Word, ts: Word)
    requires key !in s.versions
    ensures var a := AnswerOf(setup, s, id, key, ts);
            && a.cold && a.id == id && a.key == key && a.ts == ts && a.version == 0 && a.age == ts
            && a.cached == Vector(0.0, 0.0, 0.0, 0.0, 0.0, 0.0, 0.0)
  {
    hide SquaredError;
  }

  // ---- The error of an answer ----

  // The squared error counts every column: it vanishes only for equal vectors, and when a single column
  // differs it is the square of that difference.
  lemma ErrorCountsColumns(a: Vector, b: Vector)
    ensures SquaredError(a, b) >= 0.0 && (SquaredError(a, b) == 0.0 <==> a == b)
    ensures SquaredError(a, b) == SquaredError(b, a)
  {
    hide Square;
    SquareIs(a.engagement - b.engagement);
    SquareIs(a.logPv - b.logPv);
    SquareIs(a.logCartFav - b.logCartFav);
    SquareIs(a.gapHours - b.gapHours);
    SquareIs(a.buyShare - b.buyShare);
    SquareIs(a.logBuy - b.logBuy);
    SquareIs(a.gapEma - b.gapEma);
  }

  lemma SquareIs(x: real)
    ensures Square(x) >= 0.0 && (Square(x) == 0.0 <==> x == 0.0) && Square(-x) == Square(x)
  {
    hide Square;
    SquareMirrored(x);
    if x >= 0.0 { SquareOf(x); } else { SquareOf(-x); }
  }

  lemma SquareMirrored(x: real)
    ensures Square(-x) == Square(x)
  {
  }

  lemma SquareOf(x: real)
    requires x >= 0.0
    ensures Square(x) >= 0.0 && (Square(x) == 0.0 <==> x == 0.0)
  {
    hide Square;
    if x > 0.0 { SquarePositive(x); } else { SquareOfZero(); }
  }

  lemma SquareOfZero()
    ensures Square(0.0) == 0.0
  {
  }

  lemma SquarePositive(x: real)
    requires x > 0.0
    ensures Square(x) > 0.0
  {
    hide Square, Multiply;
    ProductPositive(x, x);
    SquareIsProduct(x);
  }

  lemma SquareIsProduct(x: real)
    ensures Square(x) == Multiply(x, x)
  {
  }

  lemma ErrorOfColumn(a: Vector, b: Vector, i: nat)
    requires i < 7 && forall j | 0 <= j < 7 && j != i :: Columns(a)[j] == Columns(b)[j]
    ensures SquaredError(a, b) == (Columns(a)[i] - Columns(b)[i]) * (Columns(a)[i] - Columns(b)[i])
  {
    hide Square;
    SquareIs(0.0);
    SquareWritten(Columns(a)[i] - Columns(b)[i]);
    var x, y := Columns(a), Columns(b);
    assert x[0] == a.engagement && x[1] == a.logPv && x[2] == a.logCartFav && x[3] == a.gapHours;
    assert x[4] == a.buyShare && x[5] == a.logBuy && x[6] == a.gapEma;
    assert y[4] == b.buyShare && y[5] == b.logBuy && y[6] == b.gapEma;
    assert y[0] == b.engagement && y[1] == b.logPv && y[2] == b.logCartFav && y[3] == b.gapHours;
    match i {
      case 0 => case 1 => case 2 => case 3 => case 4 => case 5 => case 6 =>
    }
  }

  lemma SquareWritten(x: real)
    ensures Square(x) == x * x
  {
  }

  // With a square root that vanishes at zero alone, an answer's error is zero exactly when it serves the
  // fresh vector.
  lemma AnswerErrorMeans(setup: Setup, s: State, id: nat, key: Word, ts: Word)
    requires forall x: real | x >= 0.0 :: setup.root(x) == 0.0 <==> x == 0.0
    ensures var a := AnswerOf(setup, s, id, key, ts); a.error == 0.0 <==> a.cached == a.freshX
  {
    hide SquaredError;
    var a := AnswerOf(setup, s, id, key, ts);
    ErrorCountsColumns(a.cached, a.freshX);
  }

  // ---- Fixed cadence ----

  function Every(cadence: Word): nat { if cadence < 1 then 1 else cadence }

  function Times(a: nat, b: nat): nat { a * b }

  ghost predicate CadenceKept(log: Log, k: Word, cadence: Word) {
    |Updates(log, k)| == Times(Every(cadence), |Publications(log, k)|) + |Since(log, k)|
        && |Since(log, k)| < Every(cadence)
  }

  lemma {:induction false} CadenceInvariant(setup: Setup, ops: seq<Op>, k: Word)
    requires ValidSetup(setup) && setup.policy.FixedCadence?
    ensures CadenceKept(LogOf(setup, ops), k, setup.policy.cadence)
  {
    hide CadenceKept, Logged, StepOp;
    if |ops| == 0 {
      EmptyCadence(LogOf(setup, ops), k, setup.policy.cadence);
    } else {
      var before := ops[..|ops| - 1];
      CadenceInvariant(setup, before, k);
      HistoryRefined(setup, before);
      CadenceStep(setup, LogOf(setup, before), Run(setup, before), ops[|ops| - 1], k);
    }
  }

  lemma EmptyCadence(log: Log, k: Word, cadence: Word)
    requires |log| == 0
    ensures CadenceKept(log, k, cadence)
  {
    hide LastUpdate, LastPublication;
    assert Updates(log, k) == {} && Publications(log, k) == {} && Since(log, k) == {};
  }

  lemma CadenceStep(setup: Setup, log: Log, s: State, op: Op, k: Word)
    requires setup.policy.FixedCadence? && Refines(setup, log, s) && CadenceKept(log, k, setup.policy.cadence)
    ensures CadenceKept(log + Logged(setup, s, op), k, setup.policy.cadence)
  {
    hide Refines, Logged, Times, Updates, Publications, Since, LastUpdate, LastPublication;
    AskLogsNothing(setup, s, op);
    if op.Ingest? {
      PublishedExactlyWhenDecided(setup, log, s, op.event, op.pressure, op.wall);
    }
    var added := Logged(setup, s, op);
    if |added| == 0 {
      assert log + added == log;
    } else {
      var e := added[0];
      assert added == [e];
      if e.event.key == k {
        ExtendSizes(log, e);
        TimesNext(Every(setup.policy.cadence), |Publications(log, k)|);
      } else {
        ExtendOther(log, e, k);
      }
    }
  }

  lemma AskLogsNothing(setup: Setup, s: State, op: Op)
    ensures op.Ask? ==> Logged(setup, s, op) == []
  {
  }

  lemma TimesNext(c: nat, q: nat)
    ensures Times(c, q + 1) == Times(c, q) + c
  {
  }

  // A cadence of c publishes exactly the whole multiples of c among a key's updates.
  lemma CadencePublishesFloor(setup: Setup, ops: seq<Op>, k: Word)
    requires ValidSetup(setup) && setup.policy.FixedCadence?
    ensures var log, c := LogOf(setup, ops), Every(setup.policy.cadence);
            |Publications(log, k)| == |Updates(log, k)| / c && |Since(log, k)| == |Updates(log, k)| % c
  {
    hide Updates, Publications, Since, LogOf;
    var log, c := LogOf(setup, ops), Every(setup.policy.cadence);
    CadenceInvariant(setup, ops, k);
    Quotient(c, |Publications(log, k)|, |Since(log, k)|);
  }

  lemma Quotient(c: nat, q: nat, r: nat)
    requires r < c
    ensures (Times(c, q) + r) / c == q && (Times(c, q) + r) % c == r
  {
    var n := c * q + r;
    assert n == c * (n / c) + n % c;
    SameQuotient(c, q, r, n / c, n % c);
  }

  lemma SameQuotient(c: nat, q: nat, r: nat, q': nat, r': nat)
    requires r < c && r' < c && c * q + r == c * q' + r'
    ensures q == q' && r == r'
  {
    if q < q' { NextMultiple(c, q, q'); }
    if q' < q { NextMultiple(c, q', q); }
  }

  lemma NextMultiple(c: nat, a: nat, b: nat)
    requires a < b
    ensures c * a + c <= c * b
  {
    assert c * (a + 1) <= c * b;
  }

  // ---- Adaptive cadence ----

  // Whatever the pressure, the cadence lies between one and the maximum; 64-bit wrap-around at a
  // maximum of zero is undone by the clamp.
  lemma AdaptiveInRange(cadenceMax: Word, pressure: real)
    ensures 1 <= AdaptiveCadence(cadenceMax, pressure) <= Every(cadenceMax)
  {
  }

  // The cadence is one plus the share of the range that the clamped pressure takes, rounded down.
  lemma AdaptiveExactly(cadenceMax: Word, pressure: real)
    requires cadenceMax >= 1
    ensures var k := AdaptiveCadence(cadenceMax, pressure);
            && (pressure <= 0.0 ==> k == 1) && (pressure >= 1.0 ==> k == cadenceMax)
            && (0.0 <= pressure <= 1.0 ==> (k - 1) as real <= pressure * (cadenceMax - 1) as real < k as real)
  {
    hide Portion, AdaptiveCadence, Multiply;
    PortionIs(Clamp(pressure, 0.0, 1.0), cadenceMax - 1);
    CadenceIs(cadenceMax, pressure);
    WrittenOut(pressure, (cadenceMax - 1) as real);
  }

  lemma WrittenOut(p: real, x: real)
    ensures Multiply(p, x) == p * x
  {
  }

  lemma CadenceIs(cadenceMax: Word, pressure: real)
    requires cadenceMax >= 1
    ensures AdaptiveCadence(cadenceMax, pressure) == 1 + Portion(Clamp(pressure, 0.0, 1.0), cadenceMax - 1)
  {
    hide Portion;
    PortionIs(Clamp(pressure, 0.0, 1.0), cadenceMax - 1);
  }

  // More pressure never publishes sooner.
  lemma AdaptiveIsMonotone(cadenceMax: Word, low: real, high: real)
    requires low <= high
    ensures AdaptiveCadence(cadenceMax, low) <= AdaptiveCadence(cadenceMax, high)
  {
    if cadenceMax >= 1 {
      hide AdaptiveCadence, Portion;
      CadenceIs(cadenceMax, low);
      CadenceIs(cadenceMax, high);
      PortionGrows(Clamp(low, 0.0, 1.0), Clamp(high, 0.0, 1.0), cadenceMax - 1);
    } else {
      AdaptiveInRange(cadenceMax, low);
      AdaptiveInRange(cadenceMax, high);
    }
  }

  lemma PortionGrows(p: real, q: real, n: nat)
    requires 0.0 <= p <= q <= 1.0
    ensures Portion(p, n) <= Portion(q, n)
  {
    hide Portion, Multiply;
    PortionIs(p, n);
    PortionIs(q, n);
    ShareGrows(p, q, n as real);
    BelowNext(Portion(p, n), Portion(q, n) + 1);
  }

  lemma BelowNext(a: int, b: int)
    requires a as real < b as real
    ensures a < b
  {
  }

  lemma ShareGrows(p: real, q: real, x: real)
    requires p <= q && x >= 0.0
    ensures Multiply(p, x) <= Multiply(q, x)
  {
    ProductNonnegative(q - p, x);
    assert (q - p) * x == q * x - p * x;
  }

  // ---- Adaptive cadence under constant pressure ----

  predicate Steady(ops: seq<Op>, pressure: real) {
    forall i | 0 <= i < |ops| && ops[i].Ingest? :: ops[i].pressure == pressure
  }

  // At constant pressure the adaptive policy is the fixed cadence of that pressure, over every run.
  lemma {:induction false} SteadyIsFixed(setup: Setup, fixed: Setup, ops: seq<Op>, pressure: real)
    requires setup.policy.AdaptivePressure? && Steady(ops, pressure)
    requires fixed == setup.(policy := FixedCadence(AdaptiveCadence(setup.policy.cadenceMax, pressure)))
    ensures Run(setup, ops) == Run(fixed, ops) && LogOf(setup, ops) == LogOf(fixed, ops)
  {
    hide StepOp, Logged, AdaptiveCadence;
    if |ops| > 0 {
      var before, op := ops[..|ops| - 1], ops[|ops| - 1];
      SteadyIsFixed(setup, fixed, before, pressure);
      SteadyStep(setup, fixed, Run(setup, before), op, pressure);
    }
  }

  lemma SteadyStep(setup: Setup, fixed: Setup, s: State, op: Op, pressure: real)
    requires setup.policy.AdaptivePressure? && (op.Ingest? ==> op.pressure == pressure)
    requires fixed == setup.(policy := FixedCadence(AdaptiveCadence(setup.policy.cadenceMax, pressure)))
    ensures StepOp(setup, s, op) == StepOp(fixed, s, op) && Logged(setup, s, op) == Logged(fixed, s, op)
  {
    hide AdaptiveCadence, ExtractVector, ExtractUsers, Admissible, Publish;
  }

  // So it publishes the whole multiples of that cadence among a key's updates: every event when there is
  // no pressure, one event in the maximum at full pressure.
  lemma SteadyPublishesFloor(setup: Setup, ops: seq<Op>, k: Word, pressure: real)
    requires ValidSetup(setup) && setup.policy.AdaptivePressure? && Steady(ops, pressure)
    ensures var log, c := LogOf(setup, ops), AdaptiveCadence(setup.policy.cadenceMax, pressure);
            && c >= 1 && |Publications(log, k)| == |Updates(log, k)| / c && |Since(log, k)| == |Updates(log, k)| % c
            && (pressure <= 0.0 ==> c == 1) && (pressure >= 1.0 ==> c == Every(setup.policy.cadenceMax))
  {
    hide LogOf, Run, AdaptiveCadence, Updates, Publications, Since, Steady;
    var c := AdaptiveCadence(setup.policy.cadenceMax, pressure);
    var fixed := setup.(policy := FixedCadence(c));
    AdaptiveInRange(setup.policy.cadenceMax, pressure);
    if setup.policy.cadenceMax >= 1 { AdaptiveExactly(setup.policy.cadenceMax, pressure); }
    SteadyIsFixed(setup, fixed, ops, pressure);
    CadencePublishesFloor(fixed, ops, k);
  }

  // Staleness stays below the maximum cadence.
  lemma {:induction false} AdaptiveStalenessBounded(setup: Setup, ops: seq<Op>, k: Word)
    requires ValidSetup(setup) && setup.policy.AdaptivePressure?
    ensures |Since(LogOf(setup, ops), k)| < Every(setup.policy.cadenceMax)
  {
    hide Logged, StepOp, Since;
    if |ops| == 0 {
      EmptyCadence(LogOf(setup, ops), k, 1);
    } else {
      var before := ops[..|ops| - 1];
      AdaptiveStalenessBounded(setup, before, k);
      HistoryRefined(setup, before);
      AdaptiveStep(setup, LogOf(setup, before), Run(setup, before), ops[|ops| - 1], k);
    }
  }

  lemma AdaptiveStep(setup: Setup, log: Log, s: State, op: Op, k: Word)
    requires setup.policy.AdaptivePressure? && Refines(setup, log, s)
             && |Since(log, k)| < Every(setup.policy.cadenceMax)
    ensures |Since(log + Logged(setup, s, op), k)| < Every(setup.policy.cadenceMax)
  {
    hide Refines, Logged, AdaptiveCadence, Since, LastUpdate, LastPublication;
    AskLogsNothing(setup, s, op);
    if op.Ingest? {
      PublishedExactlyWhenDecided(setup, log, s, op.event, op.pressure, op.wall);
      AdaptiveInRange(setup.policy.cadenceMax, op.pressure);
    }
    var added := Logged(setup, s, op);
    if |added| == 0 {
      assert log + added == log;
    } else {
      var e := added[0];
      assert added == [e];
      if e.event.key == k { ExtendSince(log, e); } else { ExtendOther(log, e, k); }
    }
  }

  // ---- Exact freshness and elapsed time ----

  // Publishing every event leaves nothing stale.
  lemma {:induction false} ExactFreshIsCurrent(setup: Setup, ops: seq<Op>, k: Word)
    requires ValidSetup(setup) && setup.policy.ExactFresh?
    ensures |Since(LogOf(setup, ops), k)| == 0
  {
    hide Logged, StepOp, Since, LastUpdate, LastPublication, Refines;
    if |ops| == 0 {
      EmptyCadence(LogOf(setup, ops), k, 1);
    } else {
      var before, op := ops[..|ops| - 1], ops[|ops| - 1];
      var log, s := LogOf(setup, before), Run(setup, before);
      ExactFreshIsCurrent(setup, before, k);
      HistoryRefined(setup, before);
      AskLogsNothing(setup, s, op);
      if op.Ingest? { PublishedExactlyWhenDecided(setup, log, s, op.event, op.pressure, op.wall); }
      OneEntry(log, Logged(setup, s, op), k);
    }
  }

  lemma OneEntry(log: Log, added: Log, k: Word)
    requires |added| <= 1
    ensures |added| == 0 ==> log + added == log
    ensures |added| == 1 ==> added == [added[0]]
    ensures |added| == 1 && added[0].event.key != k ==> Since(log + added, k) == Since(log, k)
    ensures |added| == 1 && added[0].event.key == k ==>
      |Since(log + added, k)| == if added[0].published then 0 else |Since(log, k)| + 1
  {
    hide Since, Updates, Publications, LastUpdate, LastPublication;
    if |added| == 1 {
      assert added == [added[0]];
      if added[0].event.key == k { ExtendSizes(log, added[0]); } else { ExtendOther(log, added[0], k); }
    } else {
      assert log + added == log;
    }
  }

  // Every key with events has a published version, and the key's unpublished events are all younger
  // than the threshold (as 64-bit arithmetic sees it).
  ghost predicate ElapsedKept(log: Log, k: Word, threshold: Word) {
    var p := LastPublication(log, k);
    && (LastUpdate(log, k) >= 0 ==> p >= 0)
    && forall i | i in Since(log, k) :: p >= 0 && !Elapsed(log[i].event.ts, log[p].event.ts, threshold)
  }

  lemma {:induction false} ElapsedInvariant(setup: Setup, ops: seq<Op>, k: Word)
    requires ValidSetup(setup) && setup.policy.ElapsedThreshold?
    ensures ElapsedKept(LogOf(setup, ops), k, setup.policy.threshold)
  {
    hide Logged, StepOp, ElapsedKept;
    if |ops| == 0 {
      EmptyElapsed(LogOf(setup, ops), k, setup.policy.threshold);
    } else {
      var before := ops[..|ops| - 1];
      ElapsedInvariant(setup, before, k);
      HistoryRefined(setup, before);
      ElapsedStep(setup, LogOf(setup, before), Run(setup, before), ops[|ops| - 1], k);
    }
  }

  lemma EmptyElapsed(log: Log, k: Word, threshold: Word)
    requires |log| == 0
    ensures ElapsedKept(log, k, threshold)
  {
    hide LastUpdate, LastPublication;
    assert Since(log, k) == {};
  }

  lemma ElapsedStep(setup: Setup, log: Log, s: State, op: Op, k: Word)
    requires setup.policy.ElapsedThreshold? && Refines(setup, log, s) && ElapsedKept(log, k, setup.policy.threshold)
    ensures ElapsedKept(log + Logged(setup, s, op), k, setup.policy.threshold)
  {
    hide Refines, Logged, Elapsed, Since, Updates, Publications, LastUpdate, LastPublication;
    AskLogsNothing(setup, s, op);
    if op.Ingest? {
      PublishedExactlyWhenDecided(setup, log, s, op.event, op.pressure, op.wall);
    }
    var added := Logged(setup, s, op);
    if |added| == 0 {
      assert log + added == log;
    } else {
      var e := added[0];
      assert added == [e];
      SinceBelow(log, k);
      if e.event.key == k {
        ExtendOwn(log, e);
        ExtendSince(log, e);
        ExtendPublication(log, e);
      } else {
        ExtendOther(log, e, k);
      }
    }
  }

  lemma SinceBelow(log: Log, k: Word)
    ensures forall i | i in Since(log, k) :: i < |log|
  {
  }

  // Once a key has an event it has a published version, and that version is less than the threshold
  // behind the key's latest event, as 64-bit arithmetic sees it.
  lemma ElapsedStalenessBounded(setup: Setup, ops: seq<Op>, k: Word)
    requires ValidSetup(setup) && setup.policy.ElapsedThreshold?
    ensures var log, threshold := LogOf(setup, ops), setup.policy.threshold;
            var u, p := LastUpdate(log, k), LastPublication(log, k);
            u >= 0 ==> p >= 0 && (u > p ==> log[u].event.ts < (log[p].event.ts + threshold) % WORD)
  {
    hide LastUpdate, LastPublication, LogOf;
    var log := LogOf(setup, ops);
    ElapsedInvariant(setup, ops, k);
    if LastUpdate(log, k) > LastPublication(log, k) { assert LastUpdate(log, k) in Since(log, k); }
  }

  // ---- A larger fixed cadence never publishes more ----

  ghost predicate SameEvents(a: Log, b: Log) { |a| == |b| && forall i | 0 <= i < |a| :: a[i].event == b[i].event }

  lemma {:induction false} PolicyOnlyPublishes(left: Setup, right: Setup, ops: seq<Op>)
    requires ValidSetup(left) && right == left.(policy := right.policy)
    ensures Run(left, ops).users == Run(right, ops).users && SameEvents(LogOf(left, ops), LogOf(right, ops))
  {
    hide StepOp, Logged, Refines, SameEvents;
    if |ops| == 0 {
      NoEvents(LogOf(left, ops), LogOf(right, ops));
    } else {
      var before, op := ops[..|ops| - 1], ops[|ops| - 1];
      PolicyOnlyPublishes(left, right, before);
      HistoryRefined(left, before);
      HistoryRefined(right, before);
      SameEventsStep(left, right, LogOf(left, before), LogOf(right, before), Run(left, before), Run(right, before), op);
    }
  }

  lemma NoEvents(a: Log, b: Log)
    requires |a| == |b| == 0
    ensures SameEvents(a, b)
  {
  }

  lemma SameEventsStep(left: Setup, right: Setup, a: Log, b: Log, s: State, t: State, op: Op)
    requires right == left.(policy := right.policy) && Refines(left, a, s) && Refines(right, b, t)
    requires s.users == t.users && SameEvents(a, b)
    ensures StepOp(left, s, op).users == StepOp(right, t, op).users
    ensures SameEvents(a + Logged(left, s, op), b + Logged(right, t, op))
  {
    hide Logged, Refines, Admissible, Tracks, Decide, Process;
    AskLogsNothing(left, s, op);
    AskLogsNothing(right, t, op);
    if op.Ingest? {
      PublishedExactlyWhenDecided(left, a, s, op.event, op.pressure, op.wall);
      PublishedExactlyWhenDecided(right, b, t, op.event, op.pressure, op.wall);
      SameUsers(left, right, a, b, s, t, op);
    }
  }

  lemma SameUsers(left: Setup, right: Setup, a: Log, b: Log, s: State, t: State, op: Op)
    requires right == left.(policy := right.policy) && s.users == t.users && op.Ingest?
    requires Refines(left, a, s) && Refines(right, b, t)
    ensures StepOp(left, s, op).users == StepOp(right, t, op).users
  {
    hide Refines, ExtractVector, ExtractUsers, Admissible, Decide, Publish;
    CacheNeverThrows(left, a, s, op.event, op.pressure, op.wall);
    CacheNeverThrows(right, b, t, op.event, op.pressure, op.wall);
    TakenUsers(left, s, op);
    TakenUsers(right, t, op);
  }

  lemma TakenUsers(setup: Setup, s: State, op: Op)
    requires op.Ingest?
    ensures StepOp(setup, s, op).users
         == if Admissible(s.users, setup.maxKeys, op.event, setup.alpha)
            then ExtractUsers(s.users, op.event, setup.alpha)
            else s.users
  {
    hide ExtractVector, ExtractUsers, Admissible, Decide;
  }

  lemma {:induction false} SumIdsMonotone(a: Versions, b: Versions, few: set<Word>, many: set<Word>)
    requires few <= many && few <= a.Keys && many <= b.Keys && forall k | k in few :: a[k].id <= b[k].id
    ensures SumIds(a, few) <= SumIds(b, many)
  {
    if few != {} {
      var k :| k in few;
      SumIdsSplit(a, few, k);
      SumIdsSplit(b, many, k);
      SumIdsMonotone(a, b, few - {k}, many - {k});
    }
  }

  lemma FewerMultiples(n: nat, c: nat, d: nat, q: nat, r: nat, q': nat, r': nat)
    requires 0 < c <= d && n == Times(c, q) + r == Times(d, q') + r' && r < c
    ensures q' <= q
  {
    if q < q' {
      NextMultiple(c, q, q');
      LargerFactor(c, d, q');
    }
  }

  lemma LargerFactor(c: nat, d: nat, q: nat)
    requires c <= d
    ensures Times(c, q) <= Times(d, q)
  {
  }

  // Over the same operations, raising a fixed cadence never raises the number of publications.
  lemma LargerCadencePublishesLess(small: Setup, large: Setup, ops: seq<Op>)
    requires ValidSetup(small) && small.policy.FixedCadence? && large.policy.FixedCadence?
    requires large == small.(policy := large.policy) && small.policy.cadence <= large.policy.cadence
    ensures Run(large, ops).total <= Run(small, ops).total
  {
    hide Run, LogOf, KeyRefines, Updates, Publications, Since, Times;
    var s, t := Run(small, ops), Run(large, ops);
    forall k | k in t.versions ensures k in s.versions && t.versions[k].id <= s.versions[k].id {
      KeyPublishesLess(small, large, ops, k);
    }
    VersionsSumToTotal(small, ops);
    VersionsSumToTotal(large, ops);
    SumIdsMonotone(t.versions, s.versions, t.versions.Keys, s.versions.Keys);
  }

  lemma KeyPublishesLess(small: Setup, large: Setup, ops: seq<Op>, k: Word)
    requires ValidSetup(small) && small.policy.FixedCadence? && large.policy.FixedCadence?
    requires large == small.(policy := large.policy) && small.policy.cadence <= large.policy.cadence
    ensures var s, t := Run(small, ops), Run(large, ops);
            k in t.versions ==> k in s.versions && t.versions[k].id <= s.versions[k].id
  {
    hide Run, LogOf, Updates, Publications, Since, Times, LastUpdate, LastPublication, SameEvents, UsersAfter,
         VectorsRight, AllPublished;
    var a, b := LogOf(small, ops), LogOf(large, ops);
    PolicyOnlyPublishes(small, large, ops);
    HistoryRefined(small, ops);
    HistoryRefined(large, ops);
    CadenceInvariant(small, ops, k);
    CadenceInvariant(large, ops, k);
    SameUpdates(a, b, k);
    assert KeyRefines(a, Run(small, ops), k) && KeyRefines(b, Run(large, ops), k);
    FewerMultiples(|Updates(a, k)|, Every(small.policy.cadence), Every(large.policy.cadence),
                   |Publications(a, k)|, |Since(a, k)|, |Publications(b, k)|, |Since(b, k)|);
    NothingSoFar(a, k);
    PublicationCounted(b, k);
  }

  lemma SameUpdates(a: Log, b: Log, k: Word)
    requires SameEvents(a, b)
    ensures Updates(a, k) == Updates(b, k)
  {
  }

  lemma PublicationCounted(log: Log, k: Word)
    ensures LastPublication(log, k) >= 0 ==> |Publications(log, k)| > 0
  {
    if LastPublication(log, k) >= 0 {
      assert LastPublication(log, k) in Publications(log, k);
    }
  }
}
