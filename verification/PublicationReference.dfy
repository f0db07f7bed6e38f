// The Python reference simulator, and its lockstep with the coordinator.
module PublicationReference {
  import opened Bits
  import opened Options
  import opened Controllers
  import opened Features
  import opened Publication
  import opened PublicationHistory
  import opened Sets

  // ---- Policies ----

  datatype Rule =
    | FreshRule
    | CadenceRule(cadence: nat)
    | ElapsedRule(delta: nat)
    | PressureRule(kMin: nat, kMax: nat)

  // Per-key state: the features' state and the publication fields live in one record.
  datatype SimUser = SimUser(core: UserState, pending: nat, hasPublished: bool, versionId: nat, lastTs: Word,
                             lastSeq: Word)

  const NEW_SIM_USER := SimUser(NEW_USER, 0, false, 0, 0, 0)

  function TargetCadence(kMin: nat, kMax: nat, pressure: real): int
    requires kMin <= kMax
  {
    var p := Clamp(pressure, 0.0, 1.0);
    var k := kMin + Portion(p, kMax - kMin);
    var low := if k < kMax then k else kMax;
    if low > kMin then low else kMin
  }

  // `pending` does not yet count the current event.
  predicate ShouldPublish(r: Rule, u: SimUser, ts: Word, pressure: real) {
    match r
    case FreshRule => true
    case CadenceRule(cadence) => u.pending + 1 >= cadence
    case ElapsedRule(delta) => !u.hasPublished || ts - u.lastTs >= delta
    case PressureRule(kMin, kMax) => kMin <= kMax && u.pending + 1 >= TargetCadence(kMin, kMax, pressure)
  }

  // ---- The simulator as a function of its value ----

  datatype SimState = SimState(users: map<Word, SimUser>, latest: map<Word, Vector>, versions: Versions, total: nat,
                               accounting: Accounting)

  const EMPTY_SIM := SimState(map[], map[], map[], 0, Accounting(0, 0, 0, 0, 0, 0))

  datatype SimSetup = SimSetup(num: Numerics, root: real -> real, rule: Rule, alpha: real, maxKeys: nat)

  datatype SimOutcome = Raised | Returned(published: bool, version: Option<Version>)

  function SimUserOf(users: map<Word, SimUser>, key: Word): SimUser {
    if key in users then users[key] else NEW_SIM_USER
  }

  predicate Accepts(setup: SimSetup, s: SimState, event: RawEvent) {
    && event.behavior <= 3
    && (event.key in s.users || |s.users| < setup.maxKeys)
    && var core := SimUserOf(s.users, event.key).core; !(core.seen && event.ts < core.last)
  }

  function SimProcess(setup: SimSetup, s: SimState, event: RawEvent, pressure: real, wall: Word)
    : (SimOutcome, SimState)
  {
    if !Accepts(setup, s, event) then (Raised, s)
    else
      var before := SimUserOf(s.users, event.key);
      var u := before.(core := Advance(before.core, event, setup.alpha));
      var x := VectorOf(setup.num, before.core, u.core, event);
      var s' := s.(latest := s.latest[event.key := x],
                   accounting := s.accounting.(processed := s.accounting.processed + 1));
      if ShouldPublish(setup.rule, u, event.ts, pressure) then
        var v := NextVersion(s.versions, event.key, event.seqno, event.ts, x, PublicationTime(event, wall));
        (Returned(true, Some(v)),
         s'.(versions := s.versions[event.key := v], total := s.total + 1,
             users := s.users[event.key := SimUser(u.core, 0, true, v.id, event.ts, event.seqno)],
             accounting := s'.accounting.(published := s.accounting.published + 1)))
      else
        (Returned(false, None),
         s'.(users := s.users[event.key := u.(pending := u.pending + 1)],
             accounting := s'.accounting.(coalesced := s.accounting.coalesced + 1)))
  }

  function SimAnswer(setup: SimSetup, s: SimState, id: nat, key: Word, ts: Word): Answer {
    var cold := key !in s.versions;
    var v := if cold then ColdVersion(key) else s.versions[key];
    var freshX := if key in s.latest then s.latest[key] else ZERO_VECTOR;
    Answer(id, key, ts, cold, v.id, v.latestSeq, v.latestTs, v.features, freshX,
           if cold then ts else Later(ts - v.latestTs), SimUserOf(s.users, key).pending,
           setup.root(SquaredError(v.features, freshX)))
  }

  // max(0, n)
  function Later(n: int): nat { if n > 0 then n else 0 }

  function SimQuery(s: SimState, key: Word): SimState {
    var a := s.accounting;
    s.(accounting := if key !in s.versions then a.(queries := a.queries + 1, cold := a.cold + 1)
                     else a.(queries := a.queries + 1, warm := a.warm + 1))
  }

  // ---- The simulator as a class ----

  class PublicationSimulator {
    const setup: SimSetup
    var versions: Versions
    var totalPublications: nat
    var users: map<Word, SimUser>
    var latest: map<Word, Vector>
    var accounting: Accounting

    constructor (setup: SimSetup)
      requires 0.0 < setup.alpha <= 1.0 && setup.maxKeys > 0
      requires setup.rule.CadenceRule? ==> setup.rule.cadence >= 1
      requires setup.rule.PressureRule? ==> 1 <= setup.rule.kMin <= setup.rule.kMax
      ensures this.setup == setup && Value() == EMPTY_SIM
    {
      this.setup := setup;
      versions, totalPublications, users, latest := map[], 0, map[], map[];
      accounting := Accounting(0, 0, 0, 0, 0, 0);
    }

    function Value(): SimState reads this { SimState(users, latest, versions, totalPublications, accounting) }

    method ProcessEvent(event: RawEvent, pressure: real, wall: Word) returns (r: SimOutcome)
      modifies this
      ensures (r, Value()) == SimProcess(setup, old(Value()), event, pressure, wall)
    {
      hide VectorOf, Advance, ShouldPublish;
      if event.behavior > 3 { return Raised; }
      var key := event.key;
      var state := NEW_SIM_USER;
      if key in users {
        state := users[key];
      } else if |users| >= setup.maxKeys {
        return Raised;
      }
      if state.core.seen && event.ts < state.core.last { return Raised; }
      var before := state.core;
      var core := KeyedFeatures.Observe(before, event, setup.alpha);
      state := state.(core := core);
      AdvanceCounts(before, event, setup.alpha);
      var x := VectorOf(setup.num, before, state.core, event);
      latest := latest[key := x];
      accounting := accounting.(processed := accounting.processed + 1);
      if ShouldPublish(setup.rule, state, event.ts, pressure) {
        var id := if key in versions then versions[key].id + 1 else 1;
        var version := Version(key, id, event.seqno, event.ts, x, if wall > 0 then wall else event.ts);
        versions, totalPublications := versions[key := version], totalPublications + 1;
        users := users[key := SimUser(state.core, 0, true, id, event.ts, event.seqno)];
        accounting := accounting.(published := accounting.published + 1);
        return Returned(true, Some(version));
      } else {
        users := users[key := state.(pending := state.pending + 1)];
        accounting := accounting.(coalesced := accounting.coalesced + 1);
        return Returned(false, None);
      }
    }

    method ServeQuery(id: nat, key: Word, ts: Word) returns (r: Answer)
      modifies this
      ensures Value() == SimQuery(old(Value()), key) && r == SimAnswer(setup, old(Value()), id, key, ts)
    {
      var cold := key !in versions;
      var version := if cold then ColdVersion(key) else versions[key];
      accounting := accounting.(queries := accounting.queries + 1);
      if cold {
        accounting := accounting.(cold := accounting.cold + 1);
      } else {
        accounting := accounting.(warm := accounting.warm + 1);
      }
      var freshX := if key in latest then latest[key] else ZERO_VECTOR;
      var age: nat := ts;
      if !cold { age := Later(ts - version.latestTs); }
      var staleness := if key in users then users[key].pending else 0;
      r := Answer(id, key, ts, cold, version.id, version.latestSeq, version.latestTs, version.features, freshX,
                  age, staleness, setup.root(SquaredError(version.features, freshX)));
    }
  }

  lemma AdvanceCounts(u: UserState, event: RawEvent, alpha: real)
    ensures Advance(u, event, alpha).count == u.count + 1
  {
  }

  // ---- Lockstep ----

  // The simulator's rule for a coordinator's policy, where it has one.
  predicate Corresponds(policy: Policy, r: Rule) {
    match policy
    case ExactFresh => r == FreshRule
    case FixedCadence(cadence) => cadence >= 1 && r == CadenceRule(cadence)
    case ElapsedThreshold(threshold) => r == ElapsedRule(threshold)
    case AdaptivePressure(cadenceMax) => cadenceMax >= 1 && r == PressureRule(1, cadenceMax)
  }

  ghost predicate Paired(setup: Setup, sim: SimSetup) {
    && ValidSetup(setup) && Corresponds(setup.policy, sim.rule)
    && sim.num == setup.num && sim.root == setup.root && sim.alpha == setup.alpha && sim.maxKeys == setup.maxKeys
  }

  ghost predicate KeyAgrees(s: State, t: SimState, k: Word) {
    && (k in t.users <==> k in s.users) && (k in s.tracking <==> k in s.users)
    && (k in s.users ==>
          var u, tr := t.users[k], s.tracking[k];
          && u.core == s.users[k] && u.pending == tr.pending && u.hasPublished == tr.hasPublished
          && u.lastTs == tr.lastTs && u.lastSeq == tr.lastSeq
          && (u.hasPublished ==>
                k in s.versions && u.versionId == s.versions[k].id && u.lastTs <= u.core.last && u.core.seen))
  }

  ghost predicate Agree(s: State, t: SimState) {
    && s.latest == t.latest && s.versions == t.versions && s.total == t.total && s.accounting == t.accounting
    && forall k: Word :: KeyAgrees(s, t, k)
  }

  predicate SameOutcome(o: Outcome, p: SimOutcome) {
    match o
    case Rejected => p.Raised?
    case CacheThrew => false
    case Processed(published, version) =>
      p.Returned? && p.published == published && p.version == if published then Some(version) else None
  }

  // The two 64-bit limits the simulator does not have: the event count, and the sum of the last
  // publication time and the threshold.
  predicate WithinWord(setup: Setup, s: State, event: RawEvent) {
    && StateOf(s.users, event.key).count != WORD - 1
    && (setup.policy.ElapsedThreshold? ==>
          var t := TrackingOf(s.tracking, event.key); t.hasPublished ==> t.lastTs + setup.policy.threshold < WORD)
  }

  lemma CadencesAgree(cadenceMax: Word, pressure: real)
    requires cadenceMax >= 1
    ensures AdaptiveCadence(cadenceMax, pressure) == TargetCadence(1, cadenceMax, pressure)
  {
    hide Portion;
    PortionIs(Clamp(pressure, 0.0, 1.0), cadenceMax - 1);
  }

  // Incrementing before or after deciding makes no difference; wrap-around does.
  lemma DecisionsAgree(policy: Policy, r: Rule, t: Tracking, u: SimUser, ts: Word, pressure: real)
    requires Corresponds(policy, r) && u.pending == t.pending && u.hasPublished == t.hasPublished
             && u.lastTs == t.lastTs
    requires t.hasPublished ==> t.lastTs <= ts
    ensures (Decide(policy, t.(pending := t.pending + 1), ts, pressure) <==> ShouldPublish(r, u, ts, pressure))
       <==> (policy.ElapsedThreshold? && t.hasPublished ==> t.lastTs + policy.threshold < WORD)
  {
    hide AdaptiveCadence, TargetCadence;
    match policy {
      case ElapsedThreshold(threshold) => WrapsBelow(t.lastTs, threshold);
      case AdaptivePressure(cadenceMax) => CadencesAgree(cadenceMax, pressure);
      case _ =>
    }
  }

  // The limit is real: with a threshold of 2^64 - 1, a key published at time 1 is published again at
  // time 2 by the coordinator, whose sum wraps to zero, and not by the simulator.
  lemma WrapAroundDiverges()
    ensures Decide(ElapsedThreshold(WORD - 1), Tracking(1, 1, 0, true), 2, 0.0)
    ensures !ShouldPublish(ElapsedRule(WORD - 1), NEW_SIM_USER.(hasPublished := true, lastTs := 1), 2, 0.0)
  {
    WrapsBelow(1, WORD - 1);
  }

  lemma WrapsBelow(a: Word, b: Word)
    ensures (a + b) % WORD == if a + b < WORD then a + b else a + b - WORD
  {
  }

  // ---- One operation ----

  // Both sides hold the same key's records.
  lemma SameKeys(s: State, t: SimState)
    requires Agree(s, t)
    ensures s.users.Keys == t.users.Keys
  {
    forall k: Word ensures k in s.users.Keys <==> k in t.users.Keys { assert KeyAgrees(s, t, k); }
  }

  lemma AdmissionsAgree(setup: Setup, sim: SimSetup, s: State, t: SimState, event: RawEvent)
    requires Paired(setup, sim) && Agree(s, t)
    ensures Admissible(s.users, setup.maxKeys, event, setup.alpha)
       <==> Accepts(sim, t, event) && StateOf(s.users, event.key).count != WORD - 1
  {
    SameKeys(s, t);
    assert |s.users| == |s.users.Keys| && |t.users| == |t.users.Keys|;
    assert KeyAgrees(s, t, event.key);
  }

  lemma DecisionAgrees(setup: Setup, sim: SimSetup, s: State, t: SimState, event: RawEvent, pressure: real)
    requires Paired(setup, sim) && Agree(s, t) && Accepts(sim, t, event)
    requires StateOf(s.users, event.key).count != WORD - 1
    ensures var u := SimUserOf(t.users, event.key);
            (Decide(setup.policy, Decided(s, event.key), event.ts, pressure)
             <==> ShouldPublish(sim.rule, u.(core := Advance(u.core, event, sim.alpha)), event.ts, pressure))
            <==> WithinWord(setup, s, event)
  {
    hide Advance, Decide, ShouldPublish;
    var u, tr := SimUserOf(t.users, event.key), TrackingOf(s.tracking, event.key);
    assert KeyAgrees(s, t, event.key);
    DecisionsAgree(setup.policy, sim.rule, tr, u.(core := Advance(u.core, event, sim.alpha)), event.ts, pressure);
  }

  lemma OtherKeyAgrees(s: State, t: SimState, s': State, t': SimState, k: Word)
    requires KeyAgrees(s, t, k) && OtherKeyStays(s, s', k)
    requires (k in t'.users <==> k in t.users) && (k in t.users ==> t'.users[k] == t.users[k])
    ensures KeyAgrees(s', t', k)
  {
  }

  // When both take the event and make the same decision, they return the same and stay in agreement.
  lemma MoveTogether(setup: Setup, sim: SimSetup, s: State, t: SimState, event: RawEvent, pressure: real, wall: Word)
    requires Paired(setup, sim) && Agree(s, t) && Accepts(sim, t, event)
    requires Process(setup, s, event, pressure, wall).0.Processed?
             && SimProcess(sim, t, event, pressure, wall).0.Returned?
    requires Process(setup, s, event, pressure, wall).0.published
             == SimProcess(sim, t, event, pressure, wall).0.published
    ensures SameOutcome(Process(setup, s, event, pressure, wall).0, SimProcess(sim, t, event, pressure, wall).0)
    ensures Agree(Process(setup, s, event, pressure, wall).1, SimProcess(sim, t, event, pressure, wall).1)
  {
    hide Advance, VectorOf, Decide, ShouldPublish, Admissible, Accepts, KeyAgrees;
    var s', t' := Process(setup, s, event, pressure, wall).1, SimProcess(sim, t, event, pressure, wall).1;
    OwnVector(setup, sim, s, t, event);
    forall k: Word ensures KeyAgrees(s', t', k) {
      assert KeyAgrees(s, t, k);
      if k == event.key {
        OwnKeyAgrees(s, t, event, s', t');
      } else {
        OtherKeyAgrees(s, t, s', t', k);
      }
    }
  }

  lemma OwnVector(setup: Setup, sim: SimSetup, s: State, t: SimState, event: RawEvent)
    requires Paired(setup, sim) && Agree(s, t) && Accepts(sim, t, event)
    ensures var u := SimUserOf(t.users, event.key); var after := Advance(u.core, event, sim.alpha);
            && u.core == StateOf(s.users, event.key) && (u.core.seen ==> u.core.last <= event.ts)
            && after.count > 0 && after.last == event.ts && after.seen
            && ExtractUsers(s.users, event, setup.alpha) == s.users[event.key := after]
            && ExtractVector(setup.num, s.users, event, setup.alpha) == VectorOf(sim.num, u.core, after, event)
  {
    assert KeyAgrees(s, t, event.key);
  }

  lemma OwnKeyAgrees(s: State, t: SimState, event: RawEvent, s': State, t': SimState)
    requires KeyAgrees(s, t, event.key)
    requires var k := event.key;
             k in s'.users && k in s'.tracking && k in t'.users && t'.users[k].core == s'.users[k]
             && s'.users[k].last == event.ts && s'.users[k].seen
    requires var k, u := event.key, SimUserOf(t.users, event.key); u.core.seen ==> u.core.last <= event.ts
    requires var k := event.key;
             || (s'.tracking[k] == Tracking(0, event.ts, event.seqno, true) && k in s'.versions
                 && t'.users[k] == SimUser(t'.users[k].core, 0, true, s'.versions[k].id, event.ts, event.seqno))
             || (s'.versions == s.versions
                 && s'.tracking[k] == TrackingOf(s.tracking, k).(pending := TrackingOf(s.tracking, k).pending + 1)
                 && t'.users[k]
                    == SimUserOf(t.users, k).(core := t'.users[k].core, pending := SimUserOf(t.users, k).pending + 1))
    ensures KeyAgrees(s', t', event.key)
  {
  }

  // One event, exactly: the two agree on it unless the simulator takes it and a 64-bit limit is hit.
  lemma IngestLockstep(setup: Setup, sim: SimSetup, s: State, t: SimState, event: RawEvent, pressure: real, wall: Word)
    requires Paired(setup, sim) && Agree(s, t)
    requires Admissible(s.users, setup.maxKeys, event, setup.alpha) ==>
      CacheAdmits(s.versions, setup.maxKeys, event.key)
    ensures var o, p := Process(setup, s, event, pressure, wall), SimProcess(sim, t, event, pressure, wall);
            && (SameOutcome(o.0, p.0) <==> (Accepts(sim, t, event) ==> WithinWord(setup, s, event)))
            && (SameOutcome(o.0, p.0) ==> Agree(o.1, p.1))
  {
    hide Advance, VectorOf, Decide, ShouldPublish, Admissible, Accepts, KeyAgrees, Agree, Publish, NextVersion,
         SameOutcome, ExtractVector, ExtractUsers;
    AdmissionsAgree(setup, sim, s, t, event);
    var o, p := Process(setup, s, event, pressure, wall), SimProcess(sim, t, event, pressure, wall);
    if Accepts(sim, t, event) && StateOf(s.users, event.key).count != WORD - 1 {
      DecisionAgrees(setup, sim, s, t, event, pressure);
      if WithinWord(setup, s, event) {
        MoveTogether(setup, sim, s, t, event, pressure, wall);
      } else {
        Differ(o.0, p.0);
      }
    } else {
      BothRejectOrDiffer(o.0, p.0);
    }
  }

  lemma Differ(o: Outcome, p: SimOutcome)
    requires o.Processed? && p.Returned? && o.published != p.published
    ensures !SameOutcome(o, p)
  {
  }

  lemma BothRejectOrDiffer(o: Outcome, p: SimOutcome)
    requires o.Rejected?
    ensures SameOutcome(o, p) <==> p.Raised?
  {
  }

  lemma AnswersAgree(setup: Setup, sim: SimSetup, s: State, t: SimState, id: nat, key: Word, ts: Word)
    requires Paired(setup, sim) && Agree(s, t)
    ensures AnswerOf(setup, s, id, key, ts) == SimAnswer(sim, t, id, key, ts)
    ensures Agree(Query(s, key), SimQuery(t, key))
  {
    hide SquaredError;
    assert KeyAgrees(s, t, key);
    forall k: Word ensures KeyAgrees(Query(s, key), SimQuery(t, key), k) { assert KeyAgrees(s, t, k); }
  }

  // ---- Every run ----

  function SimStep(setup: SimSetup, t: SimState, op: Op): SimState {
    match op
    case Ingest(event, pressure, wall) => SimProcess(setup, t, event, pressure, wall).1
    case Ask(key) => SimQuery(t, key)
  }

  function SimRun(setup: SimSetup, ops: seq<Op>): SimState {
    if |ops| == 0 then EMPTY_SIM else SimStep(setup, SimRun(setup, ops[..|ops| - 1]), ops[|ops| - 1])
  }

  // No event the simulator took so far met a 64-bit limit.
  ghost predicate NoLimitMet(setup: Setup, sim: SimSetup, ops: seq<Op>) {
    forall i | 0 <= i < |ops| && ops[i].Ingest? :: Fits(setup, sim, ops[..i], ops[i])
  }

  predicate Fits(setup: Setup, sim: SimSetup, before: seq<Op>, op: Op)
    requires op.Ingest?
  {
    Accepts(sim, SimRun(sim, before), op.event) ==> WithinWord(setup, Run(setup, before), op.event)
  }

  // The two returned the same on every event so far.
  ghost predicate OutcomesAgree(setup: Setup, sim: SimSetup, ops: seq<Op>) {
    forall i | 0 <= i < |ops| && ops[i].Ingest? :: SameNext(setup, sim, ops[..i], ops[i])
  }

  predicate SameNext(setup: Setup, sim: SimSetup, before: seq<Op>, op: Op)
    requires op.Ingest?
  {
    SameOutcome(Process(setup, Run(setup, before), op.event, op.pressure, op.wall).0,
                SimProcess(sim, SimRun(sim, before), op.event, op.pressure, op.wall).0)
  }

  lemma LastEvent(setup: Setup, sim: SimSetup, before: seq<Op>, op: Op)
    ensures NoLimitMet(setup, sim, before + [op])
       <==> NoLimitMet(setup, sim, before) && (op.Ingest? ==> Fits(setup, sim, before, op))
    ensures OutcomesAgree(setup, sim, before + [op])
       <==> OutcomesAgree(setup, sim, before) && (op.Ingest? ==> SameNext(setup, sim, before, op))
  {
    hide Fits, SameNext;
    var ops := before + [op];
    assert ops[..|before|] == before && ops[|before|] == op;
    assert forall i | 0 <= i < |before| :: ops[..i] == before[..i] && ops[i] == before[i];
    if NoLimitMet(setup, sim, ops) {
      forall i | 0 <= i < |before| && before[i].Ingest? ensures Fits(setup, sim, before[..i], before[i]) {
        assert Fits(setup, sim, ops[..i], ops[i]);
      }
    }
    if OutcomesAgree(setup, sim, ops) {
      forall i | 0 <= i < |before| && before[i].Ingest? ensures SameNext(setup, sim, before[..i], before[i]) {
        assert SameNext(setup, sim, ops[..i], ops[i]);
      }
    }
  }

  // Under the same gain, events and pressures the two implementations return the same on every event of
  // a run exactly when no event the simulator takes meets a limit; they then reach the same cache, the
  // same accounting and the same per-key records.
  lemma {:induction false} Lockstep(setup: Setup, sim: SimSetup, ops: seq<Op>)
    requires Paired(setup, sim)
    ensures OutcomesAgree(setup, sim, ops) <==> NoLimitMet(setup, sim, ops)
    ensures NoLimitMet(setup, sim, ops) ==> Agree(Run(setup, ops), SimRun(sim, ops))
  {
    hide Agree, Paired, StepOp, SimStep, Fits, SameNext, OutcomesAgree, NoLimitMet;
    if |ops| == 0 {
      EmptyAgree(Run(setup, ops), SimRun(sim, ops));
      NothingMet(setup, sim, ops);
    } else {
      var before, op := ops[..|ops| - 1], ops[|ops| - 1];
      assert ops == before + [op];
      LastEvent(setup, sim, before, op);
      Lockstep(setup, sim, before);
      if NoLimitMet(setup, sim, before) { StepLockstep(setup, sim, before, op); }
    }
  }

  lemma StepLockstep(setup: Setup, sim: SimSetup, before: seq<Op>, op: Op)
    requires Paired(setup, sim) && Agree(Run(setup, before), SimRun(sim, before))
    ensures op.Ingest? ==> (SameNext(setup, sim, before, op) <==> Fits(setup, sim, before, op))
    ensures (op.Ingest? ==> Fits(setup, sim, before, op)) ==>
      Agree(StepOp(setup, Run(setup, before), op), SimStep(sim, SimRun(sim, before), op))
  {
    hide Agree, Process, SimProcess, Query, SimQuery, WithinWord, Refines, Run, SimRun, Admissible, CacheAdmits,
         Accepts, SameOutcome;
    var s, t := Run(setup, before), SimRun(sim, before);
    match op {
      case Ingest(event, pressure, wall) =>
        HistoryRefined(setup, before);
        CacheNeverThrows(setup, LogOf(setup, before), s, event, pressure, wall);
        IngestLockstep(setup, sim, s, t, event, pressure, wall);
      case Ask(key) =>
        AnswersAgree(setup, sim, s, t, 0, key, 0);
    }
  }

  // The wrapped sum shows in a run of two events: the second is published by the coordinator alone.
  lemma WrapAroundRunDiverges(setup: Setup, sim: SimSetup)
    requires Paired(setup, sim) && setup.policy == ElapsedThreshold(WORD - 1)
    ensures var first, second := RawEvent(0, 1, 7, 0, 0, 0), RawEvent(1, 2, 7, 0, 0, 0);
            !OutcomesAgree(setup, sim, [Ingest(first, 0.0, 0), Ingest(second, 0.0, 0)])
  {
    hide OutcomesAgree, NoLimitMet;
    var first, second := Ingest(RawEvent(0, 1, 7, 0, 0, 0), 0.0, 0), Ingest(RawEvent(1, 2, 7, 0, 0, 0), 0.0, 0);
    var before: seq<Op> := [first];
    assert before + [second] == [first, second];
    FirstPublished(setup, sim, before, first, second.event);
    LastEvent(setup, sim, before, second);
    Lockstep(setup, sim, [first, second]);
  }

  // After one event at time 1 its key has been published at that time, and time 2 is still admissible.
  lemma FirstPublished(setup: Setup, sim: SimSetup, before: seq<Op>, op: Op, next: RawEvent)
    requires Paired(setup, sim) && setup.policy == ElapsedThreshold(WORD - 1)
    requires before == [op] && op.Ingest? && op.event.behavior <= 3 && op.event.ts == 1
    requires next.key == op.event.key && next.ts == 2 && next.behavior <= 3
    ensures Accepts(sim, SimRun(sim, before), next) && !WithinWord(setup, Run(setup, before), next)
  {
    hide VectorOf, ExtractVector;
    assert before[..0] == [];
  }

  lemma NothingMet(setup: Setup, sim: SimSetup, ops: seq<Op>)
    requires |ops| == 0
    ensures OutcomesAgree(setup, sim, ops) && NoLimitMet(setup, sim, ops)
  {
  }

  lemma EmptyAgree(s: State, t: SimState)
    requires s == EMPTY && t == EMPTY_SIM
    ensures Agree(s, t)
  {
  }

  // Every query of every run is answered alike.
  lemma QueriesAgree(setup: Setup, sim: SimSetup, ops: seq<Op>, id: nat, key: Word, ts: Word)
    requires Paired(setup, sim) && NoLimitMet(setup, sim, ops)
    ensures AnswerOf(setup, Run(setup, ops), id, key, ts) == SimAnswer(sim, SimRun(sim, ops), id, key, ts)
  {
    hide Run, SimRun, Agree, NoLimitMet;
    Lockstep(setup, sim, ops);
    AnswersAgree(setup, sim, Run(setup, ops), SimRun(sim, ops), id, key, ts);
  }

  // What a caller can check beforehand: fewer than 2^64 operations, and no event time that overflows
  // with the threshold added.
  predicate InputsFit(setup: Setup, ops: seq<Op>) {
    && |ops| < WORD
    && (setup.policy.ElapsedThreshold? ==>
          forall i | 0 <= i < |ops| && ops[i].Ingest? :: ops[i].event.ts + setup.policy.threshold < WORD)
  }

  predicate LogFits(setup: Setup, log: Log) {
    setup.policy.ElapsedThreshold? ==> forall i | 0 <= i < |log| :: log[i].event.ts + setup.policy.threshold < WORD
  }

  lemma {:induction false} LogStaysFit(setup: Setup, ops: seq<Op>)
    requires ValidSetup(setup) && InputsFit(setup, ops)
    ensures LogFits(setup, LogOf(setup, ops)) && |LogOf(setup, ops)| <= |ops|
  {
    hide Logged, Refines, StepOp, Run;
    if |ops| > 0 {
      var before, op := ops[..|ops| - 1], ops[|ops| - 1];
      LogStaysFit(setup, before);
      LoggedIsEvent(setup, Run(setup, before), op);
    }
  }

  lemma LoggedIsEvent(setup: Setup, s: State, op: Op)
    ensures |Logged(setup, s, op)| <= 1
    ensures |Logged(setup, s, op)| == 1 ==> op.Ingest? && Logged(setup, s, op)[0].event == op.event
  {
    hide Process, ExtractVector;
  }

  lemma FittingInputsMeetNoLimit(setup: Setup, sim: SimSetup, ops: seq<Op>)
    requires ValidSetup(setup) && InputsFit(setup, ops)
    ensures NoLimitMet(setup, sim, ops)
  {
    hide Run, LogOf, WithinWord, Accepts;
    forall i | 0 <= i < |ops| && ops[i].Ingest? ensures Fits(setup, sim, ops[..i], ops[i]) {
      LogStaysFit(setup, ops[..i]);
      HistoryRefined(setup, ops[..i]);
      FitLogIsWithin(setup, LogOf(setup, ops[..i]), Run(setup, ops[..i]), ops[i].event);
    }
  }

  lemma FitLogIsWithin(setup: Setup, log: Log, s: State, event: RawEvent)
    requires Refines(setup, log, s) && LogFits(setup, log) && |log| < WORD - 1
    ensures WithinWord(setup, s, event)
  {
    hide LastUpdate, LastPublication, Updates, Publications, Since, UsersAfter, VectorsRight, AllPublished;
    assert KeyRefines(log, s, event.key);
    UpdatesFewer(log, event.key);
  }

  lemma UpdatesFewer(log: Log, k: Word)
    ensures |Updates(log, k)| <= |log|
  {
    SubsetSize(Updates(log, k), Below(|log|));
  }
}
