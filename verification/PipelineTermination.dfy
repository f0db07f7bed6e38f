// Under any fair schedule, aborts included, all three workers join within a number of rounds linear in
// the number of events; without aborts the run fails exactly when the source is not well-formed.
module PipelineTermination {
  import opened Bits
  import opened Options
  import opened Controllers
  import opened Features
  import opened Pipeline
  import opened PipelineInvariant
  import opened PipelineSource
  import opened PipelineSafety
  import opened PipelineTheorems
  import opened PipelineProgress
  import opened PipelineExit
  import opened Checker
  import opened CheckerCompleteness
  import opened Sets

  predicate IsAbort(a: Action) { a.AbortSource? || a.AbortBatcher? || a.AbortScorer? }

  predicate NoAborts(schedule: seq<Action>) { forall a | a in schedule :: !IsAbort(a) }

  function Concat(rounds: seq<seq<Action>>): seq<Action> {
    if |rounds| == 0 then [] else Concat(rounds[..|rounds| - 1]) + Last(rounds)
  }

  lemma {:induction false} RunConcat(env: Env, s: State, a: seq<Action>, b: seq<Action>)
    ensures Run(env, s, a + b) == Run(env, Run(env, s, a), b)
  {
    hide Step;
    if |b| == 0 {
      assert a + b == a;
    } else {
      var c := b[..|b| - 1];
      assert (a + b)[..|a + b| - 1] == a + c;
      RunConcat(env, s, a, c);
    }
  }

  lemma {:induction false} InvariantAfter(env: Env, s: State, schedule: seq<Action>)
    requires Invariant(env, s)
    ensures Invariant(env, Run(env, s, schedule))
  {
    hide Invariant, Step;
    if |schedule| > 0 {
      InvariantAfter(env, s, schedule[..|schedule| - 1]);
      StepInvariant(env, Run(env, s, schedule[..|schedule| - 1]), Last(schedule));
    }
  }

  // Cancellation and completion are final.
  lemma StepFinal(env: Env, s: State, a: Action)
    requires s.failed == s.cancelled
    ensures s.cancelled ==> Step(env, s, a).cancelled
    ensures Joined(s) ==> Joined(Step(env, s, a))
  {
    hide SourceStep, BatcherStep, ScorerStep;
    SourceLeaves(env, s);
    BatcherStepMoves(env, s);
    ScorerLeaves(env, s);
    DoneStays(env, s);
  }

  lemma StepAdvances(env: Env, s: State, a: Action)
    requires Invariant(env, s) && !s.cancelled && !Joined(s) && !IsAbort(a)
    ensures Advances(env, s, Step(env, s, a), a)
  {
    hide Invariant, SourceStep, BatcherStep, ScorerStep, Advances;
    match a {
      case RunSource => SourceAdvances(env, s);
      case RunBatcher => BatcherAdvances(env, s);
      case RunScorer => ScorerAdvances(env, s);
      case _ => TickAdvances(env, s, a);
    }
  }

  // The clock is in no measure.
  lemma ClockFree(env: Env, s: State, clock: nat)
    ensures Work(env, s.(clock := clock)) == Work(env, s)
  {
    hide SourceRank, BatcherRank, ScorerRank;
    ClockFreeRanks(s, clock);
  }

  lemma ClockFreeRanks(s: State, clock: nat)
    ensures SourceRank(s.(clock := clock)) == SourceRank(s)
    ensures BatcherRank(s.(clock := clock)) == BatcherRank(s)
    ensures ScorerRank(s.(clock := clock)) == ScorerRank(s)
  {
    hide PushRank, PopRank, SizeRank;
  }

  lemma ClockFreeDistance(s: State, clock: nat)
    ensures Helper(s.(clock := clock)) == Helper(s) && !Helper(s).Tick?
    ensures Distance(s.(clock := clock)) == Distance(s)
  {
    hide PushDistance, PopDistance, CheckDistance, Polls;
  }

  lemma TickAdvances(env: Env, s: State, a: Action)
    requires a.Tick?
    ensures Advances(env, s, Step(env, s, a), a)
  {
    hide SourceStep, BatcherStep, ScorerStep, Joined, Work, Distance, Helper;
    ClockFree(env, s, Step(env, s, a).clock);
    ClockFreeDistance(s, Step(env, s, a).clock);
  }

  predicate Ended(s: State) { s.cancelled || Joined(s) }

  // Part of a round either makes progress or leaves the same helper still to be scheduled.
  lemma {:induction false} PartialRound(env: Env, s: State, round: seq<Action>)
    requires Invariant(env, s) && !Ended(s)
    ensures var s' := Run(env, s, round);
            || Ended(s') || Rank(env, s') < Rank(env, s)
            || (Rank(env, s') == Rank(env, s) && Helper(s') == Helper(s) && Helper(s) !in round)
  {
    hide Invariant, Step, Rank, Helper, Joined;
    if |round| > 0 {
      var before, a := round[..|round| - 1], Last(round);
      assert round == before + [a];
      PartialRound(env, s, before);
      InvariantAfter(env, s, before);
      var m := Run(env, s, before);
      ScorerFacts(env, m);
      if Ended(m) {
        StepFinal(env, m, a);
      } else if IsAbort(a) {
        AbortEnds(env, m, a);
      } else {
        StepAdvances(env, m, a);
      }
    }
  }

  // An abort cancels the run, unless its worker is already done.
  lemma AbortEnds(env: Env, s: State, a: Action)
    requires IsAbort(a)
    ensures Step(env, s, a).cancelled || Step(env, s, a) == s
    ensures a != Helper(s)
  {
  }

  lemma FairRound(env: Env, s: State, round: seq<Action>)
    requires Invariant(env, s) && Fair(round) && !Ended(s)
    ensures Ended(Run(env, s, round)) || Rank(env, Run(env, s, round)) < Rank(env, s)
  {
    hide Invariant, Rank, Run;
    PartialRound(env, s, round);
  }

  lemma {:induction false} EndedAfter(env: Env, s: State, schedule: seq<Action>)
    requires Invariant(env, s) && Ended(s)
    ensures Ended(Run(env, s, schedule))
  {
    hide Invariant, Step, Joined;
    if |schedule| > 0 {
      var before := schedule[..|schedule| - 1];
      EndedAfter(env, s, before);
      InvariantAfter(env, s, before);
      ScorerFacts(env, Run(env, s, before));
      StepFinal(env, Run(env, s, before), Last(schedule));
    }
  }

  lemma {:induction false} FairRounds(env: Env, s: State, rounds: seq<seq<Action>>)
    requires Invariant(env, s) && forall r | r in rounds :: Fair(r)
    ensures Ended(Run(env, s, Concat(rounds))) || Rank(env, Run(env, s, Concat(rounds))) + |rounds| <= Rank(env, s)
  {
    hide Invariant, Rank, Fair, Ended;
    if |rounds| > 0 {
      var before, round := rounds[..|rounds| - 1], Last(rounds);
      FairRounds(env, s, before);
      RunConcat(env, s, Concat(before), round);
      var m := Run(env, s, Concat(before));
      InvariantAfter(env, s, Concat(before));
      if Ended(m) {
        EndedAfter(env, m, round);
      } else {
        FairRound(env, m, round);
      }
    }
  }

  // Rounds after which every run is cancelled or joined.
  function RoundsToEnd(n: nat): nat { 576 * n + 199 }

  lemma FairRunsEnd(env: Env, started: Word, rounds: seq<seq<Action>>)
    requires Valid(env.config) && (forall r | r in rounds :: Fair(r)) && |rounds| >= RoundsToEnd(|env.events|)
    ensures Ended(Run(env, Init(env, started), Concat(rounds)))
  {
    hide Invariant, Valid, Fair, Ended, Run, Concat;
    var s := Init(env, started);
    InitInvariant(env, started);
    FairRounds(env, s, rounds);
    InitialRank(env, started);
    InvariantAfter(env, s, Concat(rounds));
    RankIsNatural(env, Run(env, s, Concat(rounds)));
  }

  // ---- Every worker joins ----

  predicate Left(rank: nat, rounds: nat) { rank + rounds <= EXIT_ROUNDS || rank == 0 }

  lemma {:induction false} ExitRounds(env: Env, s: State, rounds: seq<seq<Action>>)
    requires Invariant(env, s) && s.cancelled && forall r | r in rounds :: Fair(r)
    ensures var s' := Run(env, s, Concat(rounds));
            && Invariant(env, s') && s'.cancelled
            && Left(SourceExit(s'), |rounds|) && Left(BatcherExit(s'), |rounds|) && Left(ScorerExit(s'), |rounds|)
  {
    hide Invariant, SourceExit, BatcherExit, ScorerExit, Joined, Run;
    if |rounds| > 0 {
      var before, round := rounds[..|rounds| - 1], Last(rounds);
      ExitRounds(env, s, before);
      RunConcat(env, s, Concat(before), round);
      assert Fair(round);
      PartialExit(env, Run(env, s, Concat(before)), round);
    } else {
      NothingRun(env, s, Concat(rounds));
      ExitBounds(s);
    }
  }

  lemma NothingRun(env: Env, s: State, schedule: seq<Action>)
    requires |schedule| == 0
    ensures Run(env, s, schedule) == s
  {
  }

  // Cancellation works: from any state of any run, once cancelled, a constant number of fair rounds gets
  // all three workers out of their loops, however many events are left.
  lemma CancelledRunJoins(env: Env, s: State, rounds: seq<seq<Action>>)
    requires Invariant(env, s) && s.cancelled && (forall r | r in rounds :: Fair(r)) && |rounds| >= EXIT_ROUNDS
    ensures Joined(Run(env, s, Concat(rounds)))
  {
    hide Invariant, Joined, Run, SourceExit, BatcherExit, ScorerExit;
    ExitRounds(env, s, rounds);
    ExitBounds(Run(env, s, Concat(rounds)));
  }

  lemma {:induction false} ConcatAppend(a: seq<seq<Action>>, b: seq<seq<Action>>)
    ensures Concat(a + b) == Concat(a) + Concat(b)
  {
    if |b| == 0 {
      assert a + b == a;
    } else {
      assert (a + b)[..|a + b| - 1] == a + b[..|b| - 1];
      ConcatAppend(a, b[..|b| - 1]);
    }
  }

  function RoundsNeeded(n: nat): nat { RoundsToEnd(n) + EXIT_ROUNDS }

  // No deadlock and no livelock: every fair schedule, with any aborts, ends with all workers joined.
  lemma FairRunsJoin(env: Env, started: Word, rounds: seq<seq<Action>>)
    requires Valid(env.config) && (forall r | r in rounds :: Fair(r)) && |rounds| >= RoundsNeeded(|env.events|)
    ensures Joined(Run(env, Init(env, started), Concat(rounds)))
  {
    hide Invariant, Valid, Fair, Run, Concat, Joined;
    var k := RoundsToEnd(|env.events|);
    var first, rest := rounds[..k], rounds[k..];
    assert rounds == first + rest;
    ConcatAppend(first, rest);
    var m := Run(env, Init(env, started), Concat(first));
    RunConcat(env, Init(env, started), Concat(first), Concat(rest));
    FairRunsEnd(env, started, first);
    RunInvariant(env, started, Concat(first));
    if m.cancelled {
      CancelledRunJoins(env, m, rest);
    } else {
      JoinedStays(env, m, Concat(rest));
    }
  }

  lemma {:induction false} JoinedStays(env: Env, s: State, schedule: seq<Action>)
    requires Joined(s)
    ensures Joined(Run(env, s, schedule))
  {
    hide Joined, SourceStep, BatcherStep, ScorerStep;
    if |schedule| > 0 {
      JoinedStays(env, s, schedule[..|schedule| - 1]);
      JoinedStep(env, Run(env, s, schedule[..|schedule| - 1]), Last(schedule));
    }
  }

  lemma JoinedStep(env: Env, s: State, a: Action)
    requires Joined(s)
    ensures Joined(Step(env, s, a))
  {
    hide SourceStep, BatcherStep, ScorerStep;
    DoneStays(env, s);
  }

  lemma InitialRank(env: Env, started: nat)
    requires Valid(env.config)
    ensures Rank(env, Init(env, started)) == 576 * |env.events| + 198
  {
    hide And;
  }

  lemma RankIsNatural(env: Env, s: State)
    requires Invariant(env, s)
    ensures Rank(env, s) >= 0
  {
    hide Invariant, Work, Distance;
    WorkIsNatural(env, s);
  }

  // ---- Total correctness on a well-formed source ----

  function KeysOf(events: seq<RawEvent>): set<Word> { set e | e in events :: e.key }

  // Strictly increasing identifiers, non-decreasing times, known behaviors, within the key budget.
  predicate GoodSource(env: Env) {
    && (forall i | 0 < i < |env.events| ::
          env.events[i - 1].seqno < env.events[i].seqno && env.events[i - 1].ts <= env.events[i].ts)
    && (forall e | e in env.events :: e.behavior <= 3)
    && |KeysOf(env.events)| <= env.config.maxKeys
    && |env.events| < WORD
  }

  // Feature state mentions only keys already seen, at times and counts bounded by the history.
  ghost predicate UsersBounded(events: seq<RawEvent>, users: Users, n: nat)
    requires n <= |events|
  {
    forall k | k in users :: k in KeysOf(events) && users[k].count <= n && n > 0 && users[k].last <= events[n - 1].ts
  }

  lemma {:induction false} UsersStayBounded(env: Env, started: nat, xs: seq<Snapshot>)
    requires GoodHistory(env, started, xs) && GoodSource(env)
    ensures |xs| <= |env.events| && UsersBounded(env.events, UsersAfter(xs), |xs|)
  {
    hide Admissible, ExtractVector, NextAlpha, EmaStep, AlphaAfter;
    if |xs| > 0 {
      var n := |xs| - 1;
      UsersStayBounded(env, started, xs[..n]);
      assert Last(xs).event == env.events[n] && env.events[n] in env.events;
      assert n > 0 ==> !Regresses(Some(env.events[n - 1]), env.events[n]);
    }
  }

  lemma NextAdmissible(env: Env, s: State)
    requires Invariant(env, s) && GoodSource(env) && s.source.pc == SLoaded
    ensures s.source.previous.Some?
         && Admissible(s.source.users, env.config.maxKeys, s.source.previous.value,
                       NextAlpha(env.config, s.source.alpha, s.source.observed))
  {
    hide Spsc.Inv, GoodHistory, BatcherInv, ScorerInv, NextAlpha, UsersAfter, AlphaAfter, Valid, SourceEndpoint,
         UsesRight;
    ObservedFraction(env, s);
    var made := s.source.made;
    var n := |made|;
    UsersStayBounded(env, s.started, made);
    AlphaValid(env.config, made, s.source.observed);
    var e, users := env.events[n], s.source.users;
    assert e in env.events;
    assert n > 0 ==> !Regresses(Some(env.events[n - 1]), env.events[n]);
    if e.key !in users {
      StrictSubsetSize(users.Keys, KeysOf(env.events), e.key);
    }
  }

  lemma AlphaValid(c: Config, made: seq<Snapshot>, used: Observation)
    requires Valid(c)
    ensures 0.0 < NextAlpha(c, AlphaAfter(c, made), used) <= 1.0
  {
    hide And, AlphaAfter;
    AlphaInRange(c, made);
  }

  // There is always a record generation left for a source of fewer than 2^64 events.
  lemma GenerationsLeft(env: Env, s: State)
    requires Invariant(env, s) && GoodSource(env) && s.batcher.pc == BStore
    ensures |s.batcher.starts| != WORD - 1
  {
    hide Valid, Spsc.Inv, SourceData, Feedback, TraceData, ScorerInv, Flat, ControlAfter, SourceEndpoint,
         ControlRight, FullButTail, GoodSource;
    var b := Begun(s);
    forall j | 0 <= j < |b| ensures |b[j].items| > 0 {
      assert BatchRight(env.config, s.batcher.starts, b[j], j);
    }
    NoMoreBatchesThanEvents(b);
    WorkIsNatural(env, s);
    assert |Flat(b) + InHand(s)| == s.features.popped;
    assert |env.events| < WORD by { ShortSource(env); }
  }

  lemma ShortSource(env: Env)
    requires GoodSource(env)
    ensures |env.events| < WORD
  {
  }

  lemma {:induction false} GoodSourceNeverFails(env: Env, started: nat, schedule: seq<Action>)
    requires Valid(env.config) && GoodSource(env) && NoAborts(schedule)
    ensures !Run(env, Init(env, started), schedule).failed
  {
    hide Valid, Invariant, GoodSource, Step, Admissible, NextAlpha;
    if |schedule| > 0 {
      var before, a := schedule[..|schedule| - 1], Last(schedule);
      assert schedule == before + [a];
      GoodSourceNeverFails(env, started, before);
      RunInvariant(env, started, before);
      StepNeverFails(env, Run(env, Init(env, started), before), a);
    }
  }

  lemma StepNeverFails(env: Env, s: State, a: Action)
    requires Invariant(env, s) && GoodSource(env) && !s.failed && !IsAbort(a)
    ensures !Step(env, s, a).failed
  {
    hide Invariant, SourceStep, BatcherStep, ScorerStep, Admissible, NextAlpha;
    if !a.Tick? {
      StepFailsExactlyWhen(env, s, a);
      if a == RunSource && s.source.pc == SNext {
        if s.source.index < |env.events| {
          PreviousEvent(env, s);
        }
      } else if a == RunSource && s.source.pc == SLoaded {
        NextAdmissible(env, s);
      } else if a == RunBatcher && s.batcher.pc == BStore {
        GenerationsLeft(env, s);
      }
    }
  }

  lemma PreviousEvent(env: Env, s: State)
    requires Invariant(env, s) && GoodSource(env) && s.source.pc == SNext && s.source.index < |env.events|
    ensures !Regresses(s.source.previous, env.events[s.source.index])
  {
    hide Valid, Spsc.Inv, SourceData, SourceEndpoint, BatcherInv, ScorerInv;
  }

  // Whatever the interleaving, a well-formed source under a fair schedule without aborts is fully processed: the
  // workers join without an error, every event is written exactly once in order, the engine's
  // conservation check holds and the independent checker accepts the trace.
  lemma GoodSourceCompletes(env: Env, started: Word, rounds: seq<seq<Action>>)
    requires Valid(env.config) && GoodSource(env)
    requires (forall r | r in rounds :: Fair(r)) && NoAborts(Concat(rounds)) && |rounds| >= RoundsNeeded(|env.events|)
    ensures var s := Run(env, Init(env, started), Concat(rounds));
            && Joined(s) && !s.failed && Conserved(s) && Accepts(AttemptOf(env, s))
            && |s.scorer.rows| == |env.events|
            && forall i | 0 <= i < |env.events| :: s.scorer.rows[i].event == env.events[i]
  {
    hide Valid, GoodSource, Run, Invariant, Accepts, Conserved, Joined, Fair;
    FairRunsJoin(env, started, rounds);
    GoodSourceNeverFails(env, started, Concat(rounds));
    RunInvariant(env, started, Concat(rounds));
    ScorerFacts(env, Run(env, Init(env, started), Concat(rounds)));
    CleanRunIsAccepted(env, started, Concat(rounds));
    ExactlyOnce(env, started, Concat(rounds));
  }

  // ---- Exactly the well-formed sources complete ----

  // What a complete history says about the first events of the source.
  ghost predicate Admitted(env: Env, xs: seq<Snapshot>)
    requires |xs| <= |env.events|
  {
    var n, users := |xs|, UsersAfter(xs);
    && (forall i | 0 < i < n :: !Regresses(Some(env.events[i - 1]), env.events[i]))
    && (forall i | 0 <= i < n :: env.events[i].behavior <= 3 && env.events[i].key in users)
    && |users| <= env.config.maxKeys
  }

  lemma {:induction false} HistoryAdmits(env: Env, started: nat, xs: seq<Snapshot>)
    requires GoodHistory(env, started, xs)
    ensures |xs| <= |env.events| && Admitted(env, xs)
  {
    hide ExtractVector, NextAlpha, Advance, AlphaAfter;
    if |xs| > 0 {
      hide Admitted, Follows, UsersAfter;
      var before := xs[..|xs| - 1];
      assert xs == before + [Last(xs)];
      HistoryAdmits(env, started, before);
      LastEvent(env, started, xs);
      if |before| > 0 { LastEvent(env, started, before); }
      NextAdmits(env, started, before, Last(xs));
    }
  }

  lemma NextAdmits(env: Env, started: nat, before: seq<Snapshot>, m: Snapshot)
    requires |before| < |env.events| && Admitted(env, before) && Follows(env, started, before, m)
    requires |before| > 0 ==> Last(before).event == env.events[|before| - 1]
    ensures Admitted(env, before + [m])
  {
    hide ExtractVector, NextAlpha, Advance, AlphaAfter;
    var users, after := UsersAfter(before), UsersAfter(before + [m]);
    assert (before + [m])[..|before|] == before;
    assert after.Keys == users.Keys + {m.event.key};
  }

  // A run that joins without an error proves its source well-formed.
  lemma CleanRunMeansGoodSource(env: Env, started: nat, schedule: seq<Action>)
    requires Valid(env.config) && |env.events| < WORD
    ensures var s := Run(env, Init(env, started), schedule); Joined(s) && !s.failed ==> GoodSource(env)
  {
    hide Valid, Invariant, Run, Joined, Clean, Admitted;
    var s := Run(env, Init(env, started), schedule);
    RunInvariant(env, started, schedule);
    if Joined(s) && !s.failed {
      CleanFacts(env, s);
      CleanHistory(env, s);
      HistoryAdmits(env, s.started, s.source.made);
      AdmittedIsGood(env, s.source.made);
    }
  }

  lemma CleanHistory(env: Env, s: State)
    requires Clean(env, s)
    ensures GoodHistory(env, s.started, s.source.made) && |s.source.made| == |env.events|
  {
    hide GoodHistory, UsesRight, StartsRight, BatchesRight, ScorerData, Flat, RowOf;
  }

  lemma AdmittedIsGood(env: Env, xs: seq<Snapshot>)
    requires |xs| == |env.events| < WORD && Admitted(env, xs)
    ensures GoodSource(env)
  {
    hide UsersAfter;
    SubsetSize(KeysOf(env.events), UsersAfter(xs).Keys);
  }

  // Under fair scheduling without aborts every run on fewer than 2^64 events joins, and it fails exactly
  // when the source is not well-formed: identifiers increase, times do not decrease, behaviors are known
  // and the keys fit the budget.
  lemma CompletesExactlyWhenGood(env: Env, started: Word, rounds: seq<seq<Action>>)
    requires Valid(env.config) && |env.events| < WORD
    requires (forall r | r in rounds :: Fair(r)) && NoAborts(Concat(rounds)) && |rounds| >= RoundsNeeded(|env.events|)
    ensures var s := Run(env, Init(env, started), Concat(rounds)); Joined(s) && (s.failed <==> !GoodSource(env))
  {
    hide Valid, GoodSource, Run, Joined, Fair, NoAborts;
    FairRunsJoin(env, started, rounds);
    CleanRunMeansGoodSource(env, started, Concat(rounds));
    if GoodSource(env) {
      GoodSourceNeverFails(env, started, Concat(rounds));
    }
  }
}
