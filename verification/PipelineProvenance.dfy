// Where stamps and retry counts come from: the steps of the run that set them.
module PipelineProvenance {
  import opened Bits
  import opened Features
  import opened Controllers
  import opened Pipeline
  import opened PipelineSafety
  import opened PipelineTheorems

  // ---- Stamps of a snapshot ----

  function Before(env: Env, s: State, schedule: seq<Action>, t: nat): State
    requires t <= |schedule|
  {
    Run(env, s, schedule[..t])
  }

  // Step t of the schedule is the source worker's, at the given point.
  predicate SourceAt(env: Env, s: State, schedule: seq<Action>, t: nat, pc: SourcePc) {
    t < |schedule| && schedule[t] == RunSource && Before(env, s, schedule, t).source.pc == pc
  }

  // Step t reads the clock for the creation time; step u loads the record; step v extracts event n.
  predicate CreatedAt(env: Env, s: State, schedule: seq<Action>, t: nat, created: nat) {
    SourceAt(env, s, schedule, t, SCreated) && Before(env, s, schedule, t).clock == created
  }

  predicate ObservedAt(env: Env, s: State, schedule: seq<Action>, u: nat, used: Observation) {
    SourceAt(env, s, schedule, u, SObserve) && Before(env, s, schedule, u).signal == used
  }

  predicate ExtractedAt(env: Env, s: State, schedule: seq<Action>, v: nat, loaded: nat, n: nat) {
    SourceAt(env, s, schedule, v, SLoaded) && Before(env, s, schedule, v).clock == loaded
    && |Before(env, s, schedule, v).source.made| == n
  }

  ghost predicate Traced(env: Env, s: State, schedule: seq<Action>, m: Snapshot, n: nat) {
    exists t: nat, u: nat, v: nat ::
      t < u < v && CreatedAt(env, s, schedule, t, m.created) && ObservedAt(env, s, schedule, u, m.used)
      && ExtractedAt(env, s, schedule, v, m.loaded, n)
  }

  // What the worker holds in hand is likewise traced.
  ghost predicate HandTraced(env: Env, s: State, schedule: seq<Action>, w: Source) {
    && (w.pc == SObserve ==> exists t: nat :: CreatedAt(env, s, schedule, t, w.created))
    && (w.pc == SLoaded ==> exists t: nat, u: nat ::
          t < u && CreatedAt(env, s, schedule, t, w.created) && ObservedAt(env, s, schedule, u, w.observed))
  }

  lemma Earlier(env: Env, s: State, schedule: seq<Action>, a: Action, t: nat)
    requires t <= |schedule|
    ensures Before(env, s, schedule + [a], t) == Before(env, s, schedule, t)
  {
    assert (schedule + [a])[..t] == schedule[..t];
  }

  lemma CreatedStays(env: Env, s: State, schedule: seq<Action>, a: Action, t: nat, created: nat)
    requires CreatedAt(env, s, schedule, t, created)
    ensures CreatedAt(env, s, schedule + [a], t, created)
  {
    Earlier(env, s, schedule, a, t);
  }

  lemma ObservedStays(env: Env, s: State, schedule: seq<Action>, a: Action, u: nat, used: Observation)
    requires ObservedAt(env, s, schedule, u, used)
    ensures ObservedAt(env, s, schedule + [a], u, used)
  {
    Earlier(env, s, schedule, a, u);
  }

  lemma TracedStays(env: Env, s: State, schedule: seq<Action>, a: Action, m: Snapshot, n: nat)
    requires Traced(env, s, schedule, m, n)
    ensures Traced(env, s, schedule + [a], m, n)
  {
    hide CreatedAt, ObservedAt;
    var t: nat, u: nat, v: nat :| t < u < v && CreatedAt(env, s, schedule, t, m.created)
      && ObservedAt(env, s, schedule, u, m.used) && ExtractedAt(env, s, schedule, v, m.loaded, n);
    CreatedStays(env, s, schedule, a, t, m.created);
    ObservedStays(env, s, schedule, a, u, m.used);
    Earlier(env, s, schedule, a, v);
    assert ExtractedAt(env, s, schedule + [a], v, m.loaded, n);
  }

  // What one step does to the stamps.
  predicate StampsMove(s: State, s': State, a: Action) {
    var w, w' := s.source, s'.source;
    && (w'.pc == SObserve ==> w'.created == (if a == RunSource then s.clock else w.created)
                              && w.pc == (if a == RunSource then SCreated else SObserve))
    && (w'.pc == SLoaded ==> w'.created == w.created
                             && w'.observed == (if a == RunSource then s.signal else w.observed)
                             && w.pc == (if a == RunSource then SObserve else SLoaded))
    && (w'.made == w.made
        || (a == RunSource && w.pc == SLoaded && |w'.made| == |w.made| + 1 && w'.made[..|w.made|] == w.made
            && Last(w'.made).created == w.created && Last(w'.made).used == w.observed
            && Last(w'.made).loaded == s.clock))
  }

  lemma StepStamps(env: Env, s: State, a: Action)
    ensures StampsMove(s, Step(env, s, a), a)
  {
    hide BatcherStep, ScorerStep;
    match a {
      case RunSource => SourceStamps(env, s);
      case RunBatcher => BatcherStepMoves(env, s);
      case RunScorer => ScorerWords(env, s);
      case _ =>
    }
  }

  lemma SourceStamps(env: Env, s: State)
    ensures StampsMove(s, SourceStep(env, s), RunSource)
  {
    hide Admissible, ExtractVector, ExtractUsers, NextAlpha;
  }

  // Every snapshot of every run: its creation time was read first, then the record it used was the current
  // one, then it was extracted, each at its own step of the source worker.
  lemma {:induction false} SnapshotsTraced(env: Env, s: State, schedule: seq<Action>)
    requires s.source.pc == SCheck && |s.source.made| == 0
    ensures var w := Run(env, s, schedule).source;
            && HandTraced(env, s, schedule, w) && forall n | 0 <= n < |w.made| :: Traced(env, s, schedule, w.made[n], n)
  {
    hide Step, Traced, HandTraced;
    if |schedule| == 0 {
      NothingTraced(env, s, schedule);
    } else {
      var before, a := schedule[..|schedule| - 1], Last(schedule);
      assert schedule == before + [a];
      SnapshotsTraced(env, s, before);
      StepStamps(env, Run(env, s, before), a);
      StepTraced(env, s, before, a);
    }
  }

  lemma NothingTraced(env: Env, s: State, schedule: seq<Action>)
    requires s.source.pc == SCheck && |schedule| == 0
    ensures HandTraced(env, s, schedule, s.source)
  {
  }

  lemma StepTraced(env: Env, s: State, before: seq<Action>, a: Action)
    requires var r := Run(env, s, before);
             && StampsMove(r, Step(env, r, a), a) && HandTraced(env, s, before, r.source)
             && forall n | 0 <= n < |r.source.made| :: Traced(env, s, before, r.source.made[n], n)
    ensures var w := Step(env, Run(env, s, before), a).source;
            && HandTraced(env, s, before + [a], w)
            && forall n | 0 <= n < |w.made| :: Traced(env, s, before + [a], w.made[n], n)
  {
    hide Step, Traced, HandTraced, StampsMove;
    var r := Run(env, s, before);
    var w := Step(env, r, a).source;
    HandStep(env, s, before, a);
    MadeMoves(r, Step(env, r, a), a);
    forall n | 0 <= n < |w.made| ensures Traced(env, s, before + [a], w.made[n], n) {
      if n < |r.source.made| {
        assert w.made[n] == r.source.made[n];
        TracedStays(env, s, before, a, r.source.made[n], n);
      } else {
        NewTraced(env, s, before, a, w.made[n]);
      }
    }
  }

  lemma MadeMoves(s: State, s': State, a: Action)
    requires StampsMove(s, s', a)
    ensures |s.source.made| <= |s'.source.made| <= |s.source.made| + 1
    ensures forall n | 0 <= n < |s.source.made| :: s'.source.made[n] == s.source.made[n]
    ensures |s'.source.made| > |s.source.made| ==>
              var m := Last(s'.source.made);
              a == RunSource && s.source.pc == SLoaded && m.created == s.source.created && m.used == s.source.observed
              && m.loaded == s.clock
  {
    if s'.source.made != s.source.made {
      assert forall n | 0 <= n < |s.source.made| :: s'.source.made[..|s.source.made|][n] == s'.source.made[n];
    }
  }

  lemma NewTraced(env: Env, s: State, before: seq<Action>, a: Action, m: Snapshot)
    requires var r := Run(env, s, before);
             && HandTraced(env, s, before, r.source) && a == RunSource && r.source.pc == SLoaded
             && m.created == r.source.created && m.used == r.source.observed && m.loaded == r.clock
    ensures Traced(env, s, before + [a], m, |Run(env, s, before).source.made|)
  {
    hide CreatedAt, ObservedAt, Run;
    var t: nat, u: nat :| t < u && CreatedAt(env, s, before, t, m.created) && ObservedAt(env, s, before, u, m.used);
    CreatedStays(env, s, before, a, t, m.created);
    ObservedStays(env, s, before, a, u, m.used);
    ObservedBelow(env, s, before, u, m.used);
    Earlier(env, s, before, a, |before|);
    assert before[..|before|] == before;
    assert ExtractedAt(env, s, before + [a], |before|, m.loaded, |Run(env, s, before).source.made|);
  }

  lemma ObservedBelow(env: Env, s: State, schedule: seq<Action>, u: nat, used: Observation)
    requires ObservedAt(env, s, schedule, u, used)
    ensures u < |schedule|
  {
  }

  lemma CreatedBelow(env: Env, s: State, schedule: seq<Action>, t: nat, created: nat)
    requires CreatedAt(env, s, schedule, t, created)
    ensures t < |schedule|
  {
  }

  lemma HandStep(env: Env, s: State, before: seq<Action>, a: Action)
    requires var r := Run(env, s, before); StampsMove(r, Step(env, r, a), a) && HandTraced(env, s, before, r.source)
    ensures HandTraced(env, s, before + [a], Step(env, Run(env, s, before), a).source)
  {
    hide Step, Run, CreatedAt, ObservedAt;
    var r := Run(env, s, before);
    var w := Step(env, r, a).source;
    if w.pc == SObserve {
      if a == RunSource {
        CreatedNow(env, s, before);
      } else {
        var t: nat :| CreatedAt(env, s, before, t, w.created);
        CreatedStays(env, s, before, a, t, w.created);
      }
    } else if w.pc == SLoaded {
      if a == RunSource {
        var t: nat :| CreatedAt(env, s, before, t, w.created);
        CreatedStays(env, s, before, a, t, w.created);
        CreatedBelow(env, s, before, t, w.created);
        ObservedNow(env, s, before);
      } else {
        var t: nat, u: nat :| t < u && CreatedAt(env, s, before, t, w.created)
          && ObservedAt(env, s, before, u, w.observed);
        CreatedStays(env, s, before, a, t, w.created);
        ObservedStays(env, s, before, a, u, w.observed);
      }
    }
  }

  lemma CreatedNow(env: Env, s: State, before: seq<Action>)
    requires Run(env, s, before).source.pc == SCreated
    ensures CreatedAt(env, s, before + [RunSource], |before|, Run(env, s, before).clock)
  {
    hide Run;
    Earlier(env, s, before, RunSource, |before|);
    assert before[..|before|] == before;
  }

  lemma ObservedNow(env: Env, s: State, before: seq<Action>)
    requires Run(env, s, before).source.pc == SObserve
    ensures ObservedAt(env, s, before + [RunSource], |before|, Run(env, s, before).signal)
  {
    hide Run;
    Earlier(env, s, before, RunSource, |before|);
    assert before[..|before|] == before;
  }

  // ---- Retry counts ----

  predicate SourceRetries(s: State, a: Action) {
    a == RunSource && s.source.pc == SRetry && !s.cancelled && |s.source.made| > 0
  }

  predicate BatcherRetries(s: State, a: Action) { a == RunBatcher && s.batcher.pc == BRetry && !s.cancelled }

  // Blocked pushes tried again so far, worker by worker.
  function SourceBlocks(env: Env, s: State, schedule: seq<Action>): nat {
    if |schedule| == 0 then 0
    else
      var before, a := schedule[..|schedule| - 1], Last(schedule);
      SourceBlocks(env, s, before) + if SourceRetries(Run(env, s, before), a) then 1 else 0
  }

  function BatcherBlocks(env: Env, s: State, schedule: seq<Action>): nat {
    if |schedule| == 0 then 0
    else
      var before, a := schedule[..|schedule| - 1], Last(schedule);
      BatcherBlocks(env, s, before) + if BatcherRetries(Run(env, s, before), a) then 1 else 0
  }

  // The retry counters of every run are those numbers, in 64 bits.
  lemma {:induction false} RetriesCounted(env: Env, s: State, schedule: seq<Action>)
    requires s.source.retries == 0 && s.batcher.retries == 0
    ensures Run(env, s, schedule).source.retries == SourceBlocks(env, s, schedule) % WORD
    ensures Run(env, s, schedule).batcher.retries == BatcherBlocks(env, s, schedule) % WORD
  {
    hide Step, SourceRetries, BatcherRetries;
    if |schedule| > 0 {
      var before, a := schedule[..|schedule| - 1], Last(schedule);
      RetriesCounted(env, s, before);
      StepRetries(env, Run(env, s, before), a);
      OneMoreModulo(SourceBlocks(env, s, before));
      OneMoreModulo(BatcherBlocks(env, s, before));
    }
  }

  lemma OneMoreModulo(n: nat)
    ensures (n % WORD + 1) % WORD == (n + 1) % WORD
  {
  }

  lemma StepRetries(env: Env, s: State, a: Action)
    ensures Step(env, s, a).source.retries
         == if SourceRetries(s, a) then (s.source.retries + 1) % WORD else s.source.retries
    ensures Step(env, s, a).batcher.retries
         == if BatcherRetries(s, a) then (s.batcher.retries + 1) % WORD else s.batcher.retries
  {
    hide SourceStep, BatcherStep, ScorerStep;
    match a {
      case RunSource => SourceStepRetries(env, s);
      case RunBatcher =>
        BatcherStepMoves(env, s);
        BatcherStepRetries(env, s);
      case RunScorer => ScorerWords(env, s);
      case _ =>
    }
  }

  lemma SourceStepRetries(env: Env, s: State)
    ensures var s' := SourceStep(env, s);
            && s'.batcher == s.batcher
            && s'.source.retries
               == if SourceRetries(s, RunSource) then (s.source.retries + 1) % WORD else s.source.retries
  {
    hide Admissible, ExtractVector, ExtractUsers, NextAlpha;
  }

  lemma BatcherStepRetries(env: Env, s: State)
    ensures BatcherStep(env, s).batcher.retries
         == if BatcherRetries(s, RunBatcher) then (s.batcher.retries + 1) % WORD else s.batcher.retries
  {
    hide EmaStep, NextControl;
  }
}
