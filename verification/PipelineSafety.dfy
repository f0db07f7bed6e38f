// Every step of every worker keeps the whole invariant, so every state of every run has it.
module PipelineSafety {
  import opened Bits
  import opened Spsc
  import opened Controllers
  import opened Features
  import opened Pipeline
  import opened PipelineInvariant
  import opened PipelineSource
  import opened PipelineBatcher
  import opened PipelineScorer

  lemma SourceStepInvariant(env: Env, s: State)
    requires Invariant(env, s)
    ensures Invariant(env, SourceStep(env, s))
  {
    hide Valid, Spsc.Inv, SourceEndpoint, SourceCursor, SourceData, Feedback, BatcherEndpoint, BatcherCounters,
         BatcherData, TraceData, ScorerInv, Extract, Regresses;
    var s' := SourceStep(env, s);
    SourceFacts(env, s);
    SourceRing(env, s);
    SourceKeepsEndpoint(env, s);
    SourceKeepsCursor(env, s);
    SourceKeepsData(env, s);
    SourceLeaves(env, s);
    BatcherFrame(env, s, s');
    ScorerFrame(env, s, s');
  }

  lemma SourceFacts(env: Env, s: State)
    requires Valid(env.config) && env.config.batchSlots >= 2 && Feedback(env, s)
    ensures SignalRight(s) && s.started <= s.clock
  {
    hide Valid, EmaStep;
    FeedbackSignal(env, s);
  }

  lemma SourceLeaves(env: Env, s: State)
    ensures var s' := SourceStep(env, s);
            && s'.batcher == s.batcher && s'.scorer == s.scorer && s'.batches == s.batches && s'.signal == s.signal
            && s'.started == s.started && s'.clock == s.clock && (s.cancelled ==> s'.cancelled)
  {
    hide Admissible, ExtractVector, ExtractUsers, NextAlpha, ProducerStep;
  }

  lemma BatcherStepInvariant(env: Env, s: State)
    requires Invariant(env, s)
    ensures Invariant(env, BatcherStep(env, s))
  {
    hide Spsc.Inv, SourceEndpoint, SourceCursor, SourceData, SourceInv, Feedback, BatcherEndpoint, BatcherCounters,
         TraceData, ScorerInv, PopFeature, DrainFeatures, PushBatch, SampleOccupancy, StartBatch, BatchesRight,
         FullButTail, ControlRight, HandRight, EmaStep, BatcherStep;
    var s' := BatcherStep(env, s);
    BatcherFacts(env, s);
    BatcherRings(env, s);
    BatcherKeepsEndpoint(env, s);
    BatcherKeepsCounters(env, s);
    BatcherKeepsFeedback(env, s);
    BatcherKeepsBatches(env, s);
    BatcherKeepsFull(env, s);
    BatcherKeepsControl(env, s);
    BatcherKeepsHand(env, s);
    BatcherKeepsTrace(env, s);
    BatcherStepMoves(env, s);
    SourceFrame(env, s, s');
    ScorerFrame(env, s, s');
  }

  lemma BatcherFacts(env: Env, s: State)
    requires Invariant(env, s)
    ensures SourceEndpoint(s) && UsesRight(s.batcher.starts, s.source.made, s.clock) && s.failed == s.cancelled
    ensures Sampling(env.config, s.started, s.clock, s.signal, s.batcher)
    ensures Open(s) ==> |s.batcher.batch.items| <= s.batcher.batch.target
    ensures s.batcher.pc == BStart ==> NextControl(env.config, s.batcher.control, s.batcher.ema).current >= 1
  {
    hide Valid, Spsc.Inv, SourceEndpoint, UsesRight, Sampling, BatcherEndpoint, BatcherCounters, BatcherData,
         TraceData, StartsRight, ScorerInv, NextControl, History, Observing;
    OpenFits(env, s);
    StartTarget(env, s);
  }

  lemma OpenFits(env: Env, s: State)
    requires BatcherData(env, s)
    ensures Open(s) ==> |s.batcher.batch.items| <= s.batcher.batch.target
  {
    hide FullButTail, ControlRight, HandRight, ControlAfter;
    if Open(s) {
      var j := |Begun(s)| - 1;
      assert BatchRight(env.config, s.batcher.starts, Begun(s)[j], j);
    }
  }

  lemma StartTarget(env: Env, s: State)
    requires Valid(env.config) && env.config.batchSlots >= 2
    requires BatcherData(env, s) && Sampling(env.config, s.started, s.clock, s.signal, s.batcher)
    ensures s.batcher.pc == BStart ==> NextControl(env.config, s.batcher.control, s.batcher.ema).current >= 1
  {
    hide BatchesRight, FullButTail, HandRight, NextControl, EmaStep, Valid;
    if s.batcher.pc == BStart {
      TargetInRange(env.config, s.batcher.starts);
    }
  }

  // What any step of the batcher does to the rest of the state, and when its controllers move.
  predicate BatcherMoves(s: State, s': State) {
    && s'.source == s.source && s'.scorer == s.scorer && s'.started == s.started && s'.clock == s.clock
    && (s.cancelled ==> s'.cancelled) && (s.failed == s.cancelled ==> s'.failed == s'.cancelled)
    && s.batcher.starts <= s'.batcher.starts
    && (s'.batcher.retries < WORD || s'.batcher.retries == s.batcher.retries)
    && (s'.batcher.control == s.batcher.control || (s.batcher.pc == BStart && |s'.batcher.batch.items| == 1))
    && (s'.batcher.ema == s.batcher.ema || (s.batcher.pc == BOccupancy && s'.batcher.pc == BClock))
    && (s'.signal == s.signal || (s.batcher.pc == BStore && s'.batcher.pc == BStart))
  }

  lemma PopMoves(s: State)
    ensures BatcherMoves(s, PopFeature(s))
  {
    hide ConsumerStep;
  }

  lemma DrainMoves(s: State)
    ensures BatcherMoves(s, DrainFeatures(s))
  {
    hide ConsumerStep;
  }

  lemma SampleMoves(env: Env, s: State)
    requires s.batcher.pc == BOccupancy
    ensures BatcherMoves(s, SampleOccupancy(env, s))
  {
    hide ProducerStep, EmaStep;
  }

  lemma PushMoves(s: State)
    ensures BatcherMoves(s, PushBatch(s))
  {
    hide ProducerStep;
  }

  lemma StartMoves(env: Env, s: State)
    requires s.batcher.pc == BStart
    ensures BatcherMoves(s, StartBatch(env, s))
  {
    hide NextControl;
  }

  lemma BatcherStepMoves(env: Env, s: State)
    ensures BatcherMoves(s, BatcherStep(env, s))
  {
    hide PopFeature, DrainFeatures, SampleOccupancy, PushBatch, StartBatch;
    match s.batcher.pc {
      case BPop => PopMoves(s);
      case BDrain => DrainMoves(s);
      case BOccupancy => SampleMoves(env, s);
      case BPush => PushMoves(s);
      case BStart => StartMoves(env, s);
      case _ =>
    }
  }

  lemma ScorerStepInvariant(env: Env, s: State)
    requires Invariant(env, s)
    ensures Invariant(env, ScorerStep(env, s))
  {
    hide Valid, Spsc.Inv, SourceCursor, SourceEndpoint, SourceData, SourceInv, BatcherInv, ScorerEndpoint,
         ScorerCounters, ScorerData, ScorerStep, Score;
    var s' := ScorerStep(env, s);
    ScorerFacts(env, s);
    ScorerRing(env, s);
    ScorerKeepsEndpoint(env, s);
    ScorerKeepsCounters(env, s);
    if s.scorer.pc == KClock {
      CurrentObserved(env, s);
    }
    ScorerKeepsData(env, s);
    ScorerLeaves(env, s);
    SourceFrame(env, s, s');
    BatcherFrame(env, s, s');
  }

  lemma ScorerFacts(env: Env, s: State)
    requires Invariant(env, s)
    ensures s.failed == s.cancelled
  {
    hide Spsc.Inv, SourceEndpoint, SourceData, BatcherInv, ScorerInv;
  }

  lemma ScorerLeaves(env: Env, s: State)
    requires s.failed == s.cancelled
    ensures var s' := ScorerStep(env, s);
            && s'.source == s.source && s'.batcher == s.batcher && s'.features == s.features && s'.signal == s.signal
            && s'.started == s.started && s'.clock == s.clock
            && (s.cancelled ==> s'.cancelled) && s'.failed == s'.cancelled
  {
    hide Score, ConsumerStep;
  }

  lemma TickInvariant(env: Env, s: State, d: nat)
    requires Invariant(env, s)
    ensures Invariant(env, s.(clock := s.clock + d))
  {
    hide Valid, Spsc.Inv, SourceEndpoint, SourceCursor, SourceData, BatcherInv, ScorerInv;
    var s' := s.(clock := s.clock + d);
    ScorerFacts(env, s);
    SourceFrame(env, s, s');
    BatcherFrame(env, s, s');
    ScorerFrame(env, s, s');
  }

  lemma AbortInvariant(env: Env, s: State)
    requires Invariant(env, s)
    ensures s.source.pc != SDone ==> Invariant(env, FailSource(s))
    ensures s.batcher.pc != BDone ==> Invariant(env, FailBatcher(s))
    ensures s.scorer.pc != KDone ==> Invariant(env, FailScorer(s))
  {
    hide Valid, Spsc.Inv, SourceInv, BatcherInv, ScorerInv;
    ScorerFacts(env, s);
    if s.source.pc != SDone {
      AbortSourceKeeps(env, s);
      BatcherFrame(env, s, FailSource(s));
      ScorerFrame(env, s, FailSource(s));
    }
    if s.batcher.pc != BDone {
      AbortBatcherKeeps(env, s);
      SourceFrame(env, s, FailBatcher(s));
      ScorerFrame(env, s, FailBatcher(s));
    }
    if s.scorer.pc != KDone {
      AbortScorerKeeps(env, s);
      SourceFrame(env, s, FailScorer(s));
      BatcherFrame(env, s, FailScorer(s));
    }
  }

  lemma AbortSourceKeeps(env: Env, s: State)
    requires SourceInv(env, s) && s.source.pc != SDone
    ensures SourceInv(env, FailSource(s))
  {
    hide GoodHistory, AlphaAfter, UsersAfter;
  }

  lemma AbortBatcherKeeps(env: Env, s: State)
    requires env.config.batchSlots >= 2 && BatcherInv(env, s) && s.batcher.pc != BDone
    ensures BatcherInv(env, FailBatcher(s))
  {
    hide StartsRight, Flat, ControlAfter, BatchesRight, EmaStep, SlotFraction;
    assert Begun(FailBatcher(s)) == Begun(s) && InHand(FailBatcher(s)) == InHand(s);
  }

  lemma AbortScorerKeeps(env: Env, s: State)
    requires ScorerInv(env, s) && s.scorer.pc != KDone
    ensures ScorerInv(env, FailScorer(s))
  {
    hide Score, Flat, Expand;
  }

  // One atomic step of any worker, a clock tick or a failure keeps the invariant.
  lemma StepInvariant(env: Env, s: State, a: Action)
    requires Invariant(env, s)
    ensures Invariant(env, Step(env, s, a))
  {
    hide Invariant, SourceStep, BatcherStep, ScorerStep;
    match a
    case RunSource => SourceStepInvariant(env, s);
    case RunBatcher => BatcherStepInvariant(env, s);
    case RunScorer => ScorerStepInvariant(env, s);
    case Tick(d) => TickInvariant(env, s, d);
    case _ => AbortInvariant(env, s);
  }

  // Every state reached by any schedule from the initial state satisfies the invariant.
  lemma {:induction false} RunInvariant(env: Env, started: nat, schedule: seq<Action>)
    requires Valid(env.config)
    ensures Invariant(env, Run(env, Init(env, started), schedule))
  {
    hide Invariant, Step;
    if |schedule| == 0 {
      InitInvariant(env, started);
    } else {
      var before := schedule[..|schedule| - 1];
      RunInvariant(env, started, before);
      StepInvariant(env, Run(env, Init(env, started), before), Last(schedule));
    }
  }
}
