// Cancellation gets every worker out: from a cancelled state each worker leaves its loops within a
// constant number of its own steps, whatever the others do.
module PipelineExit {
  import opened Spsc
  import opened Controllers
  import opened Features
  import opened Pipeline
  import opened PipelineInvariant
  import opened PipelineSource
  import opened PipelineBatcher
  import opened PipelineScorer
  import opened PipelineSafety
  import opened PipelineProgress

  // ---- Steps a cancelled worker has left ----

  function PushExit<T>(p: Producer<T>): nat {
    match p
    case LoadClosed(_) => 10
    case LoadWrite(_) => 9
    case LoadRead(_, _) => 8
    case BeginWrite(_, _, _) => 7
    case EndWrite(_, _, _) => 6
    case StoreWrite(_, _, _) => 5
    case _ => 4
  }

  function SourceExit(s: State): nat {
    match s.source.pc
    case SDone => 0
    case SClose => 1
    case SRetry => 1
    case SFinish => 2
    case SCheck => 3
    case SPush => PushExit(s.features.producer)
    case SLoaded => 11
    case SObserve => 12
    case SCreated => 13
    case SNext => 14
  }

  function DrainExit<T>(c: Consumer<T>): nat {
    match c
    case DrainClosed => 7
    case DrainRead => 6
    case DrainWrite(_) => 5
    case _ => 4
  }

  function PopExit<T>(c: Consumer<T>, returned: nat): nat {
    match c
    case PopLoadRead => returned + 4
    case PopLoadWrite(_) => returned + 3
    case CopySlot(_) => returned + 2
    case StoreRead(_, _) => returned + 1
    case _ => returned
  }

  function SizeExit<T>(p: Producer<T>): nat {
    match p
    case SizeWrite => 17
    case SizeRead(_) => 16
    case _ => 15
  }

  function BatcherExit(s: State): nat {
    match s.batcher.pc
    case BDone => 0
    case BClose => 1
    case BRetry => 1
    case BEnd => 2
    case BCheck => 3
    case BDrain => DrainExit(s.features.consumer)
    case BPush => PushExit(s.batches.producer)
    case BTrace => 11
    case BStart => 12
    case BStore => 13
    case BClock => 14
    case BOccupancy => SizeExit(s.batches.producer)
    case BPop => PopExit(s.features.consumer, 18)
  }

  function ScorerExit(s: State): nat {
    match s.scorer.pc
    case KDone => 0
    case KFlush => 1
    case KCheck => 2
    case KItem => 3
    case KClock => 4
    case KDrain => DrainExit(s.batches.consumer)
    case KPop => PopExit(s.batches.consumer, 8)
  }

  const EXIT_ROUNDS := 22

  // ---- One step ----

  // No worker's count rises, and the given worker's falls until it is done.
  predicate Exits(s: State, s': State, a: Action) {
    && s'.cancelled
    && SourceExit(s') <= SourceExit(s) && BatcherExit(s') <= BatcherExit(s) && ScorerExit(s') <= ScorerExit(s)
    && (a == RunSource ==> SourceExit(s') < SourceExit(s) || SourceExit(s') == 0)
    && (a == RunBatcher ==> BatcherExit(s') < BatcherExit(s) || BatcherExit(s') == 0)
    && (a == RunScorer ==> ScorerExit(s') < ScorerExit(s) || ScorerExit(s') == 0)
  }

  lemma SourceLeavesLoop(env: Env, s: State)
    requires SourceEndpoint(s) && s.cancelled
    ensures SourceExit(SourceStep(env, s)) < SourceExit(s) || SourceExit(SourceStep(env, s)) == 0
  {
    hide Admissible, ExtractVector, ExtractUsers, NextAlpha;
  }

  lemma BatcherLeavesLoop(env: Env, s: State)
    requires Spsc.Inv(s.features) && BatcherEndpoint(s) && s.cancelled
    ensures BatcherExit(BatcherStep(env, s)) < BatcherExit(s) || BatcherExit(BatcherStep(env, s)) == 0
  {
    hide Spsc.Inv, PopFeature, DrainFeatures, SampleOccupancy, PushBatch, NextControl;
    match s.batcher.pc {
      case BPop => PopLeaves(s);
      case BDrain => DrainLeaves(s);
      case BOccupancy => SampleLeaves(env, s);
      case BPush => PushLeaves(s);
      case _ =>
    }
  }

  lemma PopLeaves(s: State)
    requires Spsc.Inv(s.features) && BatcherEndpoint(s) && s.batcher.pc == BPop
    ensures BatcherExit(PopFeature(s)) < BatcherExit(s)
  {
    hide Spsc.Inv;
    ConsumerKnows(s.features);
  }

  lemma DrainLeaves(s: State)
    requires BatcherEndpoint(s) && s.batcher.pc == BDrain
    ensures BatcherExit(DrainFeatures(s)) < BatcherExit(s)
  {
  }

  lemma SampleLeaves(env: Env, s: State)
    requires BatcherEndpoint(s) && s.batcher.pc == BOccupancy
    ensures BatcherExit(SampleOccupancy(env, s)) < BatcherExit(s)
  {
    hide EmaStep;
  }

  lemma PushLeaves(s: State)
    requires BatcherEndpoint(s) && s.batcher.pc == BPush
    ensures BatcherExit(PushBatch(s)) < BatcherExit(s)
  {
  }

  lemma ScorerLeavesLoop(env: Env, s: State)
    requires Spsc.Inv(s.batches) && ScorerEndpoint(s) && s.cancelled
    ensures ScorerExit(ScorerStep(env, s)) < ScorerExit(s) || ScorerExit(ScorerStep(env, s)) == 0
  {
    hide Spsc.Inv, Score;
    ConsumerKnows(s.batches);
  }

  lemma StepExits(env: Env, s: State, a: Action)
    requires Invariant(env, s) && s.cancelled
    ensures Exits(s, Step(env, s, a), a)
  {
    hide Invariant, SourceStep, BatcherStep, ScorerStep, Spsc.Inv, SourceEndpoint, BatcherEndpoint, ScorerEndpoint,
         PushExit, PopExit, DrainExit, SizeExit;
    SourceSide(env, s);
    match a {
      case RunSource =>
        SourceRing(env, s);
        SourceLeaves(env, s);
        SourceLeavesLoop(env, s);
      case RunBatcher =>
        BatcherRings(env, s);
        BatcherStepMoves(env, s);
        BatcherLeavesLoop(env, s);
      case RunScorer =>
        ScorerRing(env, s);
        ScorerLeaves(env, s);
        ScorerLeavesLoop(env, s);
      case _ =>
    }
  }

  // ---- Fair rounds ----

  // A round schedules every worker at least once, in any order, with any ticks and aborts.
  predicate Fair(round: seq<Action>) { RunSource in round && RunBatcher in round && RunScorer in round }

  predicate Lowered(before: nat, after: nat) { after < before || after == 0 }

  lemma {:induction false} PartialExit(env: Env, s: State, round: seq<Action>)
    requires Invariant(env, s) && s.cancelled
    ensures var s' := Run(env, s, round);
            && Invariant(env, s') && s'.cancelled
            && SourceExit(s') <= SourceExit(s) && BatcherExit(s') <= BatcherExit(s) && ScorerExit(s') <= ScorerExit(s)
            && (RunSource in round ==> Lowered(SourceExit(s), SourceExit(s')))
            && (RunBatcher in round ==> Lowered(BatcherExit(s), BatcherExit(s')))
            && (RunScorer in round ==> Lowered(ScorerExit(s), ScorerExit(s')))
  {
    hide Invariant, Step, SourceExit, BatcherExit, ScorerExit;
    if |round| > 0 {
      var before, a := round[..|round| - 1], Last(round);
      assert round == before + [a];
      PartialExit(env, s, before);
      StepInvariant(env, Run(env, s, before), a);
      StepExits(env, Run(env, s, before), a);
    }
  }

  lemma ExitBounds(s: State)
    ensures SourceExit(s) <= EXIT_ROUNDS && BatcherExit(s) <= EXIT_ROUNDS && ScorerExit(s) <= EXIT_ROUNDS
    ensures Joined(s) <==> SourceExit(s) == BatcherExit(s) == ScorerExit(s) == 0
  {
  }
}
