// The engine's promises, over every configuration, source, and interleaving.
module PipelineTheorems {
  import opened Bits
  import opened Spsc
  import opened Controllers
  import opened Features
  import opened Pipeline
  import opened PipelineInvariant
  import opened PipelineBatcher
  import opened PipelineSafety
  import opened Checker
  import opened CheckerCompleteness
  import opened Scoring

  // ---- Word-sized counters ----

  predicate InWords(s: State) {
    s.clock < WORD && s.source.retries < WORD && s.batcher.retries < WORD
  }

  lemma StepInWords(env: Env, s: State, a: Action)
    requires InWords(s)
    ensures InWords(Step(env, s, a))
  {
    hide SourceStep, BatcherStep, ScorerStep;
    SourceLeaves(env, s);
    SourceWords(env, s);
    BatcherStepMoves(env, s);
    ScorerWords(env, s);
  }

  lemma SourceWords(env: Env, s: State)
    ensures SourceStep(env, s).source.retries < WORD || SourceStep(env, s).source.retries == s.source.retries
  {
    hide Admissible, ExtractVector, ExtractUsers, NextAlpha, ProducerStep;
  }

  lemma ScorerWords(env: Env, s: State)
    ensures var s' := ScorerStep(env, s); s'.clock == s.clock && s'.source == s.source && s'.batcher == s.batcher
  {
    hide Score, ConsumerStep;
  }

  lemma {:induction false} RunInWords(env: Env, started: Word, schedule: seq<Action>)
    requires Valid(env.config)
    ensures InWords(Run(env, Init(env, started), schedule))
  {
    hide Step, InWords, Valid;
    if |schedule| == 0 {
      InitInWords(env, started);
    } else {
      RunInWords(env, started, schedule[..|schedule| - 1]);
      StepInWords(env, Run(env, Init(env, started), schedule[..|schedule| - 1]), Last(schedule));
    }
  }

  lemma InitInWords(env: Env, started: Word)
    requires Valid(env.config)
    ensures InWords(Init(env, started))
  {
  }

  lemma {:induction false} ActionsBounded(c: Config, starts: seq<Start>)
    requires Valid(c)
    ensures ControlAfter(c, starts).actions <= |starts|
  {
    hide Valid;
    if |starts| > 0 {
      ActionsBounded(c, starts[..|starts| - 1]);
      OneAction(c, ControlAfter(c, starts[..|starts| - 1]), Last(starts).observation.value);
    }
  }

  lemma OneAction(c: Config, b: BatchControl, pressure: real)
    ensures NextControl(c, b, pressure).actions <= b.actions + 1
  {
  }

  lemma ReceiptAccepted(env: Env, s: State)
    requires Valid(env.config) && Clean(env, s) && Counted(env, s) && InWords(s)
    ensures ReceiptOk(AttemptOf(env, s))
  {
    hide GoodHistory, BatchesRight, UsesRight, RowOf, ScorerData, NextControl, EmaStep, SlotFraction, And;
    var starts := s.batcher.starts;
    ActionsBounded(env.config, starts);
    ControlInRange(env.config, starts);
    if |starts| > 0 {
      assert StartRight(env, s.started, s.clock, starts, |starts| - 1);
    }
  }

  // ---- Main results ----

  // Every run that ends without an error is accepted by the independent checker, and the engine's own
  // terminal conservation check cannot fire.
  lemma CleanRunIsAccepted(env: Env, started: Word, schedule: seq<Action>)
    requires Valid(env.config)
    ensures var s := Run(env, Init(env, started), schedule);
            Joined(s) && !s.failed ==> Conserved(s) && Accepts(AttemptOf(env, s))
  {
    hide Invariant, Valid, Clean, Counted, InWords, Step, ReceiptOk, TraceOk, EventsOk;
    var s := Run(env, Init(env, started), schedule);
    RunInvariant(env, started, schedule);
    RunInWords(env, started, schedule);
    if Joined(s) && !s.failed {
      CleanFacts(env, s);
      CountedFacts(env, s);
      ReceiptAccepted(env, s);
      TraceAccepted(env, s);
      EventsAccepted(env, s);
      JoinedConserved(env, s);
    }
  }

  lemma JoinedConserved(env: Env, s: State)
    requires Invariant(env, s) && Joined(s) && !s.failed
    ensures Conserved(s)
  {
    hide Valid, SourceInv, BatcherInv, ScorerInv, ProducerInv, ConsumerInv, Live;
    AllDrained(env, s);
    CountedFacts(env, s);
  }

  // In order, each exactly once: the rows of a clean run are the source's events.
  lemma ExactlyOnce(env: Env, started: Word, schedule: seq<Action>)
    requires Valid(env.config)
    ensures var s := Run(env, Init(env, started), schedule);
            Joined(s) && !s.failed ==>
              |s.scorer.rows| == |env.events| && forall i | 0 <= i < |env.events| ::
                  s.scorer.rows[i].event == env.events[i]
  {
    hide Invariant, Valid, Clean, Step;
    var s := Run(env, Init(env, started), schedule);
    RunInvariant(env, started, schedule);
    RowsArePrefix(env, s);
    if Joined(s) && !s.failed {
      AllRowsWritten(env, s);
    }
  }

  lemma AllRowsWritten(env: Env, s: State)
    requires Invariant(env, s) && Joined(s) && !s.failed
    ensures |s.scorer.rows| == |env.events|
  {
    hide Invariant, GoodHistory, StartsRight, BatchesRight, UsesRight, RowOf, ScorerData;
    CleanFacts(env, s);
  }

  // In every reachable state, failing runs included, the rows written so far are a prefix of the source.
  lemma WrittenPrefix(env: Env, started: nat, schedule: seq<Action>)
    requires Valid(env.config)
    ensures var s := Run(env, Init(env, started), schedule);
            |s.scorer.rows| <= |env.events|
            && forall i | 0 <= i < |s.scorer.rows| :: s.scorer.rows[i].event == env.events[i]
  {
    hide Invariant, Valid, Run;
    RunInvariant(env, started, schedule);
    RowsArePrefix(env, Run(env, Init(env, started), schedule));
  }

  lemma RowsArePrefix(env: Env, s: State)
    requires Invariant(env, s)
    ensures |s.scorer.rows| <= |env.events|
    ensures forall i | 0 <= i < |s.scorer.rows| :: s.scorer.rows[i].event == env.events[i]
  {
    hide Valid, Spsc.Inv, Flat, Expand, GoodHistory, AlphaAfter, UsersAfter, Feedback, BatcherData, TraceData,
         RowRight, BatcherEndpoint, ScorerEndpoint, ScorerCounters;
    var bs, rows := s.batches.pushed, s.scorer.rows;
    ExpandFlat(bs);
    FlatPrefix(bs, Begun(s));
    forall i | 0 <= i < |rows| ensures rows[i].event == env.events[i] {
      RowEvent(env, s, i);
      assert (Flat(Begun(s)) + InHand(s))[i] == s.source.made[i];
      HistoryEvents(env, s.started, s.source.made, i);
    }
  }

  // In every reachable state every written score has the odds its row's features call for.
  lemma WrittenScores(env: Env, started: nat, schedule: seq<Action>)
    requires Valid(env.config) && Inverts(env.num)
    ensures var rows := Run(env, Init(env, started), schedule).scorer.rows;
            forall i | 0 <= i < |rows| :: HasOdds(env.num, env.model, rows[i].x, rows[i].score)
  {
    hide Invariant, Valid, Run, HasOdds, Inverts;
    RunInvariant(env, started, schedule);
    var s := Run(env, Init(env, started), schedule);
    forall i | 0 <= i < |s.scorer.rows|
      ensures HasOdds(env.num, env.model, s.scorer.rows[i].x, s.scorer.rows[i].score)
    {
      RowScore(env, s, i);
      ScoreHasOdds(env.num, env.model, s.scorer.rows[i].x);
    }
  }

  lemma RowScore(env: Env, s: State, i: nat)
    requires Invariant(env, s) && i < |s.scorer.rows|
    ensures s.scorer.rows[i].score == Score(env.num, env.model, s.scorer.rows[i].x)
  {
    hide Valid, Rings, SourceInv, BatcherInv, ScorerEndpoint, ScorerCounters, Score, Expand;
    assert RowRight(env, s.clock, s.scorer.rows[i], Expand(s.batches.pushed)[i]);
  }

  lemma RowEvent(env: Env, s: State, i: nat)
    requires ScorerData(env, s) && i < |s.scorer.rows|
    ensures s.scorer.rows[i].event == Expand(s.batches.pushed)[i].snap.event
  {
    hide Score, Expand;
    assert RowRight(env, s.clock, s.scorer.rows[i], Expand(s.batches.pushed)[i]);
  }

  lemma HistoryEvents(env: Env, started: nat, made: seq<Snapshot>, i: nat)
    requires GoodHistory(env, started, made) && i < |made|
    ensures i < |env.events| && made[i].event == env.events[i]
  {
    hide Admissible, ExtractVector, NextAlpha;
    GoodPrefix(env, started, made, i);
  }

  // Feedback never comes from the future. In every reachable state, an event of batch j used a record
  // stored no later than j's own, the batch's first event a strictly earlier one; the value and time it
  // used are exactly those some batch recorded at its start; and generations never decrease.
  lemma FeedbackCausality(env: Env, started: nat, schedule: seq<Action>, j: nat, t: nat)
    requires Valid(env.config)
    ensures var s := Run(env, Init(env, started), schedule);
            j < |Begun(s)| && t < |Begun(s)[j].items| ==> Causal(Begun(s), j, t)
  {
    hide Invariant, Valid, Run, Causal;
    RunInvariant(env, started, schedule);
    var s := Run(env, Init(env, started), schedule);
    if j < |Begun(s)| && t < |Begun(s)[j].items| {
      EventIsCausal(env, s, j, t);
    }
  }

  predicate Causal(bs: seq<Batch>, j: nat, t: nat)
    requires j < |bs| && t < |bs[j].items|
  {
    var m := bs[j].items[t];
    && m.used.generation <= bs[j].start.generation == j + 1
    && (t == 0 ==> m.used.generation <= j)
    && (m.used == NO_OBSERVATION || (1 <= m.used.generation <= |bs| && m.used == bs[m.used.generation - 1].start))
    && m.used.sampled <= m.loaded
  }

  lemma EventIsCausal(env: Env, s: State, j: nat, t: nat)
    requires Invariant(env, s) && j < |Begun(s)| && t < |Begun(s)[j].items|
    ensures Causal(Begun(s), j, t)
  {
    hide Valid, Spsc.Inv, History, Flat, EmaStep, SlotFraction, ControlAfter, ScorerInv, BatcherEndpoint,
         SourceEndpoint, TraceData, Sampling;
    var bs, starts := Begun(s), s.batcher.starts;
    assert BatchRight(env.config, starts, bs[j], j);
    assert StartRight(env, s.started, s.clock, starts, j);
    MadeItem(env, s, j, t);
    var used := bs[j].items[t].used;
    if used != NO_OBSERVATION {
      assert BatchRight(env.config, starts, bs[used.generation - 1], used.generation - 1);
    }
  }

  lemma MadeItem(env: Env, s: State, j: nat, t: nat)
    requires SourceEndpoint(s) && UsesRight(s.batcher.starts, s.source.made, s.clock) && BatcherCounters(s)
    requires j < |Begun(s)| && t < |Begun(s)[j].items|
    ensures var m := Begun(s)[j].items[t]; UsedRight(s.batcher.starts, m.used, m.loaded)
  {
    hide UsedRight;
    var b := Begun(s);
    ExpandAt(b, j, t);
    ExpandFlat(b);
    var k := |Flat(b[..j])| + t;
    assert Flat(b)[k] == b[j].items[t];
    assert (Flat(b) + InHand(s))[k] == s.source.made[k];
  }

  lemma GenerationsNeverDecrease(env: Env, started: nat, schedule: seq<Action>, i: nat)
    requires Valid(env.config)
    ensures var made := Run(env, Init(env, started), schedule).source.made;
            0 < i < |made| ==> made[i - 1].used.generation <= made[i].used.generation
  {
    hide Invariant, Valid, Run;
    RunInvariant(env, started, schedule);
    if 0 < i < |Run(env, Init(env, started), schedule).source.made| {
      NextGeneration(env, Run(env, Init(env, started), schedule), i);
    }
  }

  lemma NextGeneration(env: Env, s: State, i: nat)
    requires Invariant(env, s) && 0 < i < |s.source.made|
    ensures s.source.made[i - 1].used.generation <= s.source.made[i].used.generation
  {
    hide Valid, Rings, BatcherInv, ScorerInv, Admissible, ExtractVector, NextAlpha, AlphaAfter, UsersAfter;
    GoodPrefix(env, s.started, s.source.made, i);
  }

  // The controllers move only when a nonempty batch starts or an event is extracted: polling and blocked
  // retries leave the gain, the average, the batch law and the feature state as they were.
  lemma ControlMovesOnlyAtStarts(env: Env, s: State, a: Action)
    ensures var s' := Step(env, s, a);
            && (s'.batcher.control == s.batcher.control
                  || (a == RunBatcher && s.batcher.pc == BStart && |s'.batcher.batch.items| == 1))
            && (s'.batcher.ema == s.batcher.ema
                  || (a == RunBatcher && s.batcher.pc == BOccupancy && s'.batcher.pc == BClock))
            && (s'.signal == s.signal || (a == RunBatcher && s.batcher.pc == BStore && s'.batcher.pc == BStart))
            && ((s'.source.alpha == s.source.alpha && s'.source.users == s.source.users)
                || (a == RunSource && s.source.pc == SLoaded && |s'.source.made| == |s.source.made| + 1))
  {
    hide SourceStep, BatcherStep, ScorerStep;
    match a {
      case RunSource => SourceControls(env, s);
      case RunBatcher => BatcherStepMoves(env, s);
      case RunScorer => ScorerControls(env, s);
      case _ =>
    }
  }

  lemma SourceControls(env: Env, s: State)
    ensures var s' := SourceStep(env, s);
            && s'.batcher == s.batcher && s'.signal == s.signal
            && ((s'.source.alpha == s.source.alpha && s'.source.users == s.source.users)
                || (s.source.pc == SLoaded && |s'.source.made| == |s.source.made| + 1))
  {
    hide Admissible, ExtractVector, ExtractUsers, NextAlpha, ProducerStep;
  }

  lemma ScorerControls(env: Env, s: State)
    ensures var s' := ScorerStep(env, s); s'.source == s.source && s'.batcher == s.batcher && s'.signal == s.signal
  {
    hide Score, ConsumerStep;
  }

  // The only errors a worker's own step can raise, given that nothing has failed before: a source
  // regression, an inadmissible event, or the exhaustion of record generations.
  lemma StepFailsExactlyWhen(env: Env, s: State, a: Action)
    requires Invariant(env, s) && !s.failed && (a == RunSource || a == RunBatcher || a == RunScorer)
    ensures Step(env, s, a).failed <==>
              || (a == RunSource && s.source.pc == SNext && s.source.index < |env.events|
                  && Regresses(s.source.previous, env.events[s.source.index]))
              || (a == RunSource && s.source.pc == SLoaded && s.source.previous.Some?
                  && !Admissible(s.source.users, env.config.maxKeys, s.source.previous.value,
                                 NextAlpha(env.config, s.source.alpha, s.source.observed)))
              || (a == RunBatcher && s.batcher.pc == BStore && |s.batcher.starts| == WORD - 1)
  {
    hide Valid, Invariant, Admissible, ExtractVector, ExtractUsers, NextAlpha, NextControl, EmaStep, Score,
         ProducerStep, ConsumerStep, Storable, Fraction, Regresses;
    match a {
      case RunSource => ObservedFraction(env, s);
      case RunBatcher => BatcherChecksPass(env, s);
      case RunScorer => AcceptedBatch(env, s);
    }
  }

  lemma ObservedFraction(env: Env, s: State)
    requires Invariant(env, s)
    ensures s.source.pc in {SCreated, SObserve, SLoaded} ==> s.source.previous.Some?
    ensures s.source.pc == SLoaded && s.source.observed.available ==> Fraction(s.source.observed.value)
  {
    hide Valid, Rings, History, UsesRight, SourceEndpoint, ScorerInv, EmaStep, SlotFraction, Sampling,
         BatcherEndpoint, BatcherCounters, BatcherData, TraceData;
    SlotsTwo(env.config);
    var o := s.source.observed;
    if s.source.pc == SLoaded && o.available {
      assert StartRight(env, s.started, s.clock, s.batcher.starts, o.generation - 1);
    }
  }

  lemma BatcherChecksPass(env: Env, s: State)
    requires Invariant(env, s)
    ensures s.batcher.pc == BStore ==>
      (Storable(s.signal, s.batcher.ema, s.batcher.sampled) <==> |s.batcher.starts| != WORD - 1)
    ensures s.batcher.pc == BStart ==> s.batcher.hand.Some? && Fraction(s.batcher.ema)
    ensures s.batcher.pc == BOccupancy && s.batches.producer.SizeReturned?
            ==> Fraction(s.batches.producer.size as real / (s.batches.slots - 1) as real)
  {
    hide Valid, SourceInv, Spsc.Inv, ScorerInv, BatcherCounters, BatcherData, TraceData, EmaStep, StartsRight;
    SlotsTwo(env.config);
    PressureIsFraction(env, s);
    if s.batcher.pc == BStore {
      StoreAccepted(env, s);
    }
    if s.batches.producer.SizeReturned? {
      SizeInRange(s.batches);
      RawFraction(s.batches.producer.size, s.batches.slots);
    }
  }

  lemma SlotsTwo(c: Config)
    requires Valid(c)
    ensures c.batchSlots >= 2
  {
  }

  lemma AcceptedBatch(env: Env, s: State)
    requires Invariant(env, s)
    ensures s.scorer.pc == KPop && s.batches.consumer.PopReturned? && s.batches.consumer.item.Some? ==>
              var slot := s.batches.consumer.item.value;
              slot.Holds? && 0 < |slot.value.items| <= MAX_BATCH
  {
    hide Valid, SourceInv, Spsc.Inv, ScorerInv, Feedback, BatcherCounters, BatcherEndpoint, TraceData, ControlAfter;
    ConsumerKnows(s.batches);
    if Returned(s.batches.consumer) {
      var j := s.batches.popped - 1;
      assert BatchRight(env.config, s.batcher.starts, Begun(s)[j], j);
    }
  }

  // ---- run_pipeline under a given schedule ----

  // InvalidConfig, Failed and ConservationFailure are the three places an exception leaves the engine.
  datatype Outcome = InvalidConfig | Unfinished | Failed | ConservationFailure | Completed(attempt: Attempt)

  method RunPipeline(env: Env, started: Word, schedule: seq<Action>) returns (r: Outcome)
    ensures r != ConservationFailure && (r.InvalidConfig? <==> !Valid(env.config))
    ensures r.Completed? ==> Accepts(r.attempt) && r.attempt.events == env.events
    ensures Valid(env.config) ==>
              var s := Run(env, Init(env, started), schedule);
              (r.Unfinished? <==> !Joined(s)) && (r.Failed? <==> Joined(s) && s.failed)
              && (r.Completed? ==> r.attempt == AttemptOf(env, s))
    ensures r.Completed? && Inverts(env.num) ==>
      forall i | 0 <= i < |r.attempt.predictions| ::
        HasOdds(env.num, env.model, r.attempt.predictions[i].x, r.attempt.predictions[i].score)
  {
    hide Step, Valid, Conserved, Accepts, HasOdds, Inverts;
    if !Valid(env.config) { return InvalidConfig; }
    var s := Init(env, started);
    var n := 0;
    while n < |schedule|
      invariant 0 <= n <= |schedule| && s == Run(env, Init(env, started), schedule[..n])
    {
      s := Step(env, s, schedule[n]);
      n := n + 1;
      assert schedule[..n][..n - 1] == schedule[..n - 1];
    }
    assert schedule[..n] == schedule;
    CleanRunIsAccepted(env, started, schedule);
    if !Joined(s) { return Unfinished; }
    if s.failed { return Failed; }
    if !Conserved(s) { return ConservationFailure; }
    if Inverts(env.num) { WrittenScores(env, started, schedule); }
    return Completed(AttemptOf(env, s));
  }
}
