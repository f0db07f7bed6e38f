// Steps of the batching worker keep the invariant, and the other workers do not disturb it.
module PipelineBatcher {
  import opened Bits
  import opened Spsc
  import opened Controllers
  import opened Features
  import opened Pipeline
  import opened PipelineInvariant

  // What a step of another worker leaves alone, from the batcher's point of view.
  predicate BatcherUntouched(s: State, s': State) {
    && s'.batcher == s.batcher && s'.signal == s.signal && s'.started == s.started && s.clock <= s'.clock
    && s'.features.consumer == s.features.consumer && s'.features.popped == s.features.popped
    && s.features.pushed <= s'.features.pushed
    && (s.features.closed ==> s'.features.closed && s'.features.pushed == s.features.pushed)
    && s'.batches.producer == s.batches.producer && s'.batches.pushed == s.batches.pushed
    && s'.batches.closed == s.batches.closed
    && (s.cancelled ==> s'.cancelled)
  }

  lemma BatcherFrame(env: Env, s: State, s': State)
    requires env.config.batchSlots >= 2 && BatcherInv(env, s) && BatcherUntouched(s, s')
    ensures BatcherInv(env, s')
  {
    hide Feedback, BatcherEndpoint, BatcherCounters, BatcherData, TraceData, BatcherUntouched;
    EndpointFrame(s, s');
    CountersFrame(s, s');
    DataFrame(env, s, s');
    FeedbackFrame(env, s, s');
  }

  lemma EndpointFrame(s: State, s': State)
    requires BatcherEndpoint(s) && BatcherUntouched(s, s')
    ensures BatcherEndpoint(s')
  {
  }

  lemma CountersFrame(s: State, s': State)
    requires BatcherCounters(s) && BatcherUntouched(s, s')
    ensures BatcherCounters(s')
  {
    hide Flat;
    assert Begun(s') == Begun(s) && InHand(s') == InHand(s);
    assert s'.features.pushed[..s.features.popped] == s.features.pushed[..s.features.popped];
  }

  lemma DataFrame(env: Env, s: State, s': State)
    requires BatcherData(env, s) && TraceData(s) && BatcherUntouched(s, s')
    ensures BatcherData(env, s') && TraceData(s')
  {
    hide ControlAfter, BatchesRight;
    assert Begun(s') == Begun(s);
  }

  lemma FeedbackFrame(env: Env, s: State, s': State)
    requires env.config.batchSlots >= 2 && Feedback(env, s) && BatcherUntouched(s, s')
    ensures Feedback(env, s')
  {
    hide EmaStep, SlotFraction;
    forall j | 0 <= j < |s.batcher.starts|
      ensures StartRight(env, s'.started, s'.clock, s'.batcher.starts, j)
    {
      assert StartRight(env, s.started, s.clock, s.batcher.starts, j);
    }
  }

  predicate OnFeatures(pc: BatcherPc) { pc == BCheck || pc == BPop || pc == BDrain }

  predicate OnBatches(pc: BatcherPc) { pc == BOccupancy || pc == BPush || pc == BTrace || pc == BRetry || pc == BClose }

  // What one batcher step does to the two rings.
  ghost predicate RingsStep(s: State, s': State) {
    && Spsc.Inv(s'.features) && Spsc.Inv(s'.batches)
    && s'.features.slots == s.features.slots && s'.batches.slots == s.batches.slots
    && s'.features.pushed == s.features.pushed && s'.features.closed == s.features.closed
    && s'.features.producer == s.features.producer
    && s'.batches.popped == s.batches.popped && s'.batches.consumer == s.batches.consumer
    && s.batches.pushed <= s'.batches.pushed
    && (s.batches.closed ==> s' == s)
    && (!s.batches.producer.StoreWrite? ==> s'.batches.pushed == s.batches.pushed)
  }

  lemma BatcherRings(env: Env, s: State)
    requires Spsc.Inv(s.features) && Spsc.Inv(s.batches) && BatcherEndpoint(s)
    ensures RingsStep(s, BatcherStep(env, s))
  {
    hide Spsc.Inv, EmaStep, StartBatch, SampleOccupancy, PopFeature, DrainFeatures, PushBatch;
    var w := s.batcher;
    if OnFeatures(w.pc) {
      FeatureRing(env, s);
    } else if OnBatches(w.pc) {
      BatchRing(env, s);
    } else if w.pc == BStart {
      StartRings(env, s);
    }
  }

  lemma StartRings(env: Env, s: State)
    requires Spsc.Inv(s.features) && Spsc.Inv(s.batches) && s.batcher.pc == BStart && !s.batches.closed
    ensures RingsStep(s, BatcherStep(env, s))
  {
    hide Spsc.Inv, EmaStep, NextControl, SampleOccupancy, PopFeature, DrainFeatures, PushBatch;
  }

  lemma FeatureRing(env: Env, s: State)
    requires Spsc.Inv(s.features) && Spsc.Inv(s.batches) && OnFeatures(s.batcher.pc) && !s.batches.closed
    requires s.batches.producer.ProducerIdle?
    ensures RingsStep(s, BatcherStep(env, s))
  {
    hide Spsc.Inv, EmaStep, StartBatch, SampleOccupancy, PushBatch;
    var q := s.features;
    ConsumerRefines(q);
    ConsumerCall(q, ConsumerIdle);
    ConsumerCall(q, PopLoadRead);
    ConsumerCall(q, DrainClosed);
    ProducerCall(s.batches, SizeWrite);
  }

  lemma BatchRing(env: Env, s: State)
    requires Spsc.Inv(s.features) && Spsc.Inv(s.batches) && OnBatches(s.batcher.pc) && !s.batches.closed
    requires s.batcher.pc == BClose ==> s.batches.producer.ProducerIdle?
    ensures RingsStep(s, BatcherStep(env, s))
  {
    hide Spsc.Inv, EmaStep, StartBatch, PopFeature, DrainFeatures;
    var r := s.batches;
    if r.producer.ProducerIdle? {
      OwnClose(r);
    }
    ProducerRefines(r);
    ProducerCall(r, ProducerIdle);
    ProducerCall(r, LoadClosed(s.batcher.batch));
  }

  lemma BatcherKeepsEndpoint(env: Env, s: State)
    requires Spsc.Inv(s.features) && Spsc.Inv(s.batches) && BatcherEndpoint(s)
    requires Open(s) ==> |s.batcher.batch.items| <= s.batcher.batch.target
    requires s.batcher.pc == BStart ==> NextControl(env.config, s.batcher.control, s.batcher.ema).current >= 1
    ensures BatcherEndpoint(BatcherStep(env, s))
  {
    hide EmaStep, NextControl, Spsc.Inv;
    var w := s.batcher;
    if OnFeatures(w.pc) {
      FeatureEndpoint(env, s);
    } else if OnBatches(w.pc) {
      BatchEndpoint(env, s);
    }
  }

  lemma FeatureEndpoint(env: Env, s: State)
    requires Spsc.Inv(s.features) && BatcherEndpoint(s) && OnFeatures(s.batcher.pc)
    requires Open(s) ==> |s.batcher.batch.items| <= s.batcher.batch.target
    ensures BatcherEndpoint(BatcherStep(env, s))
  {
    hide Spsc.Inv, EmaStep, StartBatch, SampleOccupancy, PushBatch;
    ConsumerRefines(s.features);
    ConsumerKnows(s.features);
    ConsumerKnows(ConsumerStep(s.features));
  }

  lemma BatchEndpoint(env: Env, s: State)
    requires Spsc.Inv(s.batches) && BatcherEndpoint(s) && OnBatches(s.batcher.pc)
    ensures BatcherEndpoint(BatcherStep(env, s))
  {
    hide Spsc.Inv, EmaStep, StartBatch, PopFeature, DrainFeatures, SampleOccupancy, PushBatch;
    if s.batcher.pc == BPush {
      PushEndpoint(s);
    } else if s.batcher.pc == BOccupancy {
      OccupancyEndpoint(env, s);
    }
  }

  lemma PushEndpoint(s: State)
    requires Spsc.Inv(s.batches) && BatcherEndpoint(s) && s.batcher.pc == BPush
    ensures BatcherEndpoint(PushBatch(s))
  {
    hide Spsc.Inv;
    ProducerRefines(s.batches);
  }

  lemma OccupancyEndpoint(env: Env, s: State)
    requires Spsc.Inv(s.batches) && BatcherEndpoint(s) && s.batcher.pc == BOccupancy
    ensures BatcherEndpoint(SampleOccupancy(env, s))
  {
    hide Spsc.Inv, EmaStep;
    ProducerRefines(s.batches);
  }

  // ---- Feedback ----

  lemma RawFraction(n: nat, slots: nat)
    requires n < slots && slots >= 2
    ensures SlotFraction(slots, n as real / (slots - 1) as real)
  {
    DivideBack(n as real, (slots - 1) as real);
  }

  lemma DivideBack(n: real, m: real)
    requires 0.0 <= n <= m && m > 0.0
    ensures Fraction(n / m) && (n / m) * m == n
  {
  }

  lemma PressureIsFraction(env: Env, s: State)
    requires env.config.batchSlots >= 2 && Feedback(env, s)
    ensures Fraction(PressureBefore(s.batcher.starts, |s.batcher.starts|))
  {
    hide EmaStep;
    if |s.batcher.starts| > 0 {
      assert StartRight(env, s.started, s.clock, s.batcher.starts, |s.batcher.starts| - 1);
    }
  }

  lemma BatcherKeepsFeedback(env: Env, s: State)
    requires Valid(env.config) && Feedback(env, s)
    requires Spsc.Inv(s.batches) && s.batches.slots == env.config.batchSlots && BatcherEndpoint(s)
    ensures Feedback(env, BatcherStep(env, s))
  {
    hide Spsc.Inv, EmaStep, NextControl, SlotFraction, Valid, PopFeature, DrainFeatures, PushBatch, SampleOccupancy,
         StartBatch;
    if s.batcher.pc == BOccupancy {
      OccupancyFeedback(env, s);
    } else if s.batcher.pc == BStore {
      StoreFeedback(env, s);
    } else if s.batcher.pc == BStart {
      StartFeedback(env, s);
    } else {
      OtherFeedback(env, s);
    }
  }

  // A step that touches neither the record, the average nor the start of a batch.
  predicate FeedbackIdle(w: Batcher, w': Batcher) {
    && w'.starts == w.starts && w'.ema == w.ema && w'.raw == w.raw
    && (w'.pc == BStart ==> w.pc == BStart)
    && (w'.pc in {BClock, BStore} ==> w.pc == BClock)
    && (w.pc == BClock ==> w'.pc == BStore) && (w.pc == BDone ==> w'.pc == BDone)
  }

  lemma PopIdle(s: State)
    requires s.batcher.pc == BPop
    ensures SameFeedback(s, PopFeature(s)) && FeedbackIdle(s.batcher, PopFeature(s).batcher)
  {
    hide ConsumerStep;
  }

  lemma DrainIdle(s: State)
    requires s.batcher.pc == BDrain
    ensures SameFeedback(s, DrainFeatures(s)) && FeedbackIdle(s.batcher, DrainFeatures(s).batcher)
  {
    hide ConsumerStep;
  }

  lemma PushIdle(s: State)
    requires s.batcher.pc == BPush
    ensures SameFeedback(s, PushBatch(s)) && FeedbackIdle(s.batcher, PushBatch(s).batcher)
  {
    hide ProducerStep;
  }

  predicate SameFeedback(s: State, s': State) {
    s'.started == s.started && s'.clock == s.clock && s'.signal == s.signal
  }

  lemma OtherIdle(env: Env, s: State)
    requires s.batcher.pc !in {BOccupancy, BStore, BStart}
    ensures var s' := BatcherStep(env, s);
            && SameFeedback(s, s') && FeedbackIdle(s.batcher, s'.batcher)
            && (s.batcher.pc == BClock ==> s'.batcher.sampled == s.clock)
  {
    hide PopFeature, DrainFeatures, PushBatch;
    match s.batcher.pc {
      case BPop => PopIdle(s);
      case BDrain => DrainIdle(s);
      case BPush => PushIdle(s);
      case _ =>
    }
  }

  lemma OtherFeedback(env: Env, s: State)
    requires env.config.batchSlots >= 2 && Feedback(env, s) && s.batcher.pc !in {BOccupancy, BStore, BStart}
    ensures Feedback(env, BatcherStep(env, s))
  {
    hide EmaStep, SlotFraction, StartsRight, BatcherStep;
    SignalPast(env, s);
    OtherIdle(env, s);
  }

  lemma SignalPast(env: Env, s: State)
    requires env.config.batchSlots >= 2 && Feedback(env, s)
    ensures s.started <= s.clock && (|s.batcher.starts| > 0 ==> s.signal.sampled <= s.clock)
  {
    hide EmaStep, SlotFraction;
    if |s.batcher.starts| > 0 {
      assert StartRight(env, s.started, s.clock, s.batcher.starts, |s.batcher.starts| - 1);
    }
  }

  lemma StartFeedback(env: Env, s: State)
    requires env.config.batchSlots >= 2 && Feedback(env, s) && s.batcher.pc == BStart
    ensures Feedback(env, StartBatch(env, s))
  {
    hide EmaStep, NextControl, SlotFraction, StartsRight;
  }

  lemma OccupancyFeedback(env: Env, s: State)
    requires Valid(env.config) && Feedback(env, s) && s.batcher.pc == BOccupancy
    requires Spsc.Inv(s.batches) && s.batches.slots == env.config.batchSlots
    ensures Feedback(env, SampleOccupancy(env, s))
  {
    hide Spsc.Inv, EmaStep, SlotFraction, StartRight, ProducerStep, And;
    PressureIsFraction(env, s);
    if s.batches.producer.SizeReturned? {
      var n: nat, slots: nat := s.batches.producer.size, s.batches.slots;
      SizeInRange(s.batches);
      RawFraction(n, slots);
      var raw := n as real / (slots - 1) as real;
      if Fraction(raw) {
        Convex(env.config.occupancyGain, s.batcher.ema, raw, 0.0, 1.0);
      }
    }
  }

  lemma SizeInRange<T>(q: Ring<T>)
    requires Spsc.Inv(q) && q.producer.SizeReturned?
    ensures q.producer.size < q.slots
  {
  }

  lemma StoreFeedback(env: Env, s: State)
    requires env.config.batchSlots >= 2 && Feedback(env, s) && s.batcher.pc == BStore
    ensures Feedback(env, BatcherStep(env, s))
  {
    hide EmaStep, SlotFraction, StartBatch, SampleOccupancy, PopFeature, DrainFeatures, PushBatch;
    var w, w' := s.batcher, BatcherStep(env, s).batcher;
    var n := |w.starts|;
    if |w'.starts| > n {
      forall j | 0 <= j <= n
        ensures StartRight(env, s.started, s.clock, w'.starts, j)
      {
        if j < n {
          assert StartRight(env, s.started, s.clock, w.starts, j);
        }
        if n > 0 {
          assert StartRight(env, s.started, s.clock, w.starts, n - 1);
        }
      }
    }
  }

  // The engine's pressure and sampling clock are always acceptable to the record.
  lemma StoreAccepted(env: Env, s: State)
    requires env.config.batchSlots >= 2 && Feedback(env, s) && s.batcher.pc == BStore
    ensures Storable(s.signal, s.batcher.ema, s.batcher.sampled) <==> |s.batcher.starts| != WORD - 1
  {
    hide EmaStep;
    var starts := s.batcher.starts;
    if |starts| > 0 {
      assert StartRight(env, s.started, s.clock, starts, |starts| - 1);
    }
  }

  // ---- Conservation ----

  lemma BatcherKeepsCounters(env: Env, s: State)
    requires Spsc.Inv(s.features) && Spsc.Inv(s.batches) && BatcherEndpoint(s) && BatcherCounters(s)
    ensures BatcherCounters(BatcherStep(env, s))
  {
    hide Spsc.Inv, EmaStep, NextControl, Flat, PopFeature, DrainFeatures, PushBatch, SampleOccupancy, StartBatch;
    var pc := s.batcher.pc;
    if pc == BPop {
      PopCounters(s);
    } else if pc == BDrain {
      DrainCounters(s);
    } else if pc == BPush {
      PushCounters(s);
    } else if pc == BOccupancy {
      OccupancyCounters(env, s);
    } else if pc == BStart {
      StartCounters(env, s);
    }
  }

  lemma PopCounters(s: State)
    requires Spsc.Inv(s.features) && BatcherEndpoint(s) && BatcherCounters(s) && s.batcher.pc == BPop
    ensures BatcherCounters(PopFeature(s))
  {
    hide Spsc.Inv, Flat;
    ConsumerKnows(s.features);
    if Returned(s.features.consumer) {
      JoinCounters(s);
    } else {
      AdvancePopCounters(s);
    }
  }

  lemma AdvancePopCounters(s: State)
    requires Spsc.Inv(s.features) && BatcherEndpoint(s) && BatcherCounters(s) && s.batcher.pc == BPop
    requires !Returned(s.features.consumer)
    ensures BatcherCounters(PopFeature(s))
  {
    hide Spsc.Inv, Flat, ConsumerStep;
    var s' := PopFeature(s);
    ConsumerRefines(s.features);
    PopHands(s);
    assert Begun(s') == Begun(s);
    if s.features.consumer.StoreRead? {
      var popped := s.features.popped;
      assert s.features.pushed[..popped + 1] == s.features.pushed[..popped] + [s.features.pushed[popped]];
    }
  }

  // A pop in progress holds nothing until its final store, which hands over the head.
  lemma PopHands(s: State)
    requires Spsc.Inv(s.features) && BatcherEndpoint(s) && s.batcher.pc == BPop && !Returned(s.features.consumer)
    ensures InHand(s) == []
    ensures s.features.popped <= |s.features.pushed|
    ensures s.features.consumer.StoreRead? ==>
              s.features.popped < |s.features.pushed| && InHand(PopFeature(s)) == [s.features.pushed[s.features.popped]]
    ensures !s.features.consumer.StoreRead? ==> InHand(PopFeature(s)) == []
    ensures PopFeature(s).batcher.starts == s.batcher.starts && PopFeature(s).batches == s.batches
  {
    hide Spsc.Inv;
    ConsumerKnows(s.features);
  }

  lemma JoinCounters(s: State)
    requires BatcherEndpoint(s) && BatcherCounters(s) && s.batcher.pc == BPop
    requires Returned(s.features.consumer) && s.features.consumer.item.value.Holds?
    ensures BatcherCounters(PopFeature(s))
    ensures Begun(PopFeature(s)) == if Open(s) then s.batches.pushed + [PopFeature(s).batcher.batch] else Begun(s)
  {
    if Open(s) {
      JoinOpen(s);
    } else {
      JoinNone(s);
    }
  }

  lemma JoinOpen(s: State)
    requires BatcherEndpoint(s) && BatcherCounters(s) && s.batcher.pc == BPop && Open(s)
    requires Returned(s.features.consumer) && s.features.consumer.item.value.Holds?
    ensures BatcherCounters(PopFeature(s))
    ensures Begun(PopFeature(s)) == s.batches.pushed + [PopFeature(s).batcher.batch]
  {
    hide Flat, PopFeature, BatcherEndpoint;
    JoinShape(s);
    FlatAppend(s.batches.pushed, s.batcher.batch);
    FlatAppend(s.batches.pushed, PopFeature(s).batcher.batch);
  }

  lemma JoinShape(s: State)
    requires BatcherEndpoint(s) && s.batcher.pc == BPop && Open(s)
    requires Returned(s.features.consumer) && s.features.consumer.item.value.Holds?
    ensures var s', v := PopFeature(s), s.features.consumer.item.value.value; var w, w' := s.batcher, s'.batcher;
            && w'.batch == w.batch.(items := w.batch.items + [v]) && w'.batched == w.batched + 1 && InHand(s) == [v]
            && w'.hand.None? && w'.pc in {BTrace, BCheck} && w'.starts == w.starts && w'.tails == w.tails
                  && w'.tail == w.tail
            && w'.batches == w.batches && s'.batches == s.batches && s.batches.producer.ProducerIdle?
            && s'.features == s.features.(consumer := ConsumerIdle)
  {
  }

  lemma JoinNone(s: State)
    requires BatcherEndpoint(s) && BatcherCounters(s) && s.batcher.pc == BPop && !Open(s)
    requires Returned(s.features.consumer) && s.features.consumer.item.value.Holds?
    ensures BatcherCounters(PopFeature(s)) && Begun(PopFeature(s)) == Begun(s)
  {
    hide Flat;
  }

  lemma DrainCounters(s: State)
    requires Spsc.Inv(s.features) && BatcherEndpoint(s) && BatcherCounters(s) && s.batcher.pc == BDrain
    ensures BatcherCounters(DrainFeatures(s))
  {
    hide Spsc.Inv, Flat;
    ConsumerKnows(s.features);
    ConsumerRefines(s.features);
  }

  lemma PushCounters(s: State)
    requires Spsc.Inv(s.batches) && BatcherEndpoint(s) && BatcherCounters(s) && s.batcher.pc == BPush
    ensures BatcherCounters(PushBatch(s))
  {
    hide Spsc.Inv, Flat;
    ProducerRefines(s.batches);
    BegunKept(s);
  }

  // Delivering a batch moves it from the open batch to the ring's history and nowhere else.
  lemma BegunKept(s: State)
    requires Spsc.Inv(s.batches) && BatcherEndpoint(s) && s.batcher.pc == BPush
    ensures Begun(PushBatch(s)) == Begun(s)
  {
    hide Spsc.Inv;
    ProducerRefines(s.batches);
  }

  lemma OccupancyCounters(env: Env, s: State)
    requires Spsc.Inv(s.batches) && BatcherEndpoint(s) && BatcherCounters(s) && s.batcher.pc == BOccupancy
    ensures BatcherCounters(SampleOccupancy(env, s)) && Begun(SampleOccupancy(env, s)) == Begun(s)
  {
    hide Spsc.Inv, Flat, EmaStep;
    ProducerRefines(s.batches);
  }

  lemma StartCounters(env: Env, s: State)
    requires BatcherEndpoint(s) && BatcherCounters(s) && s.batcher.pc == BStart
    ensures BatcherCounters(StartBatch(env, s))
  {
    hide Flat, NextControl;
    FlatAppend(s.batches.pushed, StartBatch(env, s).batcher.batch);
  }

  // ---- Batches ----

  // Appending a start leaves earlier batches right.
  lemma BatchesExtend(c: Config, starts: seq<Start>, bs: seq<Batch>, start: Start)
    requires BatchesRight(c, starts, bs)
    ensures BatchesRight(c, starts + [start], bs)
  {
    hide ControlAfter;
    forall j | 0 <= j < |bs| ensures BatchRight(c, starts + [start], bs[j], j) {
      assert BatchRight(c, starts, bs[j], j);
      assert (starts + [start])[..j + 1] == starts[..j + 1];
    }
  }

  // The event a pop returns is one the source made: its pressure record exists and it is in the past.
  lemma ReturnedMade(env: Env, s: State)
    requires Spsc.Inv(s.features) && SourceEndpoint(s) && UsesRight(s.batcher.starts, s.source.made, s.clock)
    requires Returned(s.features.consumer)
    ensures s.features.consumer.item.value.Holds?
    ensures var v := s.features.consumer.item.value.value;
            v.used.generation <= |s.batcher.starts| && v.created <= s.clock
  {
    hide Spsc.Inv;
    ConsumerKnows(s.features);
    var k := s.features.popped - 1;
    assert UsedRight(s.batcher.starts, s.source.made[k].used, s.source.made[k].loaded);
  }

  lemma BatcherKeepsBatches(env: Env, s: State)
    requires Valid(env.config) && env.config.batchSlots >= 2 && Spsc.Inv(s.features) && Spsc.Inv(s.batches)
    requires SourceEndpoint(s) && UsesRight(s.batcher.starts, s.source.made, s.clock)
    requires Feedback(env, s) && BatcherEndpoint(s) && BatcherCounters(s) && BatcherData(env, s)
    ensures BatchesRight(env.config, BatcherStep(env, s).batcher.starts, Begun(BatcherStep(env, s)))
  {
    hide Spsc.Inv, Valid, EmaStep, NextControl, Flat, ControlAfter, StartsRight, Sampling, PopFeature, DrainFeatures,
         PushBatch, SampleOccupancy, StartBatch, BatchRight, BatcherCounters, BatchesRight;
    var w := s.batcher;
    if w.pc == BPop {
      PopBatches(env, s);
    } else if w.pc == BPush {
      BegunKept(s);
      PushKeeps(s);
    } else if w.pc == BOccupancy {
      OccupancyCounters(env, s);
      OccupancyKeeps(env, s);
    } else if w.pc == BStart {
      StartBatches(env, s);
    } else if w.pc == BDrain {
      DrainKeeps(s);
    } else if w.pc == BStore {
      BatchesExtend(env.config, w.starts, Begun(s), Start(w.raw, Stored(s.signal, w.ema, w.sampled)));
    }
  }

  lemma PushKeeps(s: State)
    ensures PushBatch(s).batcher.starts == s.batcher.starts
    ensures PushBatch(s).features == s.features
  {
  }

  lemma DrainKeeps(s: State)
    ensures DrainFeatures(s).batcher.starts == s.batcher.starts && Begun(DrainFeatures(s)) == Begun(s)
  {
  }

  lemma OccupancyKeeps(env: Env, s: State)
    ensures SampleOccupancy(env, s).batcher.starts == s.batcher.starts
  {
    hide EmaStep;
  }

  lemma BatchesSnoc(c: Config, starts: seq<Start>, bs: seq<Batch>, b: Batch)
    requires BatchesRight(c, starts, bs) && |bs| < |starts| && BatchRight(c, starts, b, |bs|)
    ensures BatchesRight(c, starts, bs + [b])
  {
    hide BatchRight;
  }

  // An event whose record is no newer than the open batch's may join it.
  lemma JoinRight(c: Config, starts: seq<Start>, bs: seq<Batch>, b: Batch, v: Snapshot)
    requires BatchesRight(c, starts, bs + [b])
    requires 0 < |b.items| < b.target && v.used.generation <= |bs| + 1
    ensures BatchesRight(c, starts, bs + [b.(items := b.items + [v])])
  {
    hide ControlAfter;
    var cs := bs + [b];
    forall j | 0 <= j < |bs| ensures BatchRight(c, starts, bs[j], j) {
      assert BatchRight(c, starts, cs[j], j);
    }
    assert BatchRight(c, starts, cs[|bs|], |bs|);
    BatchesSnoc(c, starts, bs, b.(items := b.items + [v]));
  }

  lemma PopBatches(env: Env, s: State)
    requires Spsc.Inv(s.features) && s.batcher.pc == BPop
    requires SourceEndpoint(s) && UsesRight(s.batcher.starts, s.source.made, s.clock)
    requires BatcherEndpoint(s) && BatcherCounters(s) && BatchesRight(env.config, s.batcher.starts, Begun(s))
    ensures BatchesRight(env.config, PopFeature(s).batcher.starts, Begun(PopFeature(s)))
  {
    hide Spsc.Inv, Flat, BatchRight, BatchesRight;
    if Returned(s.features.consumer) {
      ReturnedMade(env, s);
      JoinCounters(s);
      if Open(s) {
        JoinRight(env.config, s.batcher.starts, s.batches.pushed, s.batcher.batch,
                  s.features.consumer.item.value.value);
      }
    }
  }

  lemma StartBatches(env: Env, s: State)
    requires Valid(env.config) && env.config.batchSlots >= 2 && s.batcher.pc == BStart
    requires Feedback(env, s) && BatcherEndpoint(s) && BatcherCounters(s) && BatcherData(env, s)
    ensures BatchesRight(env.config, StartBatch(env, s).batcher.starts, Begun(StartBatch(env, s)))
  {
    hide Valid, EmaStep, NextControl, Flat, StartsRight, BatchRight, BatchesRight;
    var s' := StartBatch(env, s);
    if s'.batcher.pc != BDone {
      FirstRight(env, s);
      BatchesSnoc(env.config, s.batcher.starts, s.batches.pushed, s'.batcher.batch);
    }
  }

  lemma FirstRight(env: Env, s: State)
    requires Valid(env.config) && env.config.batchSlots >= 2 && s.batcher.pc == BStart
             && StartBatch(env, s).batcher.pc != BDone
    requires Feedback(env, s) && BatcherEndpoint(s) && BatcherCounters(s) && ControlRight(env.config, s) && HandRight(s)
    ensures |s.batches.pushed| < |s.batcher.starts|
    ensures BatchRight(env.config, s.batcher.starts, StartBatch(env, s).batcher.batch, |s.batches.pushed|)
  {
    hide Valid, EmaStep, NextControl, Flat, StartsRight;
    var starts := s.batcher.starts;
    SignalLast(env, s);
    TargetInRange(env.config, starts);
    assert starts[..|starts|] == starts;
  }

  lemma TargetInRange(c: Config, starts: seq<Start>)
    requires Valid(c)
    ensures 1 <= ControlAfter(c, starts).current <= MAX_BATCH
  {
    hide NextControl;
    ControlInRange(c, starts);
  }

  lemma SignalLast(env: Env, s: State)
    requires env.config.batchSlots >= 2 && Feedback(env, s) && |s.batcher.starts| > 0
    ensures s.signal == Last(s.batcher.starts).observation
  {
    hide EmaStep;
  }

  lemma BatcherKeepsFull(env: Env, s: State)
    requires Spsc.Inv(s.features) && Spsc.Inv(s.batches) && BatcherEndpoint(s) && BatcherCounters(s) && FullButTail(s)
    ensures FullButTail(BatcherStep(env, s))
  {
    hide Spsc.Inv, Flat, EmaStep, PopFeature, DrainFeatures, PushBatch, SampleOccupancy, StartBatch;
    var w := s.batcher;
    if w.pc == BPop {
      PopFull(s);
    } else if w.pc == BDrain {
      DrainKeeps(s);
      DrainTail(s);
    } else if w.pc == BPush {
      PushFull(s);
    } else if w.pc == BOccupancy {
      OccupancyCounters(env, s);
      OccupancyTail(env, s);
    } else if w.pc == BStart {
      StartFull(env, s);
    }
  }

  lemma DrainTail(s: State)
    ensures DrainFeatures(s).batcher.tail == s.batcher.tail && DrainFeatures(s).batches == s.batches
  {
  }

  lemma OccupancyTail(env: Env, s: State)
    requires Spsc.Inv(s.batches) && BatcherEndpoint(s) && s.batcher.pc == BOccupancy
    ensures SampleOccupancy(env, s).batcher.tail == s.batcher.tail
    ensures SampleOccupancy(env, s).batches.pushed == s.batches.pushed
  {
    hide EmaStep, Spsc.Inv;
    ProducerRefines(s.batches);
  }

  lemma PopFull(s: State)
    requires Spsc.Inv(s.features) && BatcherEndpoint(s) && FullButTail(s) && s.batcher.pc == BPop
    ensures FullButTail(PopFeature(s))
  {
    hide Spsc.Inv, ConsumerStep;
    DeliveredFull(s);
  }

  lemma DeliveredFull(s: State)
    requires FullButTail(s) && !s.batcher.tail
    ensures forall j | 0 <= j < |s.batches.pushed| :: |s.batches.pushed[j].items| >= s.batches.pushed[j].target
  {
    forall j | 0 <= j < |s.batches.pushed| ensures |s.batches.pushed[j].items| >= s.batches.pushed[j].target {
      assert Begun(s)[j] == s.batches.pushed[j];
    }
  }

  lemma StartFull(env: Env, s: State)
    requires BatcherEndpoint(s) && FullButTail(s) && s.batcher.pc == BStart
    ensures FullButTail(StartBatch(env, s))
  {
    hide NextControl;
    DeliveredFull(s);
  }

  lemma PushFull(s: State)
    requires Spsc.Inv(s.batches) && BatcherEndpoint(s) && FullButTail(s) && s.batcher.pc == BPush
    ensures FullButTail(PushBatch(s))
  {
    hide Spsc.Inv;
    ProducerRefines(s.batches);
    BegunKept(s);
  }

  lemma BatcherKeepsControl(env: Env, s: State)
    requires BatcherEndpoint(s) && BatcherCounters(s) && ControlRight(env.config, s)
    requires env.config.batchSlots >= 2 && Sampling(env.config, s.started, s.clock, s.signal, s.batcher)
    requires s.batches.closed ==> BatcherStep(env, s) == s
    ensures ControlRight(env.config, BatcherStep(env, s))
  {
    hide EmaStep, Flat, PopFeature, DrainFeatures, PushBatch, SampleOccupancy, StartBatch, NextControl,
         BatcherCounters, SlotFraction;
    var w := s.batcher;
    if w.pc == BPop {
      PopControl(env, s);
    } else if w.pc == BDrain {
      DrainControl(env, s);
    } else if w.pc == BPush {
      PushControl(env, s);
    } else if w.pc == BOccupancy {
      OccupancyControl(env, s);
    } else if w.pc == BStart {
      StartControl(env, s);
    } else if w.pc == BStore {
      assert (w.starts + [Start(w.raw, Stored(s.signal, w.ema, w.sampled))])[..|w.starts|] == w.starts;
    }
  }

  lemma PopControl(env: Env, s: State)
    requires ControlRight(env.config, s) && s.batcher.pc == BPop && !s.batches.closed
    ensures ControlRight(env.config, PopFeature(s))
  {
    hide ControlAfter, ConsumerStep;
  }

  lemma DrainControl(env: Env, s: State)
    requires ControlRight(env.config, s) && s.batcher.pc == BDrain && !s.batches.closed
    ensures ControlRight(env.config, DrainFeatures(s))
  {
    hide ControlAfter, ConsumerStep;
  }

  lemma PushControl(env: Env, s: State)
    requires ControlRight(env.config, s) && s.batcher.pc == BPush && !s.batches.closed
    ensures ControlRight(env.config, PushBatch(s))
  {
    hide ControlAfter;
  }

  lemma OccupancyControl(env: Env, s: State)
    requires ControlRight(env.config, s) && s.batcher.pc == BOccupancy && !s.batches.closed
    ensures ControlRight(env.config, SampleOccupancy(env, s))
  {
    hide ControlAfter, EmaStep;
  }

  lemma StartControl(env: Env, s: State)
    requires ControlRight(env.config, s) && s.batcher.pc == BStart && !s.batches.closed
    requires Sampling(env.config, s.started, s.clock, s.signal, s.batcher)
    ensures ControlRight(env.config, StartBatch(env, s))
  {
    hide NextControl, EmaStep, SlotFraction;
  }

  lemma BatcherKeepsHand(env: Env, s: State)
    requires Spsc.Inv(s.features) && Spsc.Inv(s.batches)
    requires SourceEndpoint(s) && UsesRight(s.batcher.starts, s.source.made, s.clock)
    requires BatcherEndpoint(s) && BatcherCounters(s) && HandRight(s)
    ensures HandRight(BatcherStep(env, s))
  {
    hide Spsc.Inv, EmaStep, Flat, PopFeature, DrainFeatures, PushBatch, SampleOccupancy, StartBatch;
    var w := s.batcher;
    if w.pc == BPop {
      PopHand(env, s);
    } else if w.pc == BDrain {
      DrainHand(s);
    } else if w.pc == BPush {
      PushHand(s);
    } else if w.pc == BOccupancy {
      OccupancyCounters(env, s);
      OccupancyHand(env, s);
    } else if w.pc == BStart {
      StartHand(env, s);
    }
  }

  lemma PopHand(env: Env, s: State)
    requires Spsc.Inv(s.features) && s.batcher.pc == BPop
    requires SourceEndpoint(s) && UsesRight(s.batcher.starts, s.source.made, s.clock)
    requires BatcherEndpoint(s) && BatcherCounters(s)
    ensures HandRight(PopFeature(s))
  {
    hide Spsc.Inv, Flat, ConsumerStep;
    if Returned(s.features.consumer) {
      ReturnedMade(env, s);
    }
  }

  lemma DrainHand(s: State)
    requires HandRight(s) && s.batcher.pc == BDrain
    ensures HandRight(DrainFeatures(s))
  {
  }

  lemma PushHand(s: State)
    requires HandRight(s) && s.batcher.pc == BPush
    ensures HandRight(PushBatch(s))
  {
  }

  lemma OccupancyHand(env: Env, s: State)
    requires HandRight(s) && s.batcher.pc == BOccupancy && Begun(SampleOccupancy(env, s)) == Begun(s)
    ensures HandRight(SampleOccupancy(env, s))
  {
    hide EmaStep, Begun;
  }

  lemma StartHand(env: Env, s: State)
    requires s.batcher.pc == BStart
    ensures HandRight(StartBatch(env, s))
  {
    hide NextControl;
  }

  // ---- Controller trace ----

  lemma BatcherKeepsTrace(env: Env, s: State)
    requires Spsc.Inv(s.features) && Spsc.Inv(s.batches) && BatcherEndpoint(s) && BatcherCounters(s) && TraceData(s)
    ensures TraceData(BatcherStep(env, s))
  {
    hide Spsc.Inv, EmaStep, Flat, RowOf, PopFeature, DrainFeatures, PushBatch, SampleOccupancy, StartBatch;
    var w := s.batcher;
    if w.pc == BPop {
      PopTrace(s);
    } else if w.pc == BDrain {
      DrainKeeps(s);
      DrainTrace(s);
    } else if w.pc == BPush {
      PushTrace(s);
    } else if w.pc == BOccupancy {
      OccupancyCounters(env, s);
      OccupancyTail(env, s);
      OccupancyTrace(env, s);
    } else if w.pc == BStart {
      StartTrace(env, s);
    }
  }

  lemma PopTrace(s: State)
    requires Spsc.Inv(s.features) && BatcherEndpoint(s) && TraceData(s) && s.batcher.pc == BPop
    ensures TraceData(PopFeature(s))
  {
    hide Spsc.Inv, RowOf;
    ConsumerKnows(s.features);
    ConsumerRefines(s.features);
  }

  lemma DrainTrace(s: State)
    requires s.batcher.pc == BDrain && TraceData(s) && Begun(DrainFeatures(s)) == Begun(s)
    ensures TraceData(DrainFeatures(s))
  {
    hide RowOf, Begun;
  }

  lemma PushTrace(s: State)
    requires Spsc.Inv(s.batches) && BatcherEndpoint(s) && TraceData(s) && s.batcher.pc == BPush
    ensures TraceData(PushBatch(s))
  {
    hide Spsc.Inv, RowOf;
    ProducerRefines(s.batches);
    BegunKept(s);
  }

  lemma OccupancyTrace(env: Env, s: State)
    requires s.batcher.pc == BOccupancy && TraceData(s) && Begun(SampleOccupancy(env, s)) == Begun(s)
    requires SampleOccupancy(env, s).batches.pushed == s.batches.pushed
    ensures TraceData(SampleOccupancy(env, s))
  {
    hide RowOf, Begun, EmaStep;
  }

  lemma StartTrace(env: Env, s: State)
    requires BatcherEndpoint(s) && TraceData(s) && s.batcher.pc == BStart
    ensures TraceData(StartBatch(env, s))
  {
    hide NextControl, RowOf;
  }
}
