// Steps of the source worker keep the invariant, and the other workers do not disturb it.
module PipelineSource {
  import opened Spsc
  import opened Features
  import opened Pipeline
  import opened PipelineInvariant

  // What a step of another worker leaves alone, from the source's point of view.
  predicate SourceUntouched(s: State, s': State) {
    && s'.source == s.source && s'.started == s.started && s.clock <= s'.clock
    && s'.features.producer == s.features.producer && s'.features.pushed == s.features.pushed
    && s'.features.closed == s.features.closed
    && (s.cancelled ==> s'.cancelled) && s'.failed == s'.cancelled
    && s.batcher.starts <= s'.batcher.starts
  }

  lemma SourceFrame(env: Env, s: State, s': State)
    requires SourceInv(env, s) && SourceUntouched(s, s')
    ensures SourceInv(env, s')
  {
  }

  // What one source step does to the feature ring.
  ghost predicate FeatureStep(q: Ring<Snapshot>, q': Ring<Snapshot>) {
    && Spsc.Inv(q') && q'.slots == q.slots && q'.popped == q.popped && q'.consumer == q.consumer
    && q.pushed <= q'.pushed && (q.closed ==> q' == q)
  }

  lemma SourceRing(env: Env, s: State)
    requires Spsc.Inv(s.features) && SourceEndpoint(s)
    ensures FeatureStep(s.features, SourceStep(env, s).features)
  {
    hide Spsc.Inv, Admissible, ExtractVector, ExtractUsers, NextAlpha, ProducerStep;
    if s.source.pc == SPush {
      ProducerRefines(s.features);
    } else if s.source.pc == SClose {
      OwnClose(s.features);
    }
    ProducerCall(s.features, ProducerIdle);
    ProducerCallAny(s.features);
  }

  lemma ProducerCallAny(q: Ring<Snapshot>)
    requires Spsc.Inv(q)
    ensures forall v: Snapshot :: Spsc.Inv(q.(producer := LoadClosed(v)))
  {
    hide Spsc.Inv;
    forall v: Snapshot ensures Spsc.Inv(q.(producer := LoadClosed(v))) {
      ProducerCall(q, LoadClosed(v));
    }
  }

  lemma SourceKeepsEndpoint(env: Env, s: State)
    requires Spsc.Inv(s.features) && SourceEndpoint(s)
    ensures SourceEndpoint(SourceStep(env, s))
  {
    hide Spsc.Inv, Admissible, ExtractVector, ExtractUsers, NextAlpha;
    if s.source.pc == SPush {
      ProducerRefines(s.features);
    }
  }

  lemma SourceKeepsCursor(env: Env, s: State)
    requires SourceEndpoint(s) && SourceCursor(env, s)
    ensures SourceCursor(env, SourceStep(env, s))
  {
    hide Admissible, ExtractVector, ExtractUsers, NextAlpha, ProducerStep;
    ProducerNeverCloses(s.features);
  }

  lemma ProducerNeverCloses<T>(q: Ring<T>)
    ensures ProducerStep(q).closed == q.closed
  {
  }

  // The record a source step may load right now.
  predicate SignalRight(s: State) {
    UsedRight(s.batcher.starts, s.signal, s.clock) && s.signal.generation == |s.batcher.starts|
  }

  lemma FeedbackSignal(env: Env, s: State)
    requires env.config.batchSlots >= 2 && Feedback(env, s)
    ensures SignalRight(s)
  {
    var starts := s.batcher.starts;
    if |starts| > 0 {
      assert StartRight(env, s.started, s.clock, starts, |starts| - 1);
    }
  }

  lemma SourceKeepsData(env: Env, s: State)
    requires SourceCursor(env, s) && SourceData(env, s) && SignalRight(s) && s.started <= s.clock
    ensures SourceData(env, SourceStep(env, s))
  {
    if s.source.pc == SLoaded {
      ExtractKeepsData(env, s);
    } else {
      assert UsesRight(s.batcher.starts, s.source.made, s.clock);
      ObservingStep(env, s);
      HistoryKept(env, s);
    }
  }

  lemma HistoryKept(env: Env, s: State)
    requires History(env, s.started, s.source) && s.source.pc != SLoaded
    ensures var s' := SourceStep(env, s);
            History(env, s.started, s'.source) && s'.source.made == s.source.made && s'.started == s.started
            && s'.batcher == s.batcher && s'.clock == s.clock
  {
    hide Extract, AlphaAfter, UsersAfter, GoodHistory;
  }

  lemma ObservingStep(env: Env, s: State)
    requires SignalRight(s) && s.started <= s.clock && s.source.pc != SLoaded
    requires UsesRight(s.batcher.starts, s.source.made, s.clock)
    requires Observing(s.started, s.clock, s.batcher.starts, s.source)
    ensures var s' := SourceStep(env, s); Observing(s.started, s.clock, s.batcher.starts, s'.source)
  {
    if |s.source.made| > 0 {
      assert UsedRight(s.batcher.starts, Last(s.source.made).used, Last(s.source.made).loaded);
    }
  }

  lemma ExtractKeepsData(env: Env, s: State)
    requires s.source.pc == SLoaded && SourceCursor(env, s) && SourceData(env, s)
    ensures SourceData(env, Extract(env, s))
  {
    var s' := Extract(env, s);
    var w, w' := s.source, s'.source;
    if |w'.made| > |w.made| {
      ExtractExtendsHistory(env, s);
      ExtractExtendsUses(env, s);
    }
  }

  lemma ExtractExtendsUses(env: Env, s: State)
    requires s.source.pc == SLoaded && |Extract(env, s).source.made| > |s.source.made|
    requires UsesRight(s.batcher.starts, s.source.made, s.clock)
    requires Observing(s.started, s.clock, s.batcher.starts, s.source)
    ensures UsesRight(s.batcher.starts, Extract(env, s).source.made, s.clock)
    ensures Extract(env, s).source.pc == SPush
  {
  }

  lemma ExtractExtendsHistory(env: Env, s: State)
    requires s.source.pc == SLoaded && SourceCursor(env, s) && |Extract(env, s).source.made| > |s.source.made|
    requires History(env, s.started, s.source) && Observing(s.started, s.clock, s.batcher.starts, s.source)
    ensures History(env, s.started, Extract(env, s).source)
  {
    hide Extract, GoodHistory, AlphaAfter, UsersAfter, Follows, NextAlpha, ExtractUsers;
    if |s.source.made| > 0 { LastEvent(env, s.started, s.source.made); }
    ExtractAppends(env, s);
    HistoryGrows(env, s.started, s.source.made, Last(Extract(env, s).source.made));
  }

  // An extraction adds one snapshot, computed from the history before it.
  lemma ExtractAppends(env: Env, s: State)
    requires s.source.pc == SLoaded && SourceCursor(env, s) && |Extract(env, s).source.made| > |s.source.made|
    requires History(env, s.started, s.source) && Observing(s.started, s.clock, s.batcher.starts, s.source)
    requires |s.source.made| > 0 ==> Last(s.source.made).event == env.events[|s.source.made| - 1]
    ensures var w, w' := s.source, Extract(env, s).source; var m := Last(w'.made);
            && w'.made == w.made + [m] && Follows(env, s.started, w.made, m)
            && w'.alpha == NextAlpha(env.config, w.alpha, m.used) && w'.users == ExtractUsers(w.users, m.event, m.alpha)
  {
    hide GoodHistory, AlphaAfter, UsersAfter, NextAlpha, ExtractUsers, Admissible, ExtractVector;
  }

  // The gain and feature state one more snapshot leaves behind.
  lemma HistoryGrows(env: Env, started: nat, xs: seq<Snapshot>, m: Snapshot)
    requires GoodHistory(env, started, xs) && Follows(env, started, xs, m)
    ensures GoodHistory(env, started, xs + [m])
    ensures AlphaAfter(env.config, xs + [m]) == NextAlpha(env.config, AlphaAfter(env.config, xs), m.used)
    ensures UsersAfter(xs + [m]) == ExtractUsers(UsersAfter(xs), m.event, m.alpha)
  {
    hide Follows, NextAlpha, ExtractUsers;
    assert (xs + [m])[..|xs|] == xs;
  }

  lemma LastEvent(env: Env, started: nat, xs: seq<Snapshot>)
    requires GoodHistory(env, started, xs) && |xs| > 0
    ensures |xs| <= |env.events| && Last(xs).event == env.events[|xs| - 1]
  {
  }
}
