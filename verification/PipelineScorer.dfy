// Steps of the scoring worker keep the invariant, and the other workers do not disturb it.
module PipelineScorer {
  import opened Spsc
  import opened Controllers
  import opened Features
  import opened Pipeline
  import opened PipelineInvariant

  // What a step of another worker leaves alone, from the scorer's point of view.
  predicate ScorerUntouched(s: State, s': State) {
    && s'.scorer == s.scorer && s.clock <= s'.clock
    && s'.batches.consumer == s.batches.consumer && s'.batches.popped == s.batches.popped
    && s.batches.pushed <= s'.batches.pushed
    && (s.batches.closed ==> s'.batches.closed && s'.batches.pushed == s.batches.pushed)
    && (s.cancelled ==> s'.cancelled)
  }

  lemma ScorerFrame(env: Env, s: State, s': State)
    requires ScorerInv(env, s) && ScorerUntouched(s, s')
    ensures ScorerInv(env, s')
  {
    hide Score, Flat, Expand;
    assert s'.batches.pushed[..s.scorer.completed] == s.batches.pushed[..s.scorer.completed];
    FlatPrefix(s.batches.pushed, s'.batches.pushed);
  }

  lemma ScorerRing(env: Env, s: State)
    requires Spsc.Inv(s.batches)
    ensures var s' := ScorerStep(env, s);
            && Spsc.Inv(s'.batches) && s'.batches.slots == s.batches.slots
            && s'.batches.pushed == s.batches.pushed && s'.batches.closed == s.batches.closed
            && s'.batches.producer == s.batches.producer
  {
    hide Score, Spsc.Inv;
    if s.scorer.pc == KPop || s.scorer.pc == KDrain {
      ConsumerRefines(s.batches);
    }
    ConsumerCall(s.batches, ConsumerIdle);
    ConsumerCall(s.batches, PopLoadRead);
    ConsumerCall(s.batches, DrainClosed);
  }

  lemma ScorerKeepsEndpoint(env: Env, s: State)
    requires Spsc.Inv(s.batches) && ScorerEndpoint(s) && s.failed == s.cancelled
    ensures ScorerEndpoint(ScorerStep(env, s))
  {
    hide Score, Spsc.Inv;
    ConsumerKnows(s.batches);
    if s.scorer.pc == KPop || s.scorer.pc == KDrain {
      ConsumerRefines(s.batches);
      ConsumerKnows(ConsumerStep(s.batches));
    }
  }

  lemma ScorerKeepsCounters(env: Env, s: State)
    requires Spsc.Inv(s.batches) && ScorerEndpoint(s) && ScorerCounters(s)
    ensures ScorerCounters(ScorerStep(env, s))
  {
    match s.scorer.pc {
      case KPop => PopCounted(env, s);
      case KDrain => DrainCounted(env, s);
      case _ => ItemCounted(env, s);
    }
  }

  lemma PopCounted(env: Env, s: State)
    requires Spsc.Inv(s.batches) && ScorerEndpoint(s) && ScorerCounters(s) && s.scorer.pc == KPop
    ensures ScorerCounters(ScorerStep(env, s))
  {
    hide Flat, Spsc.Inv;
    ConsumerKnows(s.batches);
    ConsumerRefines(s.batches);
  }

  lemma DrainCounted(env: Env, s: State)
    requires Spsc.Inv(s.batches) && ScorerEndpoint(s) && ScorerCounters(s) && s.scorer.pc == KDrain
    ensures ScorerCounters(ScorerStep(env, s))
  {
    hide Flat, Spsc.Inv;
    ConsumerRefines(s.batches);
  }

  lemma ItemCounted(env: Env, s: State)
    requires ScorerEndpoint(s) && ScorerCounters(s) && s.scorer.pc != KPop && s.scorer.pc != KDrain
    ensures ScorerCounters(ScorerStep(env, s))
  {
    hide Score, Flat;
    if s.scorer.pc == KItem && s.scorer.i == |s.scorer.current.value.items| {
      var done := s.batches.pushed[..s.scorer.completed];
      assert s.batches.pushed[..s.scorer.completed + 1] == done + [s.scorer.current.value];
      FlatAppend(done, s.scorer.current.value);
    }
  }

  lemma ScorerKeepsData(env: Env, s: State)
    requires ScorerEndpoint(s) && ScorerCounters(s) && ScorerData(env, s)
    requires s.batches.pushed == ScorerStep(env, s).batches.pushed
    requires s.scorer.pc == KClock ==> BatchObserved(s, s.scorer.current.value)
    ensures ScorerData(env, ScorerStep(env, s))
  {
    if s.scorer.pc == KClock {
      RowAdded(env, s);
    } else {
      RowsKept(env, s);
    }
  }

  lemma RowAdded(env: Env, s: State)
    requires ScorerEndpoint(s) && ScorerCounters(s) && ScorerData(env, s)
    requires s.scorer.pc == KClock && BatchObserved(s, s.scorer.current.value)
    ensures ScorerData(env, ScorerStep(env, s))
  {
    hide Score, Flat, Expand;
    ExpandAt(s.batches.pushed, s.scorer.completed, s.scorer.i);
  }

  lemma RowsKept(env: Env, s: State)
    requires ScorerEndpoint(s) && ScorerData(env, s) && s.scorer.pc != KClock
    requires s.batches.pushed == ScorerStep(env, s).batches.pushed
    ensures ScorerData(env, ScorerStep(env, s))
  {
    hide Score, Expand, ConsumerStep, RowRight;
    ScoresItem(env, s);
    var s' := ScorerStep(env, s);
    forall k | 0 <= k < |s'.scorer.rows|
      ensures RowRight(env, s'.clock, s'.scorer.rows[k], Expand(s'.batches.pushed)[k])
    {
      assert RowRight(env, s.clock, s.scorer.rows[k], Expand(s.batches.pushed)[k]);
    }
  }

  lemma ScoresItem(env: Env, s: State)
    requires s.scorer.pc != KClock && ScorerEndpoint(s)
    ensures var s' := ScorerStep(env, s); var w := s'.scorer;
            && w.rows == s.scorer.rows && s'.clock == s.clock
            && (w.pc == KClock ==> w.current.Some? && w.i < |w.current.value.items|
                                   && w.score == Score(env.num, env.model, w.current.value.items[w.i].x))
  {
    hide Score, ConsumerStep;
  }

  // Everything in the batch happened before now.
  predicate BatchObserved(s: State, b: Batch) {
    b.start.sampled <= s.clock && forall t | 0 <= t < |b.items| :: b.items[t].loaded <= s.clock
  }

  lemma CurrentObserved(env: Env, s: State)
    requires Invariant(env, s) && s.scorer.pc == KClock
    ensures BatchObserved(s, s.scorer.current.value)
  {
    hide Score, Expand, GoodHistory, AlphaAfter, UsersAfter, EmaStep, ControlAfter, Spsc.Inv;
    var j, b := s.scorer.completed, s.scorer.current.value;
    assert BatchRight(env.config, s.batcher.starts, Begun(s)[j], j);
    assert StartRight(env, s.started, s.clock, s.batcher.starts, j);
    forall t | 0 <= t < |b.items| ensures b.items[t].loaded <= s.clock {
      ItemMade(env, s, j, t);
    }
  }

  // Every event in a batch is an event the source made.
  lemma ItemMade(env: Env, s: State, j: nat, t: nat)
    requires SourceEndpoint(s) && UsesRight(s.batcher.starts, s.source.made, s.clock) && BatcherCounters(s)
    requires j < |Begun(s)| && t < |Begun(s)[j].items|
    ensures Begun(s)[j].items[t] in s.source.made
    ensures Begun(s)[j].items[t].loaded <= s.clock
  {
    hide NextAlpha;
    var b := Begun(s);
    ExpandAt(b, j, t);
    ExpandFlat(b);
    var k := |Flat(b[..j])| + t;
    assert Flat(b)[k] == b[j].items[t];
    assert (Flat(b) + InHand(s))[k] == s.source.made[k];
  }
}
