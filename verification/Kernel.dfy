// The exact kernel of a variable-gain average, and its agreement with the per-key features.
module Kernel {
  import opened Options
  import opened Reals
  import opened Controllers
  import opened Features

  predicate ValidGains(gains: seq<real>) { forall i | 0 <= i < |gains| :: ValidGain(gains[i]) }

  // What is left of the initial state after the gains have been applied.
  function Survival(gains: seq<real>): real {
    if |gains| == 0 then 1.0 else (1.0 - gains[0]) * Survival(gains[1..])
  }

  // The share of each input in the final state: its own gain, damped by every later one.
  function Weights(gains: seq<real>): (w: seq<real>)
    ensures |w| == |gains|
  {
    if |gains| == 0 then [] else [gains[0] * Survival(gains[1..])] + Weights(gains[1..])
  }

  function Weighted(w: seq<real>, xs: seq<real>): real
    requires |w| == |xs|
  {
    if |w| == 0 then 0.0 else w[0] * xs[0] + Weighted(w[1..], xs[1..])
  }

  // None stands for the ValueError raised on a gain outside (0, 1].
  method ExactWeights(gains: seq<real>) returns (r: Option<(seq<real>, real)>)
    ensures r.Some? <==> ValidGains(gains)
    ensures r.Some? ==> r.value == (Weights(gains), Survival(gains))
  {
    if exists i | 0 <= i < |gains| :: !ValidGain(gains[i]) { return None; }
    var weights := seq(|gains|, _ => 0.0);
    var survival := 1.0;
    for index := |gains| downto 0
      invariant |weights| == |gains| && survival == Survival(gains[index..])
          && weights[index..] == Weights(gains[index..])
    {
      assert gains[index..][1..] == gains[index + 1..];
      weights := weights[index := gains[index] * survival];
      assert weights[index..] == [weights[index]] + weights[index + 1..];
      survival := survival * (1.0 - gains[index]);
    }
    r := Some((weights, survival));
  }

  // ---- The kernel is the recursion ----

  // Feeding the inputs through the averaging step one after another.
  function Ema(gains: seq<real>, xs: seq<real>, start: real): real
    requires |gains| == |xs|
  {
    if |gains| == 0 then start else Ema(gains[1..], xs[1..], EmaStep(gains[0], start, xs[0]))
  }

  // The weights and what survives of the start add up to one.
  lemma {:induction false} WeightsTotalOne(gains: seq<real>)
    ensures Sum(Weights(gains)) + Survival(gains) == 1.0
  {
    if |gains| > 0 {
      WeightsTotalOne(gains[1..]);
      Shares(gains[0], Survival(gains[1..]));
      assert Weights(gains)[1..] == Weights(gains[1..]);
    }
  }

  lemma Shares(a: real, s: real)
    ensures a * s + (1.0 - a) * s == s
  {
  }

  // The recursion equals the weighted sum of its inputs plus what survives of the start.
  lemma {:induction false} EmaIsKernel(gains: seq<real>, xs: seq<real>, start: real)
    requires |gains| == |xs|
    ensures Ema(gains, xs, start) == Survival(gains) * start + Weighted(Weights(gains), xs)
  {
    hide EmaStep;
    if |gains| > 0 {
      var rest := gains[1..];
      EmaIsKernel(rest, xs[1..], EmaStep(gains[0], start, xs[0]));
      Distribute(gains[0], start, xs[0], Survival(rest));
      assert Weights(gains)[1..] == Weights(rest);
    }
  }

  lemma Distribute(a: real, y: real, x: real, s: real)
    ensures s * EmaStep(a, y, x) == (1.0 - a) * s * y + a * s * x
  {
    assert s * (a * (x - y)) == a * s * x - a * s * y;
  }

  lemma {:induction false} EmaAppend(gains: seq<real>, xs: seq<real>, start: real, a: real, x: real)
    requires |gains| == |xs|
    ensures Ema(gains + [a], xs + [x], start) == EmaStep(a, Ema(gains, xs, start), x)
  {
    hide EmaStep;
    if |gains| == 0 {
      assert (gains + [a])[1..] == [] && (xs + [x])[1..] == [];
    } else {
      EmaAppend(gains[1..], xs[1..], EmaStep(gains[0], start, xs[0]), a, x);
      assert (gains + [a])[1..] == gains[1..] + [a] && (xs + [x])[1..] == xs[1..] + [x];
    }
  }

  // ---- Any interleaving of keys ----

  // One accepted update: the event and the gain it was extracted with.
  datatype Update = Update(event: RawEvent, gain: real)

  function After(log: seq<Update>): Users {
    if |log| == 0 then map[] else ExtractUsers(After(log[..|log| - 1]), log[|log| - 1].event, log[|log| - 1].gain)
  }

  // The key's own updates, in order.
  function Own(log: seq<Update>, k: Word): (r: seq<Update>)
  {
    if |log| == 0 then [] else Own(log[..|log| - 1], k) + if log[|log| - 1].event.key == k then [log[|log| - 1]] else []
  }

  function Gains(own: seq<Update>): seq<real> { seq(|own|, i requires 0 <= i < |own| => own[i].gain) }

  function BehaviorInputs(own: seq<Update>): seq<real> {
    seq(|own|, i requires 0 <= i < |own| => BehaviorWeight(own[i].event.behavior))
  }

  // Seconds since the key's previous event; zero for its first.
  function GapInputs(own: seq<Update>): seq<real> {
    seq(|own|, i requires 0 <= i < |own| =>
      if i == 0 then 0.0 else (own[i].event.ts - own[i - 1].event.ts) as real / 1000000000.0)
  }

  ghost predicate KernelHolds(u: UserState, own: seq<Update>) {
    && u.engagement == Ema(Gains(own), BehaviorInputs(own), 0.0)
    && u.gapEma == Ema(Gains(own), GapInputs(own), 0.0)
    && u.seen == (|own| > 0) && (|own| > 0 ==> u.last == own[|own| - 1].event.ts)
    && u.count == |own|
  }

  lemma AdvanceKeepsKernel(u: UserState, own: seq<Update>, update: Update)
    requires KernelHolds(u, own)
    ensures KernelHolds(Advance(u, update.event, update.gain), own + [update])
  {
    hide EmaStep, Ema, BehaviorWeight;
    var next := own + [update];
    EmaAppend(Gains(own), BehaviorInputs(own), 0.0, update.gain, BehaviorWeight(update.event.behavior));
    EmaAppend(Gains(own), GapInputs(own), 0.0, update.gain, Gap(u, update.event));
    assert Gains(next) == Gains(own) + [update.gain];
    assert BehaviorInputs(next) == BehaviorInputs(own) + [BehaviorWeight(update.event.behavior)];
    assert GapInputs(next) == GapInputs(own) + [Gap(u, update.event)];
  }

  lemma {:induction false} KeyFollowsOwnUpdates(log: seq<Update>, k: Word)
    ensures KernelHolds(StateOf(After(log), k), Own(log, k))
  {
    hide Advance, KernelHolds;
    if |log| > 0 {
      var before, update := log[..|log| - 1], log[|log| - 1];
      KeyFollowsOwnUpdates(before, k);
      if update.event.key == k {
        AdvanceKeepsKernel(StateOf(After(before), k), Own(before, k), update);
      } else {
        assert Own(log, k) == Own(before, k);
      }
    } else {
      NewUserKernel(Own(log, k));
    }
  }

  lemma NewUserKernel(own: seq<Update>)
    requires |own| == 0
    ensures KernelHolds(NEW_USER, own)
  {
  }

  // However the keys interleave and the gain varies, a key's two averages are the exact-kernel sums
  // over that key's own inputs.
  lemma FeaturesAreKernels(log: seq<Update>, k: Word)
    ensures var u, own := StateOf(After(log), k), Own(log, k);
            && u.engagement == Weighted(Weights(Gains(own)), BehaviorInputs(own))
            && u.gapEma == Weighted(Weights(Gains(own)), GapInputs(own))
            && u.count == |own|
  {
    hide Ema, Weights, Weighted, After, Own;
    var own := Own(log, k);
    KeyFollowsOwnUpdates(log, k);
    EmaIsKernel(Gains(own), BehaviorInputs(own), 0.0);
    EmaIsKernel(Gains(own), GapInputs(own), 0.0);
  }

  // With gains in (0, 1] an average never leaves a range that holds its start and its inputs.
  lemma {:induction false} EmaBounded(gains: seq<real>, xs: seq<real>, start: real, lo: real, hi: real)
    requires |gains| == |xs| && ValidGains(gains) && lo <= start <= hi && forall i | 0 <= i < |xs| :: lo <= xs[i] <= hi
    ensures lo <= Ema(gains, xs, start) <= hi
  {
    hide EmaStep;
    if |gains| > 0 {
      Convex(gains[0], start, xs[0], lo, hi);
      EmaBounded(gains[1..], xs[1..], EmaStep(gains[0], start, xs[0]), lo, hi);
    }
  }

  // Engagement stays between zero and the largest behavior weight.
  lemma EngagementBounded(log: seq<Update>, k: Word)
    requires forall i | 0 <= i < |log| :: ValidGain(log[i].gain)
    ensures 0.0 <= StateOf(After(log), k).engagement <= 5.0
  {
    hide Ema, After;
    var own := Own(log, k);
    KeyFollowsOwnUpdates(log, k);
    OwnGainsValid(log, k);
    EmaBounded(Gains(own), BehaviorInputs(own), 0.0, 0.0, 5.0);
  }

  lemma {:induction false} OwnGainsValid(log: seq<Update>, k: Word)
    requires forall i | 0 <= i < |log| :: ValidGain(log[i].gain)
    ensures forall i | 0 <= i < |Own(log, k)| :: ValidGain(Own(log, k)[i].gain)
  {
    if |log| > 0 { OwnGainsValid(log[..|log| - 1], k); }
  }
}
