// The two-sided paired sign-flip test over exact reals, listed or sampled.
module SignFlip {
  import opened Options
  import opened Reals

  type Signs = seq<int>

  // Sign vectors in the order itertools.product((-1, 1), repeat=n) yields them.
  function Product(n: nat): seq<Signs> {
    if n == 0 then [[]] else Prepend(-1, Product(n - 1)) + Prepend(1, Product(n - 1))
  }

  function Prepend(s: int, xs: seq<Signs>): (r: seq<Signs>)
    ensures |r| == |xs|
  {
    seq(|xs|, i requires 0 <= i < |xs| => [s] + xs[i])
  }

  predicate IsSigns(t: Signs, n: nat) {
    |t| == n && forall i | 0 <= i < n :: t[i] == 1 || t[i] == -1
  }

  function Pow2(n: nat): (r: nat)
    ensures r > 0
  {
    if n == 0 then 1 else 2 * Pow2(n - 1)
  }

  function Signed(x: real, t: int): real { x * t as real }

  // Sum of x * t over paired entries.
  function SignedSum(d: seq<real>, t: Signs): real {
    if |d| == 0 || |t| == 0 then 0.0 else Signed(d[0], t[0]) + SignedSum(d[1..], t[1..])
  }

  function Mean(d: seq<real>): real { if |d| == 0 then 0.0 else Sum(d) / |d| as real }

  function SignedMean(d: seq<real>, t: Signs): real { if |d| == 0 then 0.0 else SignedSum(d, t) / |d| as real }

  function Abs(x: real): real { if x < 0.0 then -x else x }

  function Tolerance(ulp: real -> real, observed: real): real {
    var a, b := ulp(Abs(observed)) * 8.0, Abs(observed) * 0.000000000001;
    if a < b then b else a
  }

  predicate Extreme(ulp: real -> real, value: real, observed: real) {
    Abs(value) >= Abs(observed) - Tolerance(ulp, observed)
  }

  function CountIf(xs: seq<Signs>, p: Signs -> bool): nat {
    if |xs| == 0 then 0 else (if p(xs[0]) then 1 else 0) + CountIf(xs[1..], p)
  }

  // The p-value as a specification: the share of sign vectors whose mean is extreme.
  function PValue(ulp: real -> real, d: seq<real>): real {
    CountIf(Product(|d|), IsExtreme(ulp, d, Mean(d))) as real / Pow2(|d|) as real
  }

  // Sign vectors whose mean counts as extreme beside the observed one.
  function IsExtreme(ulp: real -> real, d: seq<real>, observed: real): Signs -> bool {
    (t: Signs) => Extreme(ulp, SignedMean(d, t), observed)
  }

  // Sign vectors whose mean is at least as far from zero as that of s.
  function AsFar(d: seq<real>, s: Signs): Signs -> bool {
    (t: Signs) => Abs(SignedMean(d, t)) >= Abs(SignedMean(d, s))
  }

  // Sign vectors that flip d into a sample the test rejects at level alpha.
  ghost function Rejects(ulp: real -> real, d: seq<real>, alpha: real): Signs -> bool {
    (s: Signs) => |s| == |d| && PValue(ulp, Flip(d, s)) <= alpha
  }

  function Flip(d: seq<real>, t: Signs): seq<real>
    requires |t| == |d|
  {
    seq(|d|, i requires 0 <= i < |d| => Signed(d[i], t[i]))
  }

  // ---- Sampled sign vectors ----

  // One draw: the generator's next choices, one per unit.
  function Sampled(coin: nat -> bool, n: nat, k: nat): Signs {
    seq(n, i requires 0 <= i < n => if coin(k * n + i) then 1 else -1)
  }

  function Samples(coin: nat -> bool, n: nat, draws: nat): seq<Signs> {
    seq(draws, k requires 0 <= k < draws => Sampled(coin, n, k))
  }

  // The plus-one p-value of a list of draws.
  function SampledPValue(ulp: real -> real, d: seq<real>, draws: seq<Signs>): real {
    (CountIf(draws, IsExtreme(ulp, d, Mean(d))) + 1) as real / (|draws| + 1) as real
  }

  // ---- The test as the script runs it ----

  datatype Inference = Inference(effect: real, p: real, exact: bool)

  predicate ValidSettings(draws: int, alpha: real) { 1000 <= draws <= 1000000 && 0.0 < alpha < 1.0 }

  // Effect and raw p-value; None stands for the error on unpaired or too few units or invalid settings.
  // Up to sixteen units every sign vector is listed; beyond that they are sampled. `coin` stands for the
  // seeded generator's successive choices.
  method SignFlipTest(ulp: real -> real, coin: nat -> bool, a: seq<real>, b: seq<real>, draws: int, alpha: real)
    returns (r: Option<Inference>)
    ensures r.Some? <==> |a| == |b| && |a| >= 2 && 1000 <= draws <= 1000000 && 0.0 < alpha < 1.0
    ensures r.Some? ==>
      var d := Differences(a, b);
      r.value == if |d| <= 16 then Inference(Mean(d), PValue(ulp, d), true)
                 else Inference(Mean(d), SampledPValue(ulp, d, Samples(coin, |d|, draws)), false)
  {
    hide Sampled, Product, Mean, IsExtreme, CountIf, Pow2;
    if |a| != |b| || |a| < 2 { return None; }
    var d := Differences(a, b);
    var effect := Mean(d);
    if !ValidSettings(draws, alpha) { return None; }
    if |d| <= 16 {
      var extreme := CountExtreme(ulp, d, Product(|d|), effect);
      r := Some(Inference(effect, extreme as real / Pow2(|d|) as real, true));
    } else {
      var extreme := CountExtreme(ulp, d, Samples(coin, |d|, draws), effect);
      r := Some(Inference(effect, (extreme + 1) as real / (draws + 1) as real, false));
    }
  }

  method CountExtreme(ulp: real -> real, d: seq<real>, vectors: seq<Signs>, effect: real) returns (extreme: nat)
    ensures extreme == CountIf(vectors, IsExtreme(ulp, d, effect))
  {
    extreme := 0;
    var k := 0;
    ghost var test := IsExtreme(ulp, d, effect);
    while k < |vectors|
      invariant 0 <= k <= |vectors| && extreme + CountIf(vectors[k..], test) == CountIf(vectors, test)
    {
      if Extreme(ulp, SignedMean(d, vectors[k]), effect) { extreme := extreme + 1; }
      assert vectors[k..][1..] == vectors[k + 1..];
      k := k + 1;
    }
  }

  function Differences(a: seq<real>, b: seq<real>): seq<real>
    requires |a| == |b|
  {
    seq(|a|, i requires 0 <= i < |a| => a[i] - b[i])
  }

  // ---- Counting ----

  lemma {:induction false} CountAppend(xs: seq<Signs>, ys: seq<Signs>, p: Signs -> bool)
    ensures CountIf(xs + ys, p) == CountIf(xs, p) + CountIf(ys, p)
  {
    if |xs| == 0 {
      assert xs + ys == ys;
    } else {
      assert (xs + ys)[1..] == xs[1..] + ys;
      CountAppend(xs[1..], ys, p);
    }
  }

  lemma {:induction false} CountImplies(xs: seq<Signs>, p: Signs -> bool, q: Signs -> bool)
    requires forall t | t in xs :: p(t) ==> q(t)
    ensures CountIf(xs, p) <= CountIf(xs, q)
  {
    if |xs| > 0 { CountImplies(xs[1..], p, q); }
  }

  lemma {:induction false} CountPrepend(s: int, xs: seq<Signs>, p: Signs -> bool, q: Signs -> bool)
    requires forall t | t in xs :: p([s] + t) == q(t)
    ensures CountIf(Prepend(s, xs), p) == CountIf(xs, q)
  {
    if |xs| > 0 {
      assert Prepend(s, xs)[1..] == Prepend(s, xs[1..]);
      assert xs[0] in xs;
      CountPrepend(s, xs[1..], p, q);
    }
  }

  lemma {:induction false} ProductSigns(n: nat)
    ensures forall t | t in Product(n) :: IsSigns(t, n)
  {
    if n > 0 {
      ProductSigns(n - 1);
      var all := Product(n - 1);
      forall t | t in Product(n) ensures IsSigns(t, n) {
        var s, k :| (s == -1 || s == 1) && 0 <= k < |all| && t == Prepend(s, all)[k];
        assert all[k] in all;
      }
    }
  }

  lemma {:induction false} ProductSize(n: nat)
    ensures |Product(n)| == Pow2(n) && Pow2(n) > 0
  {
    if n > 0 { ProductSize(n - 1); }
  }

  function Times(s: Signs, t: Signs): Signs
    requires |s| == |t|
  {
    seq(|s|, i requires 0 <= i < |s| => s[i] * t[i])
  }

  function Starting(x: int, p: Signs -> bool): Signs -> bool { (t: Signs) => p([x] + t) }

  lemma CountSplit(n: nat, p: Signs -> bool)
    requires n > 0
    ensures CountIf(Product(n), p) == CountIf(Product(n - 1), Starting(-1, p)) + CountIf(Product(n - 1), Starting(1, p))
  {
    var all := Product(n - 1);
    CountAppend(Prepend(-1, all), Prepend(1, all), p);
    CountPrepend(-1, all, p, Starting(-1, p));
    CountPrepend(1, all, p, Starting(1, p));
  }

  // Multiplying every sign vector by a fixed one only reorders them.
  lemma {:induction false} CountTwisted(s: Signs, p: Signs -> bool, q: Signs -> bool)
    requires IsSigns(s, |s|) && forall t | IsSigns(t, |s|) :: q(t) == p(Times(s, t))
    ensures CountIf(Product(|s|), q) == CountIf(Product(|s|), p)
  {
    hide CountIf, Product;
    var n := |s|;
    if n == 0 {
      OnlyEmpty(p, q);
    } else {
      var rest := s[1..];
      forall t | IsSigns(t, n - 1)
        ensures Starting(-1, q)(t) == Starting(-s[0], p)(Times(rest, t))
                && Starting(1, q)(t) == Starting(s[0], p)(Times(rest, t))
      {
        assert Times(s, [-1] + t) == [-s[0]] + Times(rest, t);
        assert Times(s, [1] + t) == [s[0]] + Times(rest, t);
      }
      CountTwisted(rest, Starting(-s[0], p), Starting(-1, q));
      CountTwisted(rest, Starting(s[0], p), Starting(1, q));
      CountSplit(n, p);
      CountSplit(n, q);
    }
  }

  lemma OnlyEmpty(p: Signs -> bool, q: Signs -> bool)
    requires q([]) == p(Times([], []))
    ensures CountIf(Product(0), q) == CountIf(Product(0), p)
  {
    assert Times([], []) == [];
  }

  lemma {:induction false} FlipTwice(d: seq<real>, s: Signs, t: Signs)
    requires |s| == |d| == |t|
    ensures SignedSum(Flip(d, s), t) == SignedSum(d, Times(s, t))
  {
    hide Signed;
    if |d| > 0 {
      var e, u := Flip(d, s), Times(s, t);
      assert e[1..] == Flip(d[1..], s[1..]);
      assert u[1..] == Times(s[1..], t[1..]);
      FlipTwice(d[1..], s[1..], t[1..]);
      Associative(d[0], s[0], t[0]);
      assert SignedSum(e, t) == Signed(e[0], t[0]) + SignedSum(e[1..], t[1..]);
      assert SignedSum(d, u) == Signed(d[0], u[0]) + SignedSum(d[1..], u[1..]);
    }
  }

  lemma Associative(x: real, a: int, b: int)
    ensures Signed(Signed(x, a), b) == Signed(x, a * b)
  {
    assert (a * b) as real == a as real * b as real;
  }

  lemma {:induction false} FlipMean(d: seq<real>, s: Signs)
    requires |s| == |d|
    ensures Sum(Flip(d, s)) == SignedSum(d, s)
  {
    hide Signed;
    if |d| > 0 {
      var e := Flip(d, s);
      assert e[1..] == Flip(d[1..], s[1..]);
      FlipMean(d[1..], s[1..]);
      assert Sum(e) == e[0] + Sum(e[1..]);
    }
  }

  // Some listed vector satisfying p has the least statistic of all that do.
  lemma {:induction false} Least(xs: seq<Signs>, p: Signs -> bool, m: Signs -> real) returns (s: Signs)
    requires CountIf(xs, p) > 0
    ensures s in xs && p(s) && forall t | t in xs && p(t) :: m(s) <= m(t)
  {
    if |xs| == 1 || CountIf(xs[1..], p) == 0 {
      s := xs[0];
      forall t | t in xs && p(t) ensures m(s) <= m(t) {
        if t != xs[0] {
          NoneCounted(xs[1..], p, t);
        }
      }
    } else {
      s := Least(xs[1..], p, m);
      if p(xs[0]) && m(xs[0]) < m(s) {
        s := xs[0];
      }
    }
  }

  lemma {:induction false} NoneCounted(xs: seq<Signs>, p: Signs -> bool, t: Signs)
    requires t in xs && p(t)
    ensures CountIf(xs, p) > 0
  {
    if xs[0] != t { NoneCounted(xs[1..], p, t); }
  }

  // ---- Validity ----

  ghost predicate Nonnegative(ulp: real -> real) { forall x :: ulp(x) >= 0.0 }

  // Flipping the sample by s and then by t is flipping it by their product.
  lemma FlippedExtreme(ulp: real -> real, d: seq<real>, s: Signs, t: Signs)
    requires |s| == |d| == |t|
    ensures IsExtreme(ulp, Flip(d, s), Mean(Flip(d, s)))(t) == IsExtreme(ulp, d, SignedMean(d, s))(Times(s, t))
  {
    hide SignedSum, Sum, Tolerance;
    FlipTwice(d, s, t);
    FlipMean(d, s);
  }

  lemma FarIsExtreme(ulp: real -> real, d: seq<real>, s: Signs, t: Signs)
    requires Nonnegative(ulp) && AsFar(d, s)(t)
    ensures IsExtreme(ulp, d, SignedMean(d, s))(t)
  {
    hide SignedSum, Tolerance;
    ToleranceNonnegative(ulp, SignedMean(d, s));
  }

  // The p-value of a flipped sample counts the sign vectors at least as extreme as the flip itself:
  // the tolerance can only add to that count.
  lemma PValueCounts(ulp: real -> real, d: seq<real>, s: Signs)
    requires Nonnegative(ulp) && IsSigns(s, |d|)
    ensures PValue(ulp, Flip(d, s)) * Pow2(|d|) as real >= CountIf(Product(|d|), AsFar(d, s)) as real
  {
    hide Product, CountIf, IsExtreme, AsFar, SignedMean, Mean, Times, Nonnegative, PValue, Pow2;
    var n, e := |d|, Flip(d, s);
    var extreme, twisted := IsExtreme(ulp, d, SignedMean(d, s)), IsExtreme(ulp, e, Mean(e));
    forall t | IsSigns(t, n) ensures twisted(t) == extreme(Times(s, t)) { FlippedExtreme(ulp, d, s, t); }
    CountTwisted(s, extreme, twisted);
    forall t | t in Product(n) && AsFar(d, s)(t) ensures extreme(t) { FarIsExtreme(ulp, d, s, t); }
    CountImplies(Product(n), AsFar(d, s), extreme);
    PValueIsShare(ulp, e);
  }

  lemma PValueIsShare(ulp: real -> real, d: seq<real>)
    ensures PValue(ulp, d) * Pow2(|d|) as real == CountIf(Product(|d|), IsExtreme(ulp, d, Mean(d))) as real
  {
    hide CountIf, Product, IsExtreme;
    CancelDivision(CountIf(Product(|d|), IsExtreme(ulp, d, Mean(d))) as real, Pow2(|d|) as real);
  }

  lemma ToleranceNonnegative(ulp: real -> real, x: real)
    requires Nonnegative(ulp)
    ensures Tolerance(ulp, x) >= 0.0
  {
    assert ulp(Abs(x)) >= 0.0;
  }

  lemma CancelDivision(x: real, y: real)
    requires y > 0.0
    ensures x / y * y == x
  {
  }

  // Under the sharp null every sign flip of d is equally likely; at most a share alpha of them has a
  // p-value of alpha or less. This holds for every sample, tolerance and level.
  lemma ExactTestIsValid(ulp: real -> real, d: seq<real>, alpha: real)
    requires Nonnegative(ulp) && alpha >= 0.0
    ensures CountIf(Product(|d|), Rejects(ulp, d, alpha)) as real <= alpha * Pow2(|d|) as real
  {
    hide PValue, Product, CountIf, SignedMean, Pow2, Abs, AsFar, Rejects, Nonnegative, Flip;
    var n, rejects := |d|, Rejects(ulp, d, alpha);
    ProductSigns(n);
    ProductSize(n);
    if CountIf(Product(n), rejects) > 0 {
      var s := Least(Product(n), rejects, t => Abs(SignedMean(d, t)));
      forall t | t in Product(n) && rejects(t) ensures AsFar(d, s)(t) { FartherIs(d, s, t); }
      CountImplies(Product(n), rejects, AsFar(d, s));
      PValueCounts(ulp, d, s);
      RejectsMeans(ulp, d, alpha, s);
      Monotone(PValue(ulp, Flip(d, s)), alpha, Pow2(n) as real);
    } else {
      Monotone(0.0, alpha, Pow2(n) as real);
    }
  }

  lemma FartherIs(d: seq<real>, s: Signs, t: Signs)
    requires Abs(SignedMean(d, s)) <= Abs(SignedMean(d, t))
    ensures AsFar(d, s)(t)
  {
    hide SignedMean, Abs;
  }

  lemma RejectsMeans(ulp: real -> real, d: seq<real>, alpha: real, s: Signs)
    requires Rejects(ulp, d, alpha)(s)
    ensures |s| == |d| && PValue(ulp, Flip(d, s)) <= alpha
  {
    hide PValue;
  }

  lemma Monotone(x: real, y: real, k: real)
    requires x <= y && k >= 0.0
    ensures x * k <= y * k
  {
  }

  // Swapping the two arms leaves the p-value unchanged.
  lemma ArmsSwap(ulp: real -> real, a: seq<real>, b: seq<real>)
    requires |a| == |b|
    ensures PValue(ulp, Differences(a, b)) == PValue(ulp, Differences(b, a))
  {
    hide Product, CountIf, SignedSum, Sum, Tolerance, Pow2;
    var d, e, n := Differences(a, b), Differences(b, a), |a|;
    NegatedSum(d, e);
    var p, q := IsExtreme(ulp, d, Mean(d)), IsExtreme(ulp, e, Mean(e));
    forall t | t in Product(n) ensures p(t) == q(t) {
      NegatedSignedSum(d, e, t);
      NegatedQuotient(SignedSum(d, t), n);
      NegatedQuotient(Sum(d), n);
      assert Abs(SignedMean(e, t)) == Abs(SignedMean(d, t));
      assert Abs(Mean(e)) == Abs(Mean(d));
      SameTolerance(ulp, Mean(d), Mean(e));
    }
    CountImplies(Product(n), p, q);
    CountImplies(Product(n), q, p);
    assert PValue(ulp, d) == CountIf(Product(n), p) as real / Pow2(n) as real;
    assert PValue(ulp, e) == CountIf(Product(n), q) as real / Pow2(n) as real;
  }

  lemma SameTolerance(ulp: real -> real, x: real, y: real)
    requires Abs(x) == Abs(y)
    ensures Tolerance(ulp, x) == Tolerance(ulp, y)
  {
  }

  lemma NegatedQuotient(x: real, n: nat)
    ensures n > 0 ==> (-x) / n as real == -(x / n as real)
  {
  }

  lemma {:induction false} NegatedSum(d: seq<real>, e: seq<real>)
    requires |d| == |e| && forall i | 0 <= i < |d| :: e[i] == -d[i]
    ensures Sum(e) == -Sum(d)
  {
    if |d| > 0 { NegatedSum(d[1..], e[1..]); }
  }

  lemma {:induction false} NegatedSignedSum(d: seq<real>, e: seq<real>, t: Signs)
    requires |d| == |e| && forall i | 0 <= i < |d| :: e[i] == -d[i]
    ensures SignedSum(e, t) == -SignedSum(d, t)
  {
    if |d| > 0 && |t| > 0 {
      NegatedSignedSum(d[1..], e[1..], t[1..]);
      NegatedProduct(d[0], t[0] as real);
      assert e[0] == -d[0];
    }
  }

  lemma NegatedProduct(x: real, y: real)
    ensures (-x) * y == -(x * y)
  {
  }

  // The effect is the mean of the first arm less the mean of the second.
  lemma EffectIsDifference(a: seq<real>, b: seq<real>)
    requires |a| == |b| > 0
    ensures Mean(Differences(a, b)) == Mean(a) - Mean(b)
  {
    SumOfDifferences(a, b);
    SubtractShares(Sum(a), Sum(b), |a| as real);
  }

  lemma {:induction false} SumOfDifferences(a: seq<real>, b: seq<real>)
    requires |a| == |b|
    ensures Sum(Differences(a, b)) == Sum(a) - Sum(b)
  {
    if |a| > 0 {
      SumOfDifferences(a[1..], b[1..]);
      assert Differences(a, b)[1..] == Differences(a[1..], b[1..]);
    }
  }

  lemma SubtractShares(x: real, y: real, n: real)
    requires n > 0.0
    ensures (x - y) / n == x / n - y / n
  {
  }
}
