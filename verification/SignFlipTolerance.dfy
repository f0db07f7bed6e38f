// What the tolerance of the sign-flip test can change: which sign vectors count, and when none is added.
module SignFlipTolerance {
  import opened Reals
  import opened SignFlip

  // A vector counts exactly when its mean is short of the observed one by at most eight units in the
  // last place, or by at most one part in 10^12.
  lemma ExtremeExactly(ulp: real -> real, d: seq<real>, observed: real, t: Signs)
    ensures IsExtreme(ulp, d, observed)(t) <==>
              || Abs(SignedMean(d, t)) >= Abs(observed) - 8.0 * ulp(Abs(observed))
              || Abs(SignedMean(d, t)) >= Abs(observed) - Abs(observed) / 1000000000000.0
  {
    hide SignedMean;
  }

  // At least as far from zero as the observed mean.
  function Reaches(d: seq<real>): Signs -> bool { (t: Signs) => Abs(SignedMean(d, t)) >= Abs(Mean(d)) }

  // No vector of the list falls just short of the observed mean.
  predicate Separated(ulp: real -> real, d: seq<real>, vectors: seq<Signs>) {
    forall t | t in vectors ::
      Abs(SignedMean(d, t)) >= Abs(Mean(d))
      || (Abs(SignedMean(d, t)) < Abs(Mean(d)) - 8.0 * ulp(Abs(Mean(d)))
          && Abs(SignedMean(d, t)) < Abs(Mean(d)) - Abs(Mean(d)) / 1000000000000.0)
  }

  lemma SeparatedCount(ulp: real -> real, d: seq<real>, vectors: seq<Signs>)
    requires Nonnegative(ulp) && Separated(ulp, d, vectors)
    ensures CountIf(vectors, IsExtreme(ulp, d, Mean(d))) == CountIf(vectors, Reaches(d))
  {
    hide IsExtreme, CountIf, SignedMean, Mean;
    forall t | t in vectors ensures IsExtreme(ulp, d, Mean(d))(t) <==> Reaches(d)(t) {
      ExtremeExactly(ulp, d, Mean(d), t);
      assert ulp(Abs(Mean(d))) >= 0.0;
    }
    CountImplies(vectors, IsExtreme(ulp, d, Mean(d)), Reaches(d));
    CountImplies(vectors, Reaches(d), IsExtreme(ulp, d, Mean(d)));
  }

  // Then the p-value is exactly the share of sign vectors at least as far as the observed one.
  lemma SeparatedPValue(ulp: real -> real, d: seq<real>)
    requires Nonnegative(ulp) && Separated(ulp, d, Product(|d|))
    ensures PValue(ulp, d) == CountIf(Product(|d|), Reaches(d)) as real / Pow2(|d|) as real
  {
    hide CountIf, Product, IsExtreme, Reaches, Separated, Nonnegative, Pow2, Mean;
    SeparatedCount(ulp, d, Product(|d|));
  }

  // The sampled p-value likewise is the plus-one share of the draws at least as far.
  lemma SeparatedSample(ulp: real -> real, d: seq<real>, draws: seq<Signs>)
    requires Nonnegative(ulp) && Separated(ulp, d, draws)
    ensures SampledPValue(ulp, d, draws) == (CountIf(draws, Reaches(d)) + 1) as real / (|draws| + 1) as real
  {
    hide CountIf, IsExtreme, Reaches, Separated, Nonnegative, Mean;
    SeparatedCount(ulp, d, draws);
  }

  // ---- Equal differences ----

  function SignTotal(t: Signs): int { if |t| == 0 then 0 else t[0] + SignTotal(t[1..]) }

  predicate AllAre(t: Signs, s: int) { forall i | 0 <= i < |t| :: t[i] == s }

  // Only the two constant vectors reach the full sum; any other is short by at least two.
  lemma {:induction false} TotalRange(t: Signs)
    requires IsSigns(t, |t|)
    ensures AllAre(t, 1) ==> SignTotal(t) == |t|
    ensures AllAre(t, -1) ==> SignTotal(t) == -|t|
    ensures !AllAre(t, 1) ==> SignTotal(t) <= |t| - 2
    ensures !AllAre(t, -1) ==> SignTotal(t) >= 2 - |t|
    ensures -|t| <= SignTotal(t) <= |t|
  {
    if |t| > 0 { TotalRange(t[1..]); }
  }

  lemma {:induction false} SumOfEqual(d: seq<real>, x: real)
    requires forall i | 0 <= i < |d| :: d[i] == x
    ensures Sum(d) == Multiply(|d| as real, x)
  {
    if |d| > 0 {
      hide Multiply;
      SumOfEqual(d[1..], x);
      OneMoreTerm(|d| - 1, 1, x);
    }
  }

  lemma OneMoreTerm(n: int, s: int, x: real)
    requires s == 1 || s == -1
    ensures Multiply((n + s) as real, x) == Multiply(n as real, x) + Signed(x, s) && Signed(x, 1) == x
  {
  }

  lemma {:induction false} SignedSumOfEqual(d: seq<real>, t: Signs, x: real)
    requires |d| == |t| && IsSigns(t, |t|) && forall i | 0 <= i < |d| :: d[i] == x
    ensures SignedSum(d, t) == Multiply(SignTotal(t) as real, x)
  {
    if |d| > 0 {
      hide Multiply, Signed;
      SignedSumOfEqual(d[1..], t[1..], x);
      OneMoreTerm(SignTotal(t[1..]), t[0], x);
    }
  }

  function Magnitude(k: int): nat { if k < 0 then -k else k }

  // Distances from zero: of a mean of n terms with total k, and of one term.
  lemma ShareOf(k: int, n: nat, x: real)
    requires n > 0
    ensures Abs(Multiply(k as real, x) / n as real) == Multiply(Magnitude(k) as real, Abs(x)) / n as real
  {
    hide Abs;
    AbsMultiply(k, x);
    AbsQuotient(Multiply(k as real, x), n as real);
  }

  lemma AbsMultiply(k: int, x: real)
    ensures Abs(Multiply(k as real, x)) == Multiply(Magnitude(k) as real, Abs(x))
  {
    Signs(Magnitude(k) as real, Abs(x));
  }

  lemma Signs(a: real, b: real)
    requires a >= 0.0 && b >= 0.0
    ensures a * b >= 0.0 && a * -b == -(a * b) && -a * b == -(a * b) && -a * -b == a * b
  {
  }

  lemma AbsQuotient(y: real, n: real)
    requires n > 0.0
    ensures Abs(y / n) == Abs(y) / n
  {
    var q := y / n;
    assert q * n == y;
    SameSign(q, n);
  }

  lemma SameSign(q: real, n: real)
    requires n > 0.0
    ensures q < 0.0 <==> q * n < 0.0
  {
  }

  lemma Whole(n: nat, y: real)
    requires n > 0
    ensures Multiply(n as real, y) / n as real == y
  {
  }

  // A total at least two short of n leaves the mean two n-ths short.
  lemma Short(m: nat, n: nat, y: real, slack: real)
    requires n > 0 && m + 2 <= n && y > 0.0 && Multiply(slack, n as real) < 2.0 * y
    ensures Multiply(m as real, y) / n as real < y - slack
  {
    hide Multiply;
    Undivided(Multiply(m as real, y), n as real);
    Fewer(m as real, n as real, y);
    BelowBy(Multiply(m as real, y) / n as real, n as real, y, slack);
  }

  lemma Undivided(p: real, n: real)
    requires n > 0.0
    ensures Multiply(p / n, n) == p
  {
  }

  lemma Fewer(m: real, n: real, y: real)
    requires m + 2.0 <= n && y > 0.0
    ensures Multiply(m, y) <= Multiply(n, y) - 2.0 * y
  {
    ProductNonnegative(n - m - 2.0, y);
    assert (n - m - 2.0) * y == n * y - m * y - 2.0 * y;
  }

  lemma BelowBy(q: real, n: real, y: real, slack: real)
    requires n > 0.0 && Multiply(q, n) <= Multiply(n, y) - 2.0 * y && Multiply(slack, n) < 2.0 * y
    ensures q < y - slack
  {
    assert (q - y + slack) * n == q * n - n * y + slack * n;
    SameSign(q - y + slack, n);
  }

  lemma SmallPart(n: nat, y: real)
    requires y > 0.0 && n < 2000000000000
    ensures Multiply(y / 1000000000000.0, n as real) < 2.0 * y
  {
    var part := y / 1000000000000.0;
    assert y == part * 1000000000000.0 && part > 0.0;
    assert part * (2000000000000.0 - n as real) > 0.0;
    assert part * (2000000000000.0 - n as real) == part * 2000000000000.0 - part * n as real;
  }

  // The tolerance is too small to reach the next possible mean.
  predicate Resolves(ulp: real -> real, x: real, n: nat) {
    Multiply(8.0 * ulp(Abs(x)), n as real) < 2.0 * Abs(x) && n < 2000000000000
  }

  predicate AllEqual(d: seq<real>, x: real) { forall i | 0 <= i < |d| :: d[i] == x }

  // The distances of the observed mean and of a flipped one.
  lemma EqualMeans(d: seq<real>, x: real, t: Signs)
    requires |d| > 0 && IsSigns(t, |d|) && AllEqual(d, x)
    ensures Abs(Mean(d)) == Abs(x)
    ensures Abs(SignedMean(d, t)) == Multiply(Magnitude(SignTotal(t)) as real, Abs(x)) / |d| as real
  {
    hide Multiply, SignTotal, Abs, Sum, SignedSum;
    SumOfEqual(d, x);
    SignedSumOfEqual(d, t, x);
    ShareOf(|d|, |d|, x);
    ShareOf(SignTotal(t), |d|, x);
    Whole(|d|, Abs(x));
  }

  lemma EqualExtreme(ulp: real -> real, d: seq<real>, x: real, t: Signs)
    requires Nonnegative(ulp) && x != 0.0 && |d| > 0 && IsSigns(t, |d|) && AllEqual(d, x) && Resolves(ulp, x, |d|)
    ensures IsExtreme(ulp, d, Mean(d))(t) <==> AllAre(t, 1) || AllAre(t, -1)
  {
    hide IsExtreme, SignedMean, Mean, SignTotal, Multiply, Nonnegative, AllEqual;
    var n, y, m := |d|, Abs(x), Magnitude(SignTotal(t));
    EqualMeans(d, x, t);
    TotalRange(t);
    ExtremeExactly(ulp, d, Mean(d), t);
    NonnegativeAt(ulp, y);
    if m == n {
      Whole(n, y);
    } else {
      SmallPart(n, y);
      Short(m, n, y, 8.0 * ulp(y));
      Short(m, n, y, y / 1000000000000.0);
    }
  }

  lemma NonnegativeAt(ulp: real -> real, x: real)
    requires Nonnegative(ulp)
    ensures ulp(x) >= 0.0
  {
  }

  // ---- Counting the two constant vectors ----

  function Constantly(s: int): Signs -> bool { (t: Signs) => AllAre(t, s) }

  function Never(): Signs -> bool { (t: Signs) => false }

  function Either(p: Signs -> bool, q: Signs -> bool): Signs -> bool { (t: Signs) => p(t) || q(t) }

  lemma {:induction false} CountNever(xs: seq<Signs>)
    ensures CountIf(xs, Never()) == 0
  {
    if |xs| > 0 { CountNever(xs[1..]); }
  }

  lemma CountSame(xs: seq<Signs>, p: Signs -> bool, q: Signs -> bool)
    requires forall t | t in xs :: p(t) <==> q(t)
    ensures CountIf(xs, p) == CountIf(xs, q)
  {
    CountImplies(xs, p, q);
    CountImplies(xs, q, p);
  }

  lemma {:induction false} CountEither(xs: seq<Signs>, p: Signs -> bool, q: Signs -> bool)
    requires forall t | t in xs :: !(p(t) && q(t))
    ensures CountIf(xs, Either(p, q)) == CountIf(xs, p) + CountIf(xs, q)
  {
    if |xs| > 0 { CountEither(xs[1..], p, q); }
  }

  lemma StartsConstant(s: int, t: Signs)
    requires s == 1 || s == -1
    ensures AllAre([s] + t, s) <==> AllAre(t, s)
    ensures !AllAre([-s] + t, s)
  {
    assert ([-s] + t)[0] == -s;
    if AllAre([s] + t, s) {
      forall i | 0 <= i < |t| ensures t[i] == s { assert ([s] + t)[i + 1] == s; }
    }
  }

  lemma {:induction false} OneConstant(n: nat, s: int)
    requires s == 1 || s == -1
    ensures CountIf(Product(n), Constantly(s)) == 1
  {
    if n > 0 {
      hide CountIf, Product, Constantly, Starting;
      CountSplit(n, Constantly(s));
      OneConstant(n - 1, s);
      StartsSame(Product(n - 1), s);
      StartsOther(Product(n - 1), s);
    } else {
      assert Product(0) == [[]] && AllAre([], s);
    }
  }

  lemma StartsSame(xs: seq<Signs>, s: int)
    requires s == 1 || s == -1
    ensures CountIf(xs, Starting(s, Constantly(s))) == CountIf(xs, Constantly(s))
  {
    hide CountIf, AllAre;
    forall t | t in xs ensures Starting(s, Constantly(s))(t) <==> Constantly(s)(t) { StartsConstant(s, t); }
    CountSame(xs, Starting(s, Constantly(s)), Constantly(s));
  }

  lemma StartsOther(xs: seq<Signs>, s: int)
    requires s == 1 || s == -1
    ensures CountIf(xs, Starting(-s, Constantly(s))) == 0
  {
    hide CountIf, AllAre;
    forall t | t in xs ensures Starting(-s, Constantly(s))(t) <==> Never()(t) { StartsConstant(s, t); }
    CountSame(xs, Starting(-s, Constantly(s)), Never());
    CountNever(xs);
  }

  lemma NotBoth(t: Signs)
    requires |t| > 0
    ensures !(AllAre(t, 1) && AllAre(t, -1))
  {
    if AllAre(t, 1) { assert t[0] == 1; }
  }

  // n equal nonzero differences: only the observed signs and their mirror image count.
  lemma EqualDifferences(ulp: real -> real, d: seq<real>, x: real)
    requires Nonnegative(ulp) && x != 0.0 && |d| > 0 && AllEqual(d, x) && Resolves(ulp, x, |d|)
    ensures PValue(ulp, d) == 2.0 / Pow2(|d|) as real
  {
    hide CountIf, Product, IsExtreme, Resolves, Nonnegative, Mean, Pow2, AllEqual;
    var n, all := |d|, Product(|d|);
    ProductSigns(n);
    forall t | t in all
      ensures IsExtreme(ulp, d, Mean(d))(t) <==> Either(Constantly(1), Constantly(-1))(t)
      ensures !(Constantly(1)(t) && Constantly(-1)(t))
    {
      EqualExtreme(ulp, d, x, t);
      NotBoth(t);
    }
    CountSame(all, IsExtreme(ulp, d, Mean(d)), Either(Constantly(1), Constantly(-1)));
    CountEither(all, Constantly(1), Constantly(-1));
    OneConstant(n, 1);
    OneConstant(n, -1);
  }
}
