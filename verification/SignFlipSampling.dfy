// Validity of the sampled sign-flip test: the plus-one p-value over the observed signs and the draws.
module SignFlipSampling {
  import opened Reals
  import opened Sets
  import opened SignFlip

  type Tuple = seq<Signs>

  predicate IsTuple(t: Tuple, n: nat, m: nat) { |t| == m && forall k | 0 <= k < m :: IsSigns(t[k], n) }

  // All tuples of m sign vectors of length n.
  ghost function Tuples(n: nat, m: nat): (all: set<Tuple>)
    ensures forall t: Tuple :: t in all <==> IsTuple(t, n, m)
  {
    if m == 0 then
      assert forall t: Tuple :: t in {[]} <==> IsTuple(t, n, m);
      {[]}
    else
      ProductHolds(n);
      var shorter := Tuples(n, m - 1);
      var all := set s, t | s in Product(n) && t in shorter :: [s] + t;
      assert forall t: Tuple :: t in all <==> IsTuple(t, n, m) by {
        forall t: Tuple ensures t in all <==> IsTuple(t, n, m) {
          if IsTuple(t, n, m) {
            assert t == [t[0]] + t[1..] && t[0] in Product(n) && t[1..] in shorter;
          }
        }
      }
      all
  }

  lemma {:induction false} ProductHolds(n: nat)
    ensures forall t: Signs :: t in Product(n) <==> IsSigns(t, n)
  {
    ProductSigns(n);
    if n > 0 {
      ProductHolds(n - 1);
      forall t: Signs | IsSigns(t, n) ensures t in Product(n) {
        assert t == [t[0]] + t[1..] && IsSigns(t[1..], n - 1);
        PrependHolds(t[0], Product(n - 1), t[1..]);
      }
    } else {
      assert forall t: Signs | IsSigns(t, 0) :: t == [];
    }
  }

  lemma PrependHolds(s: int, xs: seq<Signs>, x: Signs)
    requires x in xs
    ensures [s] + x in Prepend(s, xs)
  {
    var k :| 0 <= k < |xs| && xs[k] == x;
    assert Prepend(s, xs)[k] == [s] + x;
  }

  // ---- Draws and choices ----

  lemma ChoiceAt(coin: nat -> bool, n: nat, draws: nat, k: nat, i: nat)
    requires k < draws && i < n
    ensures k * n + i < draws * n && Samples(coin, n, draws)[k][i] == if coin(k * n + i) then 1 else -1
  {
    Within(k, draws, n, i);
  }

  lemma Within(k: nat, draws: nat, n: nat, i: nat)
    requires k < draws && i < n
    ensures k * n + i < draws * n
  {
    AtLeastAll(draws, k + 1, n);
    assert (k + 1) * n == k * n + n;
  }

  lemma Located(j: nat, n: nat, draws: nat)
    requires j < draws * n
    ensures n > 0 && j / n < draws && j % n < n && j / n * n + j % n == j
  {
    if n > 0 && j / n >= draws { AtLeastAll(j / n, draws, n); }
  }

  lemma AtLeastAll(k: nat, draws: nat, n: nat)
    requires k >= draws
    ensures k * n >= draws * n
  {
  }

  // No choice is used twice and none is skipped: the draws fix the first draws * n choices ...
  lemma DrawsFixChoices(coin: nat -> bool, other: nat -> bool, n: nat, draws: nat)
    ensures Samples(coin, n, draws) == Samples(other, n, draws) <==>
      forall j: nat | j < draws * n :: coin(j) == other(j)
  {
    var x, y := Samples(coin, n, draws), Samples(other, n, draws);
    if x == y {
      forall j: nat | j < draws * n ensures coin(j) == other(j) {
        Located(j, n, draws);
        ChoiceAt(coin, n, draws, j / n, j % n);
        ChoiceAt(other, n, draws, j / n, j % n);
      }
    }
    if forall j: nat | j < draws * n :: coin(j) == other(j) {
      forall k | 0 <= k < draws ensures x[k] == y[k] {
        forall i | 0 <= i < n ensures x[k][i] == y[k][i] {
          ChoiceAt(coin, n, draws, k, i);
          ChoiceAt(other, n, draws, k, i);
        }
      }
    }
  }

  function ChoicesFor(t: Tuple, n: nat): nat -> bool {
    (j: nat) => n > 0 && j / n < |t| && j % n < |t[j / n]| && t[j / n][j % n] == 1
  }

  // ... and every tuple of sign vectors is drawn by some choices, so fair independent choices make all
  // tuples equally likely.
  lemma EveryTupleIsDrawn(t: Tuple, n: nat, draws: nat)
    requires IsTuple(t, n, draws)
    ensures Samples(ChoicesFor(t, n), n, draws) == t
  {
    var coin := ChoicesFor(t, n);
    forall k | 0 <= k < draws ensures Samples(coin, n, draws)[k] == t[k] {
      forall i | 0 <= i < n ensures Samples(coin, n, draws)[k][i] == t[k][i] {
        ChoiceAt(coin, n, draws, k, i);
        Recovered(k, n, i);
      }
    }
  }

  lemma Recovered(k: nat, n: nat, i: nat)
    requires i < n
    ensures (k * n + i) / n == k && (k * n + i) % n == i
  {
    var j := k * n + i;
    assert j == n * (j / n) + j % n;
    SameParts(n, k, i, j / n, j % n);
  }

  lemma SameParts(n: nat, q: nat, r: nat, q': nat, r': nat)
    requires r < n && r' < n && n * q + r == n * q' + r'
    ensures q == q' && r == r'
  {
    if q < q' { FullPart(n, q, q'); }
    if q' < q { FullPart(n, q', q); }
  }

  lemma FullPart(n: nat, a: nat, b: nat)
    requires a < b
    ensures n * a + n <= n * b
  {
    assert n * (a + 1) <= n * b;
  }

  // ---- Counting ----

  lemma {:induction false} InjectionSize<A, B>(a: set<A>, b: set<B>, f: A -> B)
    requires forall x | x in a :: f(x) in b
    requires forall x, y | x in a && y in a && f(x) == f(y) :: x == y
    ensures |a| <= |b|
  {
    if a != {} {
      var x :| x in a;
      InjectionSize(a - {x}, b - {f(x)}, f);
    }
  }

  ghost function Column(all: set<Tuple>, low: (Tuple, nat) -> bool, i: nat): set<Tuple> {
    set t | t in all && low(t, i)
  }

  ghost function Row(t: Tuple, low: (Tuple, nat) -> bool, m: nat): set<nat> { set i: nat | i < m && low(t, i) }

  // Entries of the first m columns.
  ghost function Entries(all: set<Tuple>, low: (Tuple, nat) -> bool, m: nat): nat {
    if m == 0 then 0 else Entries(all, low, m - 1) + |Column(all, low, m - 1)|
  }

  lemma {:induction false} EntriesByColumn(all: set<Tuple>, low: (Tuple, nat) -> bool, m: nat, c: nat)
    requires forall i: nat | i < m :: |Column(all, low, i)| >= c
    ensures Entries(all, low, m) >= m * c
  {
    if m > 0 { EntriesByColumn(all, low, m - 1, c); }
  }

  lemma {:induction false} EntriesWithout(all: set<Tuple>, t: Tuple, low: (Tuple, nat) -> bool, m: nat)
    requires t in all
    ensures Entries(all, low, m) == Entries(all - {t}, low, m) + |Row(t, low, m)|
  {
    if m > 0 {
      EntriesWithout(all, t, low, m - 1);
      var i := m - 1;
      assert Column(all, low, i) == Column(all - {t}, low, i) + if low(t, i) then {t} else {};
      assert Row(t, low, m) == Row(t, low, i) + if low(t, i) then {i} else {};
    } else {
      assert Row(t, low, m) == {};
    }
  }

  function Allowed(n: nat, bound: real): real { n as real * bound }

  lemma {:induction false} EntriesByRow(all: set<Tuple>, low: (Tuple, nat) -> bool, m: nat, bound: real)
    requires forall t | t in all :: |Row(t, low, m)| as real <= bound
    ensures Entries(all, low, m) as real <= Allowed(|all|, bound)
  {
    hide Allowed, Entries, Row;
    if all == {} {
      NoEntries(all, low, m);
      NoneAllowed(bound);
    } else {
      var t :| t in all;
      EntriesWithout(all, t, low, m);
      EntriesByRow(all - {t}, low, m, bound);
      OneMoreAllowed(|all - {t}|, bound);
    }
  }

  lemma NoneAllowed(bound: real)
    ensures Allowed(0, bound) == 0.0
  {
  }

  lemma OneMoreAllowed(n: nat, bound: real)
    ensures Allowed(n + 1, bound) == Allowed(n, bound) + bound
  {
  }

  lemma {:induction false} NoEntries(all: set<Tuple>, low: (Tuple, nat) -> bool, m: nat)
    requires all == {}
    ensures Entries(all, low, m) == 0
  {
    if m > 0 {
      NoEntries(all, low, m - 1);
      assert Column(all, low, m - 1) == {};
    }
  }

  // ---- Ranks ----

  // Members of the tuple at least as far from zero as its i-th.
  ghost function Farther(d: seq<real>, t: Tuple, i: nat): set<nat>
    requires i < |t|
  {
    set k: nat | k < |t| && AsFar(d, t[i])(t[k])
  }

  // The i-th member is among the share alpha farthest from zero.
  ghost function Low(d: seq<real>, alpha: real): (Tuple, nat) -> bool {
    (t: Tuple, i: nat) => i < |t| && |Farther(d, t, i)| as real <= alpha * |t| as real
  }

  // Every low member of a tuple is as far as the nearest of them, so there are few.
  lemma FewLow(d: seq<real>, alpha: real, t: Tuple)
    requires alpha >= 0.0
    ensures |Row(t, Low(d, alpha), |t|)| as real <= alpha * |t| as real
  {
    hide AsFar, Low;
    var low := Row(t, Low(d, alpha), |t|);
    if low == {} {
      ProductNonnegative(alpha, |t| as real);
    } else {
      var i := Nearest(d, t, low);
      assert low <= Farther(d, t, i);
      SubsetSize(low, Farther(d, t, i));
      LowMeans(d, alpha, t, i);
    }
  }

  lemma LowMeans(d: seq<real>, alpha: real, t: Tuple, i: nat)
    requires i < |t|
    ensures Low(d, alpha)(t, i) <==> |Farther(d, t, i)| as real <= alpha * |t| as real
  {
    hide Farther;
  }

  lemma {:induction false} Nearest(d: seq<real>, t: Tuple, s: set<nat>) returns (i: nat)
    requires s != {} && forall k | k in s :: k < |t|
    ensures i in s && forall k | k in s :: AsFar(d, t[i])(t[k])
  {
    hide SignedMean, Abs;
    i :| i in s;
    if s != {i} {
      var j := Nearest(d, t, s - {i});
      if Abs(SignedMean(d, t[j])) < Abs(SignedMean(d, t[i])) { i := j; }
    }
  }

  // ---- Exchangeability ----

  function Exchange(t: Tuple, i: nat): (r: Tuple)
    requires i < |t|
    ensures |r| == |t|
  {
    t[0 := t[i]][i := t[0]]
  }

  function ExchangeIndex(i: nat, k: nat): nat { if k == 0 then i else if k == i then 0 else k }

  // Exchanging two members carries the first one's rank along.
  lemma ExchangedRank(d: seq<real>, t: Tuple, i: nat)
    requires i < |t|
    ensures |Farther(d, Exchange(t, i), i)| <= |Farther(d, t, 0)|
  {
    hide AsFar;
    InjectionSize(Farther(d, Exchange(t, i), i), Farther(d, t, 0), (k: nat) => ExchangeIndex(i, k));
  }

  lemma ExchangedLow(d: seq<real>, alpha: real, n: nat, m: nat, i: nat, t: Tuple)
    requires i < m && t in Column(Tuples(n, m), Low(d, alpha), 0)
    ensures i < |t| && Exchange(t, i) in Column(Tuples(n, m), Low(d, alpha), i) && Exchange(Exchange(t, i), i) == t
  {
    hide Tuples, Farther, Low;
    AllTuples(n, m, t);
    AllTuples(n, m, Exchange(t, i));
    ExchangedRank(d, t, i);
    LowMeans(d, alpha, t, 0);
    LowMeans(d, alpha, Exchange(t, i), i);
  }

  // So the i-th member is low at least as often as the first.
  lemma ColumnsAlike(d: seq<real>, alpha: real, n: nat, m: nat, i: nat)
    requires i < m
    ensures |Column(Tuples(n, m), Low(d, alpha), 0)| <= |Column(Tuples(n, m), Low(d, alpha), i)|
  {
    hide Tuples, Low, Column, Exchange;
    var first, other := Column(Tuples(n, m), Low(d, alpha), 0), Column(Tuples(n, m), Low(d, alpha), i);
    var f := (t: Tuple) => if i < |t| then Exchange(t, i) else t;
    forall t | t in first ensures i < |t| && f(t) in other && Exchange(f(t), i) == t {
      ExchangedLow(d, alpha, n, m, i, t);
    }
    InjectionSize(first, other, f);
  }

  lemma AllTuples(n: nat, m: nat, t: Tuple)
    ensures t in Tuples(n, m) <==> IsTuple(t, n, m)
  {
  }

  // At most a share alpha of the tuples have a low first member.
  lemma FirstSeldomLow(d: seq<real>, alpha: real, n: nat, m: nat)
    requires m > 0 && alpha >= 0.0
    ensures |Column(Tuples(n, m), Low(d, alpha), 0)| as real <= alpha * |Tuples(n, m)| as real
  {
    hide Tuples, Low, Row, Column, Entries;
    var all, low := Tuples(n, m), Low(d, alpha);
    forall i: nat | i < m ensures |Column(all, low, i)| >= |Column(all, low, 0)| { ColumnsAlike(d, alpha, n, m, i); }
    EntriesByColumn(all, low, m, |Column(all, low, 0)|);
    forall t | t in all ensures |Row(t, low, m)| as real <= alpha * m as real {
      AllTuples(n, m, t);
      FewLow(d, alpha, t);
    }
    EntriesByRow(all, low, m, alpha * m as real);
    CancelFactor(m, |Column(all, low, 0)|, |all|, alpha);
  }

  lemma CancelFactor(m: nat, c: nat, size: nat, alpha: real)
    requires m > 0 && (m * c) as real <= size as real * (alpha * m as real)
    ensures c as real <= alpha * size as real
  {
    assert (m * c) as real == m as real * c as real;
    assert m as real * c as real <= m as real * (alpha * size as real);
  }

  // ---- The sampled test ----

  // Each draw multiplied by the observed signs.
  function Twisted(t: Tuple): Tuple
    requires forall k | 0 <= k < |t| :: |t[k]| == |t[0]|
  {
    seq(|t|, k requires 0 <= k < |t| => if k == 0 then t[0] else Times(t[0], t[k]))
  }

  lemma TwistedTuple(t: Tuple, n: nat, m: nat)
    requires IsTuple(t, n, m) && m > 0
    ensures IsTuple(Twisted(t), n, m)
  {
  }

  lemma UntwistOne(s: Signs, t: Signs, u: Signs)
    requires IsSigns(s, |s|) && |t| == |s| == |u| && Times(s, t) == Times(s, u)
    ensures t == u
  {
    forall i | 0 <= i < |s| ensures t[i] == u[i] {
      assert s[i] * t[i] == Times(s, t)[i] == Times(s, u)[i] == s[i] * u[i];
    }
  }

  lemma TwistInjective(t: Tuple, u: Tuple, n: nat, m: nat)
    requires IsTuple(t, n, m) && IsTuple(u, n, m) && m > 0 && Twisted(t) == Twisted(u)
    ensures t == u
  {
    hide Times;
    assert t[0] == Twisted(t)[0] == Twisted(u)[0] == u[0];
    forall k | 0 < k < m ensures t[k] == u[k] {
      assert Times(t[0], t[k]) == Twisted(t)[k] == Twisted(u)[k] == Times(u[0], u[k]);
      UntwistOne(t[0], t[k], u[k]);
    }
  }

  // The observed signs come first, the draws after them.
  ghost predicate SampledRejects(ulp: real -> real, d: seq<real>, alpha: real, t: Tuple) {
    IsTuple(t, |d|, |t|) && |t| > 0 && SampledPValue(ulp, Flip(d, t[0]), t[1..]) <= alpha
  }

  ghost function Range(q: nat -> bool, from: nat, n: nat): set<nat> { set k: nat | from <= k < from + n && q(k) }

  lemma RangeSplits(q: nat -> bool, from: nat, n: nat)
    requires n > 0
    ensures Range(q, from, n) == Range(q, from + 1, n - 1) + if q(from) then {from} else {}
  {
  }

  lemma {:induction false} CountIsSize(xs: seq<Signs>, p: Signs -> bool, q: nat -> bool, from: nat)
    requires forall k: nat | k < |xs| :: q(from + k) ==> p(xs[k])
    ensures |Range(q, from, |xs|)| <= CountIf(xs, p)
  {
    if |xs| > 0 {
      hide Range;
      forall k: nat | k < |xs[1..]| ensures q(from + 1 + k) ==> p(xs[1..][k]) {
        assert q(from + (k + 1)) ==> p(xs[k + 1]);
      }
      CountIsSize(xs[1..], p, q, from + 1);
      RangeSplits(q, from, |xs|);
      assert q(from + 0) ==> p(xs[0]);
    } else {
      assert Range(q, from, 0) == {};
    }
  }

  lemma FartherIsExtreme(ulp: real -> real, d: seq<real>, t: Tuple, k: nat)
    requires Nonnegative(ulp) && IsTuple(t, |d|, |t|) && k + 1 < |t| && AsFar(d, t[0])(Twisted(t)[k + 1])
    ensures IsExtreme(ulp, Flip(d, t[0]), Mean(Flip(d, t[0])))(t[k + 1])
  {
    hide AsFar, IsExtreme, Times, Flip, Mean, SignedMean, Nonnegative;
    assert Twisted(t)[k + 1] == Times(t[0], t[k + 1]);
    FarIsExtreme(ulp, d, t[0], Twisted(t)[k + 1]);
    FlippedExtreme(ulp, d, t[0], t[k + 1]);
  }

  // The members after the first that are at least as far.
  ghost function LaterFarther(d: seq<real>, u: Tuple): set<nat> {
    set k: nat | 1 <= k < |u| && AsFar(d, u[0])(u[k])
  }

  lemma FartherLater(d: seq<real>, u: Tuple)
    requires |u| > 0
    ensures |Farther(d, u, 0)| <= |LaterFarther(d, u)| + 1
  {
    hide AsFar;
    assert Farther(d, u, 0) <= LaterFarther(d, u) + {0};
    SubsetSize(Farther(d, u, 0), LaterFarther(d, u) + {0});
  }

  lemma LaterCounted(d: seq<real>, u: Tuple, xs: seq<Signs>, p: Signs -> bool)
    requires |u| == |xs| + 1
    requires forall k: nat | k < |xs| && AsFar(d, u[0])(u[k + 1]) :: p(xs[k])
    ensures |LaterFarther(d, u)| <= CountIf(xs, p)
  {
    hide AsFar, CountIf;
    var q := (k: nat) => k < |u| && AsFar(d, u[0])(u[k]);
    forall k: nat | k < |xs| ensures q(1 + k) ==> p(xs[k]) {
      assert q(1 + k) ==> AsFar(d, u[0])(u[k + 1]);
    }
    CountIsSize(xs, p, q, 1);
    assert LaterFarther(d, u) == Range(q, 1, |xs|);
  }

  // The draws as far as the observed signs are counted as extreme.
  lemma FartherCounted(ulp: real -> real, d: seq<real>, t: Tuple)
    requires Nonnegative(ulp) && IsTuple(t, |d|, |t|) && |t| > 0
    ensures |Farther(d, Twisted(t), 0)| <= CountIf(t[1..], IsExtreme(ulp, Flip(d, t[0]), Mean(Flip(d, t[0])))) + 1
  {
    hide AsFar, IsExtreme, Flip, Mean, Nonnegative, CountIf, Times, LaterFarther, Farther;
    var u, extreme := Twisted(t), IsExtreme(ulp, Flip(d, t[0]), Mean(Flip(d, t[0])));
    forall k: nat | k < |t[1..]| && AsFar(d, u[0])(u[k + 1]) ensures extreme(t[1..][k]) {
      FartherIsExtreme(ulp, d, t, k);
    }
    LaterCounted(d, u, t[1..], extreme);
    FartherLater(d, u);
  }

  // A rejection means the observed signs are low among the twisted draws.
  lemma RejectionIsLow(ulp: real -> real, d: seq<real>, alpha: real, t: Tuple)
    requires Nonnegative(ulp) && SampledRejects(ulp, d, alpha, t)
    ensures Low(d, alpha)(Twisted(t), 0)
  {
    hide Mean, IsExtreme, CountIf, Flip, Nonnegative, Low, Farther, Twisted;
    FartherCounted(ulp, d, t);
    ClearDenominator(CountIf(t[1..], IsExtreme(ulp, Flip(d, t[0]), Mean(Flip(d, t[0])))) + 1, |t|, alpha);
    TwistedTuple(t, |d|, |t|);
    LowMeans(d, alpha, Twisted(t), 0);
  }

  lemma ClearDenominator(c: nat, m: nat, alpha: real)
    requires m > 0 && c as real / m as real <= alpha
    ensures c as real <= alpha * m as real
  {
    var q := c as real / m as real;
    assert q * m as real == c as real;
    Monotone(q, alpha, m as real);
  }

  // Under the sharp null the observed signs and the draws are independent and uniform, so all tuples of
  // them are equally likely; at most a share alpha of these gives a p-value of alpha or less. This holds
  // for every sample, tolerance, level and number of draws.
  lemma SampledTestIsValid(ulp: real -> real, d: seq<real>, alpha: real, draws: nat)
    requires Nonnegative(ulp) && alpha >= 0.0
    ensures |set t | t in Tuples(|d|, draws + 1) && SampledRejects(ulp, d, alpha, t)| as real
         <= alpha * |Tuples(|d|, draws + 1)| as real
  {
    hide Tuples, SampledRejects, Low, Nonnegative, Twisted;
    var n, m := |d|, draws + 1;
    var all, low := Tuples(n, m), Low(d, alpha);
    var rejecting := set t | t in all && SampledRejects(ulp, d, alpha, t);
    var f := (t: Tuple) => if IsTuple(t, n, m) then Twisted(t) else t;
    forall t | t in rejecting ensures f(t) in Column(all, low, 0) {
      AllTuples(n, m, t);
      TwistedTuple(t, n, m);
      AllTuples(n, m, f(t));
      RejectionIsLow(ulp, d, alpha, t);
    }
    forall t, u | t in rejecting && u in rejecting && f(t) == f(u) ensures t == u {
      AllTuples(n, m, t);
      AllTuples(n, m, u);
      TwistInjective(t, u, n, m);
    }
    InjectionSize(rejecting, Column(all, low, 0), f);
    FirstSeldomLow(d, alpha, n, m);
  }
}
