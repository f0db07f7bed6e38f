// What a score is: the probability whose odds are the exponential of the logit.
module Scoring {
  import opened Reals
  import opened Features

  // The two laws of exp that the results below use.
  ghost predicate Inverts(num: Numerics) {
    forall y: real, z: real | y + z == 0.0 :: num.exp(y) * num.exp(z) == 1.0
  }

  ghost predicate Increases(num: Numerics) { forall y: real, z: real | y < z :: num.exp(y) < num.exp(z) }

  lemma Inverse(num: Numerics, z: real)
    requires Inverts(num)
    ensures num.exp(z) * num.exp(-z) == 1.0
  {
  }

  function Term(weight: real, value: real): real { weight * value }

  // The bias plus each weight times its own column.
  function Logit(m: Model, x: Vector): real {
    var w := m.weights;
    m.bias + (Term(w.engagement, x.engagement) + Term(w.logPv, x.logPv) + Term(w.logCartFav, x.logCartFav)
              + Term(w.gapHours, x.gapHours) + Term(w.buyShare, x.buyShare) + Term(w.logBuy, x.logBuy)
              + Term(w.gapEma, x.gapEma))
  }

  lemma LogitIsDot(m: Model, x: Vector)
    ensures Logit(m, x) == m.bias + Dot(m.weights, x)
  {
  }

  // A number strictly between 0 and 1 whose odds are the exponential of the logit.
  predicate HasOdds(num: Numerics, m: Model, x: Vector, p: real) {
    0.0 < p < 1.0 && p == num.exp(Logit(m, x)) * (1.0 - p)
  }

  lemma ScoreHasOdds(num: Numerics, m: Model, x: Vector)
    requires Inverts(num)
    ensures HasOdds(num, m, x, Score(num, m, x))
  {
    hide Logit, Dot, Inverts;
    LogitIsDot(m, x);
    var z := Logit(m, x);
    Inverse(num, z);
    if z >= 0.0 { FromInverse(num.exp(z), num.exp(-z)); } else { FromOdds(num.exp(z)); }
  }

  lemma FromInverse(e: real, f: real)
    requires e > 0.0 && f > 0.0 && e * f == 1.0
    ensures var p := 1.0 / (1.0 + f); 0.0 < p < 1.0 && p == e * (1.0 - p)
  {
    var p := 1.0 / (1.0 + f);
    assert p * (1.0 + f) == 1.0;
    Positive(p, 1.0 + f);
    Distribute(p, f);
    Regroup(e, f, p);
    ProductPositive(p, f);
  }

  lemma FromOdds(e: real)
    requires e > 0.0
    ensures var p := e / (1.0 + e); 0.0 < p < 1.0 && p == e * (1.0 - p)
  {
    var p := e / (1.0 + e);
    assert p * (1.0 + e) == e;
    Positive(p, 1.0 + e);
    Distribute(p, e);
    ProductPositive(p, e);
    assert e * (1.0 - p) == e - p * e;
  }

  lemma Positive(p: real, d: real)
    requires d > 0.0 && p * d > 0.0
    ensures p > 0.0
  {
  }

  lemma Distribute(p: real, f: real)
    ensures p * (1.0 + f) == p + p * f
  {
  }

  lemma Regroup(e: real, f: real, p: real)
    requires e * f == 1.0
    ensures e * (p * f) == p
  {
    assert e * (p * f) == (e * f) * p;
  }

  // The odds determine the probability, and larger odds a larger one.
  lemma OddsOrder(e: real, f: real, p: real, q: real)
    requires 0.0 < e < f && 0.0 < p < 1.0 && 0.0 < q < 1.0 && p == e * (1.0 - p) && q == f * (1.0 - q)
    ensures p < q
  {
    if q <= p {
      ProductOrder(e, 1.0 - p, f, 1.0 - q);
    }
  }

  lemma ProductOrder(a: real, b: real, c: real, d: real)
    requires 0.0 < a < c && 0.0 < b <= d
    ensures a * b < c * d
  {
    assert c * d - a * b == c * (d - b) + (c - a) * b;
    assert c * (d - b) >= 0.0;
    ProductPositive(c - a, b);
  }

  lemma ScoreFollowsLogit(num: Numerics, m: Model, x: Vector, y: Vector)
    requires Logit(m, x) < Logit(m, y) && Inverts(num) && Increases(num)
    ensures Score(num, m, x) < Score(num, m, y)
  {
    hide Score, Logit, Inverts;
    ScoreHasOdds(num, m, x);
    ScoreHasOdds(num, m, y);
    LargerOdds(num, m, x, y, Score(num, m, x), Score(num, m, y));
  }

  lemma LargerExp(num: Numerics, y: real, z: real)
    requires Increases(num) && y < z
    ensures num.exp(y) < num.exp(z)
  {
  }

  lemma LargerOdds(num: Numerics, m: Model, x: Vector, y: Vector, p: real, q: real)
    requires Increases(num) && Logit(m, x) < Logit(m, y) && HasOdds(num, m, x, p) && HasOdds(num, m, y, q)
    ensures p < q
  {
    hide Logit, Increases;
    LargerExp(num, Logit(m, x), Logit(m, y));
    OddsOrder(num.exp(Logit(m, x)), num.exp(Logit(m, y)), p, q);
  }

  // A larger value in any column of positive weight, the others equal, raises the score.
  lemma ScoreRises(num: Numerics, m: Model, x: Vector, y: Vector, i: nat)
    requires i < 7 && Columns(m.weights)[i] > 0.0 && Columns(x)[i] < Columns(y)[i]
    requires forall j | 0 <= j < 7 && j != i :: Columns(x)[j] == Columns(y)[j]
    requires Inverts(num) && Increases(num)
    ensures Score(num, m, x) < Score(num, m, y)
  {
    hide Score, Inverts, Increases, Columns, Logit;
    LogitRises(m, x, y, i);
    ScoreFollowsLogit(num, m, x, y);
  }

  lemma LogitRises(m: Model, x: Vector, y: Vector, i: nat)
    requires i < 7 && Columns(m.weights)[i] > 0.0 && Columns(x)[i] < Columns(y)[i]
    requires forall j | 0 <= j < 7 && j != i :: Columns(x)[j] == Columns(y)[j]
    ensures Logit(m, x) < Logit(m, y)
  {
    hide Term, Logit;
    var w, a, b := Columns(m.weights), Columns(x), Columns(y);
    LargerTerm(w[i], a[i], b[i]);
    LogitIsSum(m, x);
    LogitIsSum(m, y);
    match i {
      case 0 => case 1 => case 2 => case 3 => case 4 => case 5 => case 6 =>
    }
  }

  lemma LogitIsSum(m: Model, x: Vector)
    ensures var w, c := Columns(m.weights), Columns(x);
            Logit(m, x) == m.bias + (Term(w[0], c[0]) + Term(w[1], c[1]) + Term(w[2], c[2]) + Term(w[3], c[3])
                                     + Term(w[4], c[4]) + Term(w[5], c[5]) + Term(w[6], c[6]))
  {
    hide Term;
  }

  lemma LargerTerm(w: real, a: real, b: real)
    requires w > 0.0 && a < b
    ensures Term(w, a) < Term(w, b)
  {
    ProductPositive(w, b - a);
    assert w * (b - a) == w * b - w * a;
  }
}
