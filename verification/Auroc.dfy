// What the pair share means at its ends and its middle.
module Auroc {
  import opened Reals
  import opened Ranking

  // Every positive is scored above every negative.
  predicate Perfect(xs: seq<Item>) {
    forall i, j | 0 <= i < |xs| && 0 <= j < |xs| && xs[i].positive && !xs[j].positive :: xs[i].score > xs[j].score
  }

  // Every positive is scored below every negative.
  predicate Inverted(xs: seq<Item>) {
    forall i, j | 0 <= i < |xs| && 0 <= j < |xs| && xs[i].positive && !xs[j].positive :: xs[i].score < xs[j].score
  }

  predicate AllTied(xs: seq<Item>) { forall i, j | 0 <= i < j < |xs| :: xs[i].score == xs[j].score }

  // The negatives strictly below a score, at it, and in all.
  lemma {:induction false} NegativesSplit(s: real, ys: seq<Item>)
    ensures Count(ys, NegativeBelow(s)) + Count(ys, NegativeAt(s)) <= Negatives(ys)
    ensures Count(ys, NegativeBelow(s)) == Negatives(ys)
       <==> forall j | 0 <= j < |ys| && !ys[j].positive :: ys[j].score < s
    ensures Count(ys, NegativeBelow(s)) + Count(ys, NegativeAt(s)) == 0
       <==> forall j | 0 <= j < |ys| && !ys[j].positive :: ys[j].score > s
    ensures (forall j | 0 <= j < |ys| && !ys[j].positive :: ys[j].score == s) ==>
              Count(ys, NegativeBelow(s)) == 0 && Count(ys, NegativeAt(s)) == Negatives(ys)
  {
    if |ys| > 0 {
      var before, last := ys[..|ys| - 1], ys[|ys| - 1];
      NegativesSplit(s, before);
      assert forall j | 0 <= j < |ys| - 1 :: ys[j] == before[j];
    }
  }

  // A positive beats between none and all of the negatives.
  lemma WinsBetween(s: real, ys: seq<Item>)
    ensures 0.0 <= Wins(s, ys) <= Negatives(ys) as real
    ensures Wins(s, ys) == Negatives(ys) as real <==> forall j | 0 <= j < |ys| && !ys[j].positive :: ys[j].score < s
    ensures Wins(s, ys) == 0.0 <==> forall j | 0 <= j < |ys| && !ys[j].positive :: ys[j].score > s
    ensures (forall j | 0 <= j < |ys| && !ys[j].positive :: ys[j].score == s) ==>
              Wins(s, ys) == Negatives(ys) as real / 2.0
  {
    hide Count, Negatives;
    NegativesSplit(s, ys);
  }

  // A total over positives whose terms lie between zero and a bound.
  lemma {:induction false} TotalBetween(xs: seq<Item>, f: Item -> real, top: real)
    requires forall x | x in xs :: if x.positive then 0.0 <= f(x) <= top else f(x) == 0.0
    ensures 0.0 <= Total(xs, f) <= Multiply(Positives(xs) as real, top)
    ensures Total(xs, f) == Multiply(Positives(xs) as real, top) <==> forall x | x in xs && x.positive :: f(x) == top
    ensures Total(xs, f) == 0.0 <==> forall x | x in xs && x.positive :: f(x) == 0.0
  {
    if |xs| > 0 {
      hide Multiply;
      var before, last := xs[..|xs| - 1], xs[|xs| - 1];
      assert last in xs && forall x | x in before :: x in xs;
      assert forall x | x in xs :: x in before || x == last;
      TotalBetween(before, f, top);
      OneMore(Positives(before), Unit(last.positive), top);
    }
  }

  lemma OneMore(n: nat, u: nat, top: real)
    requires u <= 1
    ensures Multiply((n + u) as real, top) == Multiply(n as real, top) + if u == 1 then top else 0.0
  {
  }

  lemma PairsBetween(xs: seq<Item>)
    ensures var all := Multiply(Positives(xs) as real, Negatives(xs) as real);
            && 0.0 <= PairCount(xs) <= all
            && (PairCount(xs) == all <==> Perfect(xs)) && (PairCount(xs) == 0.0 <==> Inverted(xs))
  {
    hide Wins, Positives, Negatives, Total, Multiply;
    var f := Contribution(xs);
    forall x | x in xs ensures if x.positive then 0.0 <= f(x) <= Negatives(xs) as real else f(x) == 0.0 {
      WinsBetween(x.score, xs);
    }
    TotalBetween(xs, f, Negatives(xs) as real);
    forall i | 0 <= i < |xs| && xs[i].positive
      ensures f(xs[i]) == Negatives(xs) as real <==>
                forall j | 0 <= j < |xs| && !xs[j].positive :: xs[j].score < xs[i].score
      ensures f(xs[i]) == 0.0 <==> forall j | 0 <= j < |xs| && !xs[j].positive :: xs[j].score > xs[i].score
    {
      WinsBetween(xs[i].score, xs);
    }
  }

  lemma TiedPairs(xs: seq<Item>)
    requires AllTied(xs)
    ensures PairCount(xs) == Multiply(Positives(xs) as real, Negatives(xs) as real / 2.0)
  {
    hide Wins, Positives, Negatives, Total;
    var f := Contribution(xs);
    forall x | x in xs ensures f(x) == if x.positive then Negatives(xs) as real / 2.0 else 0.0 {
      var i :| 0 <= i < |xs| && xs[i] == x;
      forall j | 0 <= j < |xs| ensures xs[j].score == x.score {
        assert if i < j then xs[i].score == xs[j].score else j == i || xs[j].score == xs[i].score;
      }
      WinsBetween(x.score, xs);
    }
    TotalConstant(xs, f, Negatives(xs) as real / 2.0);
  }

  // A share of pos * neg pairs, at its ends and its middle.
  lemma ShareOfPairs(u: real, pos: nat, neg: nat)
    requires pos > 0 && neg > 0 && 0.0 <= u <= Multiply(pos as real, neg as real)
    ensures 0.0 <= PerPair(u, pos, neg) <= 1.0
    ensures (PerPair(u, pos, neg) == 1.0 <==> u == Multiply(pos as real, neg as real))
    ensures PerPair(u, pos, neg) == 0.0 <==> u == 0.0
    ensures u == Multiply(pos as real, neg as real / 2.0) ==> PerPair(u, pos, neg) == 1.0 / 2.0
  {
    var d := pos as real * neg as real;
    assert d > 0.0;
    ShareOf(u, d);
    assert pos as real * (neg as real / 2.0) == d / 2.0;
  }

  lemma ShareOf(u: real, d: real)
    requires 0.0 <= u <= d && d > 0.0
    ensures 0.0 <= u / d <= 1.0 && (u / d == 1.0 <==> u == d) && (u / d == 0.0 <==> u == 0.0)
    ensures u == d / 2.0 ==> u / d == 1.0 / 2.0
  {
    var q := u / d;
    assert q * d == u;
    assert (1.0 - q) * d == d - u;
  }

  // AUROC is a share: 1 exactly for a perfect ranking, 0 exactly for an inverted one, and 1/2 when all
  // scores tie.
  lemma AurocMeans(xs: seq<Item>)
    requires BothClasses(xs)
    ensures 0.0 <= PairShare(xs) <= 1.0
    ensures PairShare(xs) == 1.0 <==> Perfect(xs)
    ensures PairShare(xs) == 0.0 <==> Inverted(xs)
    ensures AllTied(xs) ==> PairShare(xs) == 1.0 / 2.0
  {
    hide PairCount, Positives, PerPair, Multiply, Perfect, Inverted;
    PairsBetween(xs);
    ShareOfPairs(PairCount(xs), Positives(xs), |xs| - Positives(xs));
    if AllTied(xs) { TiedPairs(xs); }
  }

  // There is an AUROC exactly when some item is positive and some is not.
  lemma ClassesMean(xs: seq<Item>)
    ensures BothClasses(xs) <==>
      (exists i | 0 <= i < |xs| :: xs[i].positive) && exists j | 0 <= j < |xs| :: !xs[j].positive
  {
    PositivesSome(xs);
  }

  lemma {:induction false} PositivesSome(xs: seq<Item>)
    ensures Positives(xs) > 0 <==> exists i | 0 <= i < |xs| :: xs[i].positive
    ensures Positives(xs) < |xs| <==> exists j | 0 <= j < |xs| :: !xs[j].positive
  {
    if |xs| > 0 {
      var n := |xs| - 1;
      PositivesSome(xs[..n]);
      assert forall i | 0 <= i < n :: xs[..n][i] == xs[i];
      assert xs[n].positive || !xs[n].positive;
      if i :| 0 <= i < n && xs[..n][i].positive { assert xs[i].positive; }
      if j :| 0 <= j < n && !xs[..n][j].positive { assert !xs[j].positive; }
    }
  }
}
