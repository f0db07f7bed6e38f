// Tied-rank AUROC and average precision, in both of the repository's implementations, against
// pair counting and the closed form. Arithmetic is over exact reals.
module Ranking {
  import opened Options

  datatype Item = Item(score: real, positive: bool)

  function Unit(b: bool): nat { if b then 1 else 0 }

  function Positives(xs: seq<Item>): (r: nat)
    ensures r <= |xs|
  {
    if |xs| == 0 then 0 else Positives(xs[..|xs| - 1]) + Unit(xs[|xs| - 1].positive)
  }

  function Negatives(xs: seq<Item>): nat { |xs| - Positives(xs) }

  // ---- Sorting: sorted() is a stable sort by the given order ----

  function Insert(x: Item, xs: seq<Item>, le: (Item, Item) -> bool): seq<Item> {
    if |xs| == 0 then [x] else if le(x, xs[0]) then [x] + xs else [xs[0]] + Insert(x, xs[1..], le)
  }

  function Sort(xs: seq<Item>, le: (Item, Item) -> bool): seq<Item> {
    if |xs| == 0 then [] else Insert(xs[0], Sort(xs[1..], le), le)
  }

  predicate Ascending(xs: seq<Item>) { forall i, j | 0 <= i <= j < |xs| :: xs[i].score <= xs[j].score }

  predicate Descending(xs: seq<Item>) { forall i, j | 0 <= i <= j < |xs| :: xs[i].score >= xs[j].score }

  // Python's order on (score, label) pairs, and the score keys.
  const PAIR_ORDER := (a: Item, b: Item) => a.score < b.score || (a.score == b.score && (!a.positive || b.positive))
  const SCORE_ORDER := (a: Item, b: Item) => a.score <= b.score
  const REVERSE_ORDER := (a: Item, b: Item) => a.score >= b.score

  lemma {:induction false} InsertKeeps(x: Item, xs: seq<Item>, le: (Item, Item) -> bool)
    ensures multiset(Insert(x, xs, le)) == multiset{x} + multiset(xs)
  {
    if |xs| > 0 {
      assert xs == [xs[0]] + xs[1..];
      InsertKeeps(x, xs[1..], le);
    }
  }

  lemma {:induction false} SortKeeps(xs: seq<Item>, le: (Item, Item) -> bool)
    ensures multiset(Sort(xs, le)) == multiset(xs)
  {
    if |xs| > 0 {
      assert xs == [xs[0]] + xs[1..];
      SortKeeps(xs[1..], le);
      InsertKeeps(xs[0], Sort(xs[1..], le), le);
    }
  }

  // Sorting by `le` orders the list by `key`, ascending.
  ghost predicate Respects(le: (Item, Item) -> bool, key: Item -> real) {
    forall a: Item, b: Item :: if le(a, b) then key(a) <= key(b) else key(b) <= key(a)
  }

  predicate KeyAscending(xs: seq<Item>, key: Item -> real) {
    forall i, j | 0 <= i <= j < |xs| :: key(xs[i]) <= key(xs[j])
  }

  lemma Cons(x: Item, xs: seq<Item>, key: Item -> real)
    requires KeyAscending(xs, key) && forall y | y in xs :: key(x) <= key(y)
    ensures KeyAscending([x] + xs, key)
  {
  }

  lemma {:induction false} InsertSorts(x: Item, xs: seq<Item>, le: (Item, Item) -> bool, key: Item -> real)
    requires KeyAscending(xs, key) && Respects(le, key)
    ensures KeyAscending(Insert(x, xs, le), key)
  {
    if |xs| > 0 {
      if le(x, xs[0]) {
        Cons(x, xs, key);
      } else {
        InsertSorts(x, xs[1..], le, key);
        InsertKeeps(x, xs[1..], le);
        var r := Insert(x, xs[1..], le);
        forall y | y in r ensures key(xs[0]) <= key(y) {
          assert y in multiset(r);
        }
        Cons(xs[0], r, key);
      }
    }
  }

  lemma {:induction false} SortSorts(xs: seq<Item>, le: (Item, Item) -> bool, key: Item -> real)
    requires Respects(le, key)
    ensures KeyAscending(Sort(xs, le), key)
  {
    if |xs| > 0 {
      SortSorts(xs[1..], le, key);
      InsertSorts(xs[0], Sort(xs[1..], le), le, key);
    }
  }

  lemma SortedByScore(xs: seq<Item>, le: (Item, Item) -> bool)
    requires le == PAIR_ORDER || le == SCORE_ORDER
    ensures Ascending(Sort(xs, le)) && multiset(Sort(xs, le)) == multiset(xs)
  {
    SortKeeps(xs, le);
    SortSorts(xs, le, (x: Item) => x.score);
  }

  lemma SortedDescending(xs: seq<Item>)
    ensures Descending(Sort(xs, REVERSE_ORDER)) && multiset(Sort(xs, REVERSE_ORDER)) == multiset(xs)
  {
    SortKeeps(xs, REVERSE_ORDER);
    SortSorts(xs, REVERSE_ORDER, (x: Item) => -x.score);
  }

  // ---- Sums over a list of a per-item contribution ----

  function Total(xs: seq<Item>, f: Item -> real): real {
    if |xs| == 0 then 0.0 else Total(xs[..|xs| - 1], f) + f(xs[|xs| - 1])
  }

  lemma {:induction false} TotalAppend(xs: seq<Item>, ys: seq<Item>, f: Item -> real)
    ensures Total(xs + ys, f) == Total(xs, f) + Total(ys, f)
  {
    if |ys| == 0 {
      assert xs + ys == xs;
    } else {
      assert (xs + ys)[..|xs + ys| - 1] == xs + ys[..|ys| - 1];
      TotalAppend(xs, ys[..|ys| - 1], f);
    }
  }

  lemma {:induction false} TotalConstant(xs: seq<Item>, f: Item -> real, unit: real)
    requires forall x | x in xs :: f(x) == if x.positive then unit else 0.0
    ensures Total(xs, f) == Positives(xs) as real * unit
  {
    if |xs| > 0 {
      TotalConstant(xs[..|xs| - 1], f, unit);
      assert xs[|xs| - 1] in xs;
      AddUnit(Positives(xs[..|xs| - 1]), Unit(xs[|xs| - 1].positive), unit);
    }
  }

  lemma AddUnit(n: nat, u: nat, unit: real)
    requires u <= 1
    ensures (n + u) as real * unit == n as real * unit + if u == 1 then unit else 0.0
  {
    assert (n + u) as real == n as real + u as real;
  }

  lemma {:induction false} TotalSame(xs: seq<Item>, f: Item -> real, g: Item -> real)
    requires forall x | x in xs :: f(x) == g(x)
    ensures Total(xs, f) == Total(xs, g)
  {
    if |xs| > 0 {
      assert xs[|xs| - 1] in xs;
      TotalSame(xs[..|xs| - 1], f, g);
    }
  }

  // Where an item of one list sits in a permutation of it, and what is left without it.
  lemma Remove(xs: seq<Item>, ys: seq<Item>) returns (k: nat)
    requires |xs| > 0 && multiset(xs) == multiset(ys)
    ensures k < |ys| && ys[k] == xs[|xs| - 1]
    ensures multiset(xs[..|xs| - 1]) == multiset(ys[..k] + ys[k + 1..])
  {
    var n := |xs| - 1;
    assert xs == xs[..n] + [xs[n]];
    assert xs[n] in multiset(ys);
    k :| 0 <= k < |ys| && ys[k] == xs[n];
    var rest := ys[..k] + ys[k + 1..];
    assert ys == ys[..k] + [ys[k]] + ys[k + 1..];
    assert multiset(ys) == multiset(rest) + multiset{ys[k]};
    assert multiset(xs) == multiset(xs[..n]) + multiset{xs[n]};
    Cancel(multiset(xs[..n]), multiset(rest), xs[n]);
  }

  lemma Cancel(a: multiset<Item>, b: multiset<Item>, x: Item)
    requires a + multiset{x} == b + multiset{x}
    ensures a == b
  {
    assert a == a + multiset{x} - multiset{x};
  }

  // A total does not depend on the order of the list.
  lemma {:induction false} TotalPermuted(xs: seq<Item>, ys: seq<Item>, f: Item -> real)
    requires multiset(xs) == multiset(ys)
    ensures Total(xs, f) == Total(ys, f)
    decreases |xs|
  {
    if |xs| == 0 {
      assert |multiset(ys)| == 0;
    } else {
      var k := Remove(xs, ys);
      TotalPermuted(xs[..|xs| - 1], ys[..k] + ys[k + 1..], f);
      assert ys == ys[..k] + [ys[k]] + ys[k + 1..];
      TotalAppend(ys[..k] + [ys[k]], ys[k + 1..], f);
      TotalAppend(ys[..k], [ys[k]], f);
      TotalAppend(ys[..k], ys[k + 1..], f);
      assert Total([ys[k]], f) == Total([], f) + f(ys[k]);
    }
  }

  function Count(xs: seq<Item>, p: Item -> bool): nat {
    if |xs| == 0 then 0 else Count(xs[..|xs| - 1], p) + Unit(p(xs[|xs| - 1]))
  }

  lemma {:induction false} CountTotal(xs: seq<Item>, p: Item -> bool)
    ensures Count(xs, p) as real == Total(xs, (x: Item) => if p(x) then 1.0 else 0.0)
  {
    if |xs| > 0 { CountTotal(xs[..|xs| - 1], p); }
  }

  lemma {:induction false} CountAppend(xs: seq<Item>, ys: seq<Item>, p: Item -> bool)
    ensures Count(xs + ys, p) == Count(xs, p) + Count(ys, p)
  {
    if |ys| == 0 {
      assert xs + ys == xs;
    } else {
      assert (xs + ys)[..|xs + ys| - 1] == xs + ys[..|ys| - 1];
      CountAppend(xs, ys[..|ys| - 1], p);
    }
  }

  lemma CountPermuted(xs: seq<Item>, ys: seq<Item>, p: Item -> bool)
    requires multiset(xs) == multiset(ys)
    ensures Count(xs, p) == Count(ys, p)
  {
    CountTotal(xs, p);
    CountTotal(ys, p);
    TotalPermuted(xs, ys, (x: Item) => if p(x) then 1.0 else 0.0);
  }

  lemma {:induction false} CountAll(xs: seq<Item>, p: Item -> bool, q: Item -> bool)
    requires forall x | x in xs :: p(x) == q(x)
    ensures Count(xs, p) == Count(xs, q)
  {
    if |xs| > 0 {
      assert xs[|xs| - 1] in xs;
      CountAll(xs[..|xs| - 1], p, q);
    }
  }

  lemma {:induction false} CountPositives(xs: seq<Item>)
    ensures Count(xs, (x: Item) => x.positive) == Positives(xs) && Count(xs, (x: Item) => !x.positive) == Negatives(xs)
    ensures Count(xs, (x: Item) => true) == |xs| && Count(xs, (x: Item) => false) == 0
  {
    if |xs| > 0 { CountPositives(xs[..|xs| - 1]); }
  }

  // ---- Pair counting ----

  function NegativeBelow(s: real): Item -> bool { (y: Item) => !y.positive && y.score < s }

  function NegativeAt(s: real): Item -> bool { (y: Item) => !y.positive && y.score == s }

  // Negatives a positive of score s beats, ties counting one half.
  function Wins(s: real, ys: seq<Item>): real {
    Count(ys, NegativeBelow(s)) as real + Count(ys, NegativeAt(s)) as real / 2.0
  }

  function Contribution(ys: seq<Item>): Item -> real {
    (x: Item) => if x.positive then Wins(x.score, ys) else 0.0
  }

  // Correctly ordered positive/negative pairs plus half the tied ones.
  function PairCount(xs: seq<Item>): real { Total(xs, Contribution(xs)) }

  lemma PairCountPermuted(xs: seq<Item>, ys: seq<Item>)
    requires multiset(xs) == multiset(ys)
    ensures PairCount(xs) == PairCount(ys)
  {
    forall x | x in xs ensures Contribution(xs)(x) == Contribution(ys)(x) {
      CountPermuted(xs, ys, NegativeBelow(x.score));
      CountPermuted(xs, ys, NegativeAt(x.score));
    }
    TotalSame(xs, Contribution(xs), Contribution(ys));
    TotalPermuted(xs, ys, Contribution(ys));
  }

  function Triangle(n: nat): real { n as real * (n as real + 1.0) / 2.0 }

  predicate IsGroup(xs: seq<Item>, i: nat, j: nat) {
    && i < j <= |xs|
    && (forall k | i <= k < j :: xs[k].score == xs[i].score)
    && (j < |xs| ==> xs[j].score != xs[i].score)
    && (i > 0 ==> xs[i - 1].score != xs[i].score)
  }

  lemma GroupBounds(xs: seq<Item>, i: nat, j: nat)
    requires Ascending(xs) && IsGroup(xs, i, j)
    ensures forall y | y in xs[..i] :: y.score < xs[i].score
    ensures forall y | y in xs[i..j] :: y.score == xs[i].score
    ensures forall y | y in xs[j..] :: y.score > xs[i].score
  {
  }

  lemma CountThree(a: seq<Item>, g: seq<Item>, b: seq<Item>, p: Item -> bool)
    ensures Count(a + g + b, p) == Count(a, p) + Count(g, p) + Count(b, p)
  {
    CountAppend(a + g, b, p);
    CountAppend(a, g, p);
  }

  // In ascending order, each positive of a tied group beats the negatives before it and half its own.
  lemma GroupWins(xs: seq<Item>, i: nat, j: nat)
    requires Ascending(xs) && IsGroup(xs, i, j)
    ensures Wins(xs[i].score, xs) == Negatives(xs[..i]) as real + Negatives(xs[i..j]) as real / 2.0
  {
    hide Count, Positives;
    GroupBounds(xs, i, j);
    assert xs == xs[..i] + xs[i..j] + xs[j..];
    ThreeWins(xs[i].score, xs[..i], xs[i..j], xs[j..]);
  }

  lemma ThreeWins(s: real, a: seq<Item>, g: seq<Item>, b: seq<Item>)
    requires (forall y | y in a :: y.score < s) && (forall y | y in g :: y.score == s)
             && (forall y | y in b :: y.score > s)
    ensures Wins(s, a + g + b) == Negatives(a) as real + Negatives(g) as real / 2.0
  {
    hide Count, Positives;
    var below, tied := NegativeBelow(s), NegativeAt(s);
    var neg, none := (y: Item) => !y.positive, (y: Item) => false;
    CountThree(a, g, b, below);
    CountThree(a, g, b, tied);
    CountAll(a, below, neg);
    CountAll(a, tied, none);
    CountAll(g, below, none);
    CountAll(g, tied, neg);
    CountAll(b, below, none);
    CountAll(b, tied, none);
    CountPositives(a);
    CountPositives(g);
    CountPositives(b);
  }

  lemma {:induction false} PositivesAppend(xs: seq<Item>, ys: seq<Item>)
    ensures Positives(xs + ys) == Positives(xs) + Positives(ys)
    ensures Negatives(xs + ys) == Negatives(xs) + Negatives(ys)
  {
    CountPositives(xs);
    CountPositives(ys);
    CountPositives(xs + ys);
    CountAppend(xs, ys, (x: Item) => x.positive);
  }

  // One group's average rank times its positives, split into wins and rank overhead.
  lemma GroupRank(p: nat, n: nat, gp: nat, gn: nat, i: nat, j: nat)
    requires i == p + n && j == i + gp + gn
    ensures (i + 1 + j) as real / 2.0 * gp as real
         == gp as real * (n as real + gn as real / 2.0) + Triangle(p + gp) - Triangle(p)
  {
    assert (i + 1 + j) as real == 2.0 * p as real + 2.0 * n as real + gp as real + gn as real + 1.0;
    assert (p + gp) as real == p as real + gp as real;
    RankAlgebra(p as real, n as real, gp as real, gn as real);
  }

  lemma RankAlgebra(p: real, n: real, gp: real, gn: real)
    ensures (2.0 * p + 2.0 * n + gp + gn + 1.0) / 2.0 * gp
         == gp * (n + gn / 2.0) + (p + gp) * (p + gp + 1.0) / 2.0 - p * (p + 1.0) / 2.0
  {
  }

  // What a group adds to the total: its positives times the wins against what lies below and beside it.
  lemma GroupTotal(xs: seq<Item>, i: nat, j: nat)
    requires Ascending(xs) && IsGroup(xs, i, j)
    ensures Total(xs[..j], Contribution(xs)) - Total(xs[..i], Contribution(xs))
         == Positives(xs[i..j]) as real * Wins(xs[i].score, xs)
  {
    hide Total, Positives, Wins, Ascending;
    var f, a, g := Contribution(xs), xs[..i], xs[i..j];
    assert xs[..j] == a + g;
    TotalAppend(a, g, f);
    forall x | x in g ensures f(x) == if x.positive then Wins(xs[i].score, xs) else 0.0 { }
    TotalConstant(g, f, Wins(xs[i].score, xs));
  }

  lemma GroupStep(xs: seq<Item>, i: nat, j: nat)
    requires Ascending(xs) && IsGroup(xs, i, j)
    ensures (i + 1 + j) as real / 2.0 * Positives(xs[i..j]) as real
         == Total(xs[..j], Contribution(xs)) - Total(xs[..i], Contribution(xs))
            + Triangle(Positives(xs[..j])) - Triangle(Positives(xs[..i]))
  {
    hide Triangle, Total, Positives, Wins, Ascending, Contribution;
    var a, g := xs[..i], xs[i..j];
    assert xs[..j] == a + g;
    PositivesAppend(a, g);
    GroupTotal(xs, i, j);
    GroupWins(xs, i, j);
    GroupRank(Positives(a), Negatives(a), Positives(g), Negatives(g), i, j);
  }

  // ---- AUROC ----

  predicate BothClasses(xs: seq<Item>) { 0 < Positives(xs) < |xs| }

  function PerPair(u: real, pos: nat, neg: nat): real
    requires pos > 0 && neg > 0
  {
    Commute(pos as real, neg as real);
    u / (pos as real * neg as real)
  }

  lemma PerPairSymmetric(u: real, pos: nat, neg: nat)
    requires pos > 0 && neg > 0
    ensures PerPair(u, pos, neg) == PerPair(u, neg, pos)
  {
    Commute(pos as real, neg as real);
  }

  // The share of positive/negative pairs ranked correctly, ties counting one half.
  function PairShare(xs: seq<Item>): real
    requires BothClasses(xs)
  {
    PerPair(PairCount(xs), Positives(xs), |xs| - Positives(xs))
  }

  lemma PositivesPermuted(xs: seq<Item>, ys: seq<Item>)
    requires multiset(xs) == multiset(ys)
    ensures Positives(xs) == Positives(ys) && |xs| == |ys|
  {
    CountPermuted(xs, ys, (x: Item) => x.positive);
    CountPositives(xs);
    CountPositives(ys);
    assert |multiset(xs)| == |xs| && |multiset(ys)| == |ys|;
  }

  // The loop that walks tied groups of a sorted list, crediting each group its average rank.
  method RankSum(ordered: seq<Item>) returns (sum: real)
    requires Ascending(ordered)
    ensures sum == PairCount(ordered) + Triangle(Positives(ordered))
  {
    hide Triangle, Total, Positives, Contribution;
    var n := |ordered|;
    sum := 0.0;
    var i := 0;
    ghost var f := Contribution(ordered);
    RankStart(f);
    while i < n
      invariant 0 <= i <= n
      invariant 0 < i < n ==> ordered[i - 1].score != ordered[i].score
      invariant sum == Total(ordered[..i], f) + Triangle(Positives(ordered[..i]))
    {
      var j := GroupEnd(ordered, i);
      GroupStep(ordered, i, j);
      sum := sum + (i + 1 + j) as real / 2.0 * Positives(ordered[i..j]) as real;
      i := j;
    }
    assert ordered[..n] == ordered;
  }

  lemma RankStart(f: Item -> real)
    ensures Total([], f) + Triangle(Positives([])) == 0.0
  {
  }

  method GroupEnd(ordered: seq<Item>, i: nat) returns (j: nat)
    requires i < |ordered| && (i > 0 ==> ordered[i - 1].score != ordered[i].score)
    ensures IsGroup(ordered, i, j)
  {
    j := i + 1;
    while j < |ordered| && ordered[j].score == ordered[i].score
      invariant i < j <= |ordered| && forall k | i <= k < j :: ordered[k].score == ordered[i].score
    {
      j := j + 1;
    }
  }

  // The second implementation adds the average rank once per positive of the group.
  method RankSumPerItem(ordered: seq<Item>) returns (sum: real)
    requires Ascending(ordered)
    ensures sum == PairCount(ordered) + Triangle(Positives(ordered))
  {
    hide Triangle, Total, Positives, Contribution;
    var n := |ordered|;
    sum := 0.0;
    var i := 0;
    ghost var f := Contribution(ordered);
    RankStart(f);
    while i < n
      invariant 0 <= i <= n
      invariant 0 < i < n ==> ordered[i - 1].score != ordered[i].score
      invariant sum == Total(ordered[..i], f) + Triangle(Positives(ordered[..i]))
    {
      var j := GroupEnd(ordered, i);
      GroupStep(ordered, i, j);
      sum := AddPerPositive(sum, (i + 1 + j) as real / 2.0, ordered[i..j]);
      i := j;
    }
    assert ordered[..n] == ordered;
  }

  method AddPerPositive(start: real, rank: real, group: seq<Item>) returns (sum: real)
    ensures sum == start + rank * Positives(group) as real
  {
    sum := start;
    var k := 0;
    while k < |group|
      invariant 0 <= k <= |group| && sum == start + rank * Positives(group[..k]) as real
    {
      assert group[..k + 1][..k] == group[..k];
      AddUnit(Positives(group[..k]), Unit(group[k].positive), rank);
      if group[k].positive {
        sum := sum + rank;
      }
      k := k + 1;
    }
    assert group[..k] == group;
  }

  lemma Commute(x: real, y: real)
    ensures x * y == y * x && (x > 0.0 && y > 0.0 ==> x * y > 0.0)
  {
  }

  // ---- Average precision ----

  function AtLeast(s: real): Item -> bool { (y: Item) => y.score >= s }

  function PositiveAtLeast(s: real): Item -> bool { (y: Item) => y.positive && y.score >= s }

  function Ratio(a: real, b: real): real { if b == 0.0 then 0.0 else a / b }

  // Precision at the threshold of a positive: positives over all, among items scored at least as high.
  function Precision(ys: seq<Item>): Item -> real {
    (x: Item) =>
      if x.positive
      then Ratio(Count(ys, PositiveAtLeast(x.score)) as real, Count(ys, AtLeast(x.score)) as real)
      else 0.0
  }

  // Mean over positives of the precision at their own threshold.
  function MeanPrecision(xs: seq<Item>): real
    requires Positives(xs) > 0
  {
    Total(xs, Precision(xs)) / Positives(xs) as real
  }

  lemma PrecisionPermuted(xs: seq<Item>, ys: seq<Item>)
    requires multiset(xs) == multiset(ys)
    ensures Total(xs, Precision(xs)) == Total(ys, Precision(ys))
  {
    forall x | x in xs ensures Precision(xs)(x) == Precision(ys)(x) {
      CountPermuted(xs, ys, PositiveAtLeast(x.score));
      CountPermuted(xs, ys, AtLeast(x.score));
    }
    TotalSame(xs, Precision(xs), Precision(ys));
    TotalPermuted(xs, ys, Precision(ys));
  }

  // In descending order, the items scored at least as high as a group are those up to its end.
  lemma GroupPrecision(xs: seq<Item>, i: nat, j: nat)
    requires Descending(xs) && IsGroup(xs, i, j)
    ensures Count(xs, AtLeast(xs[i].score)) == j
    ensures Count(xs, PositiveAtLeast(xs[i].score)) == Positives(xs[..j])
  {
    hide Count, Positives;
    var s, a, b := xs[i].score, xs[..j], xs[j..];
    assert xs == a + b;
    CountAppend(a, b, AtLeast(s));
    CountAppend(a, b, PositiveAtLeast(s));
    forall y | y in a ensures y.score >= s { }
    forall y | y in b ensures y.score < s { }
    CountAll(a, AtLeast(s), (y: Item) => true);
    CountAll(b, AtLeast(s), (y: Item) => false);
    CountAll(a, PositiveAtLeast(s), (y: Item) => y.positive);
    CountAll(b, PositiveAtLeast(s), (y: Item) => false);
    CountPositives(a);
    CountPositives(b);
  }

  lemma GroupValue(xs: seq<Item>, i: nat, j: nat, x: Item)
    requires Descending(xs) && IsGroup(xs, i, j) && x in xs[i..j]
    ensures Precision(xs)(x) == if x.positive then Positives(xs[..j]) as real / j as real else 0.0
  {
    hide Count, Positives;
    GroupPrecision(xs, i, j);
  }

  lemma GroupGain(xs: seq<Item>, i: nat, j: nat)
    requires Descending(xs) && IsGroup(xs, i, j)
    ensures Total(xs[..j], Precision(xs))
         == Total(xs[..i], Precision(xs)) + Credit(Positives(xs[i..j]), Positives(xs[..j]), j)
  {
    hide Count, Positives, Total, Precision, Descending;
    var f, a, g := Precision(xs), xs[..i], xs[i..j];
    assert xs[..j] == a + g;
    TotalAppend(a, g, f);
    forall x | x in g ensures f(x) == if x.positive then Positives(xs[..j]) as real / j as real else 0.0 {
      GroupValue(xs, i, j, x);
    }
    TotalConstant(g, f, Positives(xs[..j]) as real / j as real);
  }

  // What a group adds before division by the positives: each of its positives counts the precision at its end.
  function Credit(added: nat, tp: nat, seen: nat): real
    requires seen > 0
  {
    added as real * (tp as real / seen as real)
  }

  // The running average times the positives.
  function Scaled(ap: real, pos: nat): real { ap * pos as real }

  // What a group of tied scores adds: its share of the positives times the precision at its end.
  function Gain(added: nat, pos: nat, tp: nat, seen: nat): real
    requires pos > 0 && seen > 0
  {
    (added as real / pos as real) * (tp as real / seen as real)
  }

  // The grouped loop over descending change points.
  method GroupedPrecision(ordered: seq<Item>, pos: nat) returns (ap: real)
    requires Descending(ordered) && pos == Positives(ordered) > 0
    ensures ap == MeanPrecision(ordered)
  {
    hide Positives, Total, Count, Precision, Gain, Credit, Scaled, Descending;
    var n := |ordered|;
    var tp, seen, i := 0, 0, 0;
    ghost var f := Precision(ordered);
    ap := 0.0;
    Nothing(f);
    NothingScaled(pos);
    while i < n
      invariant 0 <= i <= n && seen == i && tp == Positives(ordered[..i])
      invariant 0 < i < n ==> ordered[i - 1].score != ordered[i].score
      invariant Scaled(ap, pos) == Total(ordered[..i], f)
    {
      var j := GroupEnd(ordered, i);
      var added := Positives(ordered[i..j]);
      assert ordered[..j] == ordered[..i] + ordered[i..j];
      PositivesAppend(ordered[..i], ordered[i..j]);
      GroupGain(ordered, i, j);
      tp := tp + added;
      seen := seen + (j - i);
      Share(ap, pos, added, tp, seen);
      ap := ap + Gain(added, pos, tp, seen);
      i := j;
    }
    assert ordered[..n] == ordered;
    Unscaled(ap, pos);
  }

  lemma Nothing(f: Item -> real)
    ensures Total([], f) == 0.0 && Positives([]) == 0
  {
  }

  lemma Share(ap: real, pos: nat, added: nat, tp: nat, seen: nat)
    requires pos > 0 && seen > 0
    ensures Scaled(ap + Gain(added, pos, tp, seen), pos) == Scaled(ap, pos) + Credit(added, tp, seen)
  {
    var q := added as real / pos as real;
    assert q * pos as real == added as real;
    ShareAlgebra(ap, pos as real, q, tp as real / seen as real);
  }

  lemma ShareAlgebra(ap: real, pos: real, q: real, precision: real)
    ensures (ap + q * precision) * pos == ap * pos + (q * pos) * precision
  {
  }

  lemma NothingScaled(pos: nat)
    ensures Scaled(0.0, pos) == 0.0
  {
  }

  lemma Unscaled(ap: real, pos: nat)
    requires pos > 0
    ensures Scaled(ap, pos) / pos as real == ap
  {
  }

  // ---- The streaming adapter's per-item loop ----

  // Precision accumulated at each positive as the list is read.
  function RunningPrecision(xs: seq<Item>): real {
    if |xs| == 0 then 0.0
    else RunningPrecision(xs[..|xs| - 1])
         + if xs[|xs| - 1].positive then Positives(xs) as real / |xs| as real else 0.0
  }

  method StreamingPrecision(ranked: seq<Item>, n1: nat) returns (ap: real)
    requires n1 > 0
    ensures ap == RunningPrecision(ranked) / n1 as real
  {
    var tp, fp, k := 0, 0, 0;
    ap := 0.0;
    while k < |ranked|
      invariant 0 <= k <= |ranked| && tp == Positives(ranked[..k]) && tp + fp == k
      invariant ap == RunningPrecision(ranked[..k])
    {
      assert ranked[..k + 1][..k] == ranked[..k];
      if ranked[k].positive {
        tp := tp + 1;
        ap := ap + tp as real / (tp + fp) as real;
      } else {
        fp := fp + 1;
      }
      k := k + 1;
    }
    assert ranked[..k] == ranked;
    ap := ap / n1 as real;
  }

  // What the adapter returns, ties in input order.
  function AdapterPrecision(xs: seq<Item>): real
    requires Positives(xs) > 0
  {
    RunningPrecision(Sort(xs, REVERSE_ORDER)) / Positives(xs) as real
  }

  // Wherever a positive shares its score with another item, every item scored at least as high is positive.
  predicate TiedPositivesLead(xs: seq<Item>) {
    forall i, j, k |
      0 <= i < |xs| && 0 <= j < |xs| && 0 <= k < |xs| && i != j
      && xs[i].positive && xs[i].score == xs[j].score && xs[k].score >= xs[i].score
      :: xs[k].positive
  }

  // ---- Each positive's own precision against the one at the end of its group ----

  // The group an index belongs to.
  lemma GroupOf(xs: seq<Item>, k: nat) returns (i: nat, j: nat)
    requires Descending(xs) && k < |xs|
    ensures IsGroup(xs, i, j) && i <= k < j
  {
    i, j := k, k + 1;
    while i > 0 && xs[i - 1].score == xs[k].score
      invariant i <= k && forall m | i <= m <= k :: xs[m].score == xs[k].score
    {
      i := i - 1;
    }
    while j < |xs| && xs[j].score == xs[k].score
      invariant k < j <= |xs| && forall m | i <= m < j :: xs[m].score == xs[k].score
    {
      j := j + 1;
    }
  }

  lemma {:induction false} PositivesBetween(xs: seq<Item>, i: nat, j: nat)
    requires i <= j <= |xs|
    ensures Positives(xs[..i]) <= Positives(xs[..j]) <= Positives(xs[..i]) + (j - i)
    ensures (forall m | i <= m < j :: xs[m].positive) ==> Positives(xs[..j]) == Positives(xs[..i]) + (j - i)
    ensures (exists m | i <= m < j :: !xs[m].positive) ==> Positives(xs[..j]) < Positives(xs[..i]) + (j - i)
  {
    if i < j {
      assert xs[..j][..j - 1] == xs[..j - 1];
      PositivesBetween(xs, i, j - 1);
    }
  }

  // Adding positives to a prefix cannot lower its precision, and raises it when the prefix has a negative.
  lemma RatioGrows(p: nat, q: nat, r: nat)
    requires p <= q && q > 0
    ensures p as real / q as real <= (p + r) as real / (q + r) as real
    ensures p < q && r > 0 ==> p as real / q as real < (p + r) as real / (q + r) as real
    ensures p == q ==> p as real / q as real == (p + r) as real / (q + r) as real
  {
    var x, y := p as real / q as real, (p + r) as real / (q + r) as real;
    CrossMultiply(p, q, r, x, y);
  }

  lemma CrossMultiply(p: nat, q: nat, r: nat, x: real, y: real)
    requires q > 0 && x * q as real == p as real && y * (q + r) as real == (p + r) as real
    requires p <= q
    ensures x <= y && (p < q && r > 0 ==> x < y) && (p == q ==> x == y)
  {
    var share := q as real;
    var gain := r as real;
    assert (p + r) as real == p as real + gain && (q + r) as real == share + gain;
    AtMostOne(x, share, p as real);
    GapTimes(x, y, share, gain);
    SignOf(y - x, share + gain);
    ZeroOrMore(gain, 1.0 - x);
  }

  lemma AtMostOne(x: real, q: real, p: real)
    requires q > 0.0 && p <= q && x * q == p
    ensures x <= 1.0 && (p < q ==> x < 1.0) && (p == q ==> x == 1.0)
  {
    assert (1.0 - x) * q == q - p;
    SignOf(1.0 - x, q);
  }

  lemma GapTimes(x: real, y: real, q: real, r: real)
    requires y * (q + r) == x * q + r
    ensures (y - x) * (q + r) == r * (1.0 - x)
  {
  }

  lemma SignOf(d: real, q: real)
    requires q > 0.0
    ensures d > 0.0 <==> d * q > 0.0
    ensures d == 0.0 <==> d * q == 0.0
  {
  }

  lemma ZeroOrMore(a: real, b: real)
    requires a >= 0.0 && b >= 0.0
    ensures a * b >= 0.0 && (a > 0.0 && b > 0.0 ==> a * b > 0.0) && (b == 0.0 ==> a * b == 0.0)
  {
  }

  // The precision of a positive at index k, read up to the end of its group.
  lemma PrecisionAt(xs: seq<Item>, k: nat, i: nat, j: nat)
    requires Descending(xs) && IsGroup(xs, i, j) && i <= k < j && xs[k].positive
    ensures Precision(xs)(xs[k]) == Positives(xs[..j]) as real / j as real
  {
    hide Count, Positives;
    GroupPrecision(xs, i, j);
  }

  function OwnPrecision(xs: seq<Item>, k: nat): real
    requires k < |xs|
  {
    if xs[k].positive then Positives(xs[..k + 1]) as real / (k + 1) as real else 0.0
  }

  // No score is shared by a positive and a negative.
  predicate Unmixed(xs: seq<Item>) {
    forall i, j | 0 <= i < j < |xs| && xs[i].score == xs[j].score :: xs[i].positive == xs[j].positive
  }

  // A positive tied with a later item and preceded by a negative.
  predicate Lags(xs: seq<Item>, k: nat) {
    k + 1 < |xs| && xs[k].positive && xs[k + 1].score == xs[k].score && exists m | 0 <= m < k :: !xs[m].positive
  }

  lemma IndexCompared(xs: seq<Item>, k: nat)
    requires Descending(xs) && Unmixed(xs) && k < |xs|
    ensures OwnPrecision(xs, k) <= Precision(xs)(xs[k])
    ensures Lags(xs, k) ==> OwnPrecision(xs, k) < Precision(xs)(xs[k])
  {
    hide Count, Positives;
    if xs[k].positive {
      var i, j := GroupOf(xs, k);
      PrecisionAt(xs, k, i, j);
      assert forall m | k + 1 <= m < j :: xs[m].positive;
      PositivesBetween(xs, k + 1, j);
      PositivesBetween(xs, 0, k + 1);
      NoPositives(xs);
      RatioGrows(Positives(xs[..k + 1]), k + 1, j - (k + 1));
    }
  }

  lemma NoPositives(xs: seq<Item>)
    ensures Positives(xs[..0]) == 0
  {
  }

  lemma IndexLeads(xs: seq<Item>, k: nat)
    requires Descending(xs) && TiedPositivesLead(xs) && k < |xs|
    ensures OwnPrecision(xs, k) == Precision(xs)(xs[k])
  {
    hide Count, Positives;
    if xs[k].positive {
      var i, j := GroupOf(xs, k);
      PrecisionAt(xs, k, i, j);
      if j - i > 1 {
        var other := if k == i then i + 1 else i;
        forall m | 0 <= m < j ensures xs[m].positive {
          assert xs[m].score >= xs[k].score == xs[other].score;
        }
        PositivesBetween(xs, 0, k + 1);
        PositivesBetween(xs, k + 1, j);
        NoPositives(xs);
        RatioGrows(k + 1, k + 1, j - (k + 1));
      }
    }
  }

  lemma {:induction false} SumsCompared(xs: seq<Item>, n: nat)
    requires Descending(xs) && Unmixed(xs) && n <= |xs|
    ensures RunningPrecision(xs[..n]) <= Total(xs[..n], Precision(xs))
    ensures (exists k: nat | k < n :: Lags(xs, k)) ==> RunningPrecision(xs[..n]) < Total(xs[..n], Precision(xs))
  {
    hide Positives, Precision, Lags, Unmixed, Descending;
    if n > 0 {
      SumsCompared(xs, n - 1);
      IndexCompared(xs, n - 1);
      assert xs[..n][..n - 1] == xs[..n - 1];
    }
  }

  lemma {:induction false} SumsEqual(xs: seq<Item>, n: nat)
    requires Descending(xs) && TiedPositivesLead(xs) && n <= |xs|
    ensures RunningPrecision(xs[..n]) == Total(xs[..n], Precision(xs))
  {
    hide Positives, Precision, TiedPositivesLead, Descending;
    if n > 0 {
      SumsEqual(xs, n - 1);
      IndexLeads(xs, n - 1);
      assert xs[..n][..n - 1] == xs[..n - 1];
    }
  }

  // ---- Order within a mixed tie matters ----

  function Swapped(xs: seq<Item>, k: nat): (r: seq<Item>)
    requires k + 1 < |xs|
    ensures |r| == |xs|
  {
    xs[..k] + [xs[k + 1], xs[k]] + xs[k + 2..]
  }

  lemma SwapKeeps(xs: seq<Item>, k: nat)
    requires k + 1 < |xs| && xs[k].score == xs[k + 1].score && Descending(xs)
    ensures Descending(Swapped(xs, k)) && multiset(Swapped(xs, k)) == multiset(xs)
  {
    assert xs == xs[..k] + [xs[k], xs[k + 1]] + xs[k + 2..];
    var ys := Swapped(xs, k);
    assert forall m | 0 <= m < |xs| :: ys[m].score == xs[m].score;
  }

  // From the swapped pair on, the two running sums keep their difference.
  lemma {:induction false} DifferenceKept(xs: seq<Item>, k: nat, n: nat)
    requires k + 2 <= n <= |xs|
    ensures Positives(Swapped(xs, k)[..n]) == Positives(xs[..n])
    ensures RunningPrecision(Swapped(xs, k)[..n]) - RunningPrecision(xs[..n])
         == RunningPrecision(Swapped(xs, k)[..k + 2]) - RunningPrecision(xs[..k + 2])
  {
    var ys := Swapped(xs, k);
    if n > k + 2 {
      DifferenceKept(xs, k, n - 1);
      assert ys[..n][..n - 1] == ys[..n - 1] && xs[..n][..n - 1] == xs[..n - 1];
      assert ys[n - 1] == xs[n - 1];
    } else {
      PairCounted(xs, k);
      PairCounted(ys, k);
      assert ys[..k] == xs[..k];
    }
  }

  // Positives and running sum two places on.
  lemma PairCounted(xs: seq<Item>, k: nat)
    requires k + 1 < |xs|
    ensures var a, p, q := Positives(xs[..k]), Unit(xs[k].positive), Unit(xs[k + 1].positive);
            && Positives(xs[..k + 2]) == a + p + q
            && RunningPrecision(xs[..k + 2]) == RunningPrecision(xs[..k])
               + (if xs[k].positive then (a + p) as real / (k + 1) as real else 0.0)
               + (if xs[k + 1].positive then (a + p + q) as real / (k + 2) as real else 0.0)
  {
    assert xs[..k + 2][..k + 1] == xs[..k + 1] && xs[..k + 1][..k] == xs[..k];
  }

  lemma SwapChanges(xs: seq<Item>, k: nat)
    requires k + 1 < |xs| && xs[k].positive != xs[k + 1].positive
    ensures RunningPrecision(Swapped(xs, k)) != RunningPrecision(xs)
  {
    hide Positives, RunningPrecision;
    var ys := Swapped(xs, k);
    DifferenceKept(xs, k, |xs|);
    assert ys[..|xs|] == ys && xs[..|xs|] == xs && ys[..k] == xs[..k];
    if xs[k].positive { PairDiffers(xs, ys, k); } else { PairDiffers(ys, xs, k); }
  }

  // A positive counts for more when it comes before the negative.
  lemma PairDiffers(xs: seq<Item>, ys: seq<Item>, k: nat)
    requires k + 1 < |xs| && k + 1 < |ys| && xs[..k] == ys[..k]
    requires xs[k].positive && !xs[k + 1].positive && !ys[k].positive && ys[k + 1].positive
    ensures RunningPrecision(ys[..k + 2]) < RunningPrecision(xs[..k + 2])
  {
    hide Positives, RunningPrecision;
    PairCounted(xs, k);
    PairCounted(ys, k);
    SmallerShare((Positives(xs[..k]) + 1) as real, (k + 1) as real);
  }

  lemma SmallerShare(p: real, q: real)
    requires p > 0.0 && q > 0.0
    ensures p / (q + 1.0) < p / q
  {
    var x, y := p / q, p / (q + 1.0);
    assert x * q == p && y * (q + 1.0) == p;
    assert (x - y) * (q + 1.0) == x;
  }

  // A mixed tie has a positive and a negative side by side.
  lemma Neighbors(xs: seq<Item>) returns (k: nat)
    requires Descending(xs) && !Unmixed(xs)
    ensures k + 1 < |xs| && xs[k].score == xs[k + 1].score && xs[k].positive != xs[k + 1].positive
  {
    var i, j :| 0 <= i < j < |xs| && xs[i].score == xs[j].score && xs[i].positive != xs[j].positive;
    k := i;
    while xs[k].positive == xs[k + 1].positive
      invariant i <= k < j && xs[k].positive == xs[i].positive
      decreases j - k
    {
      k := k + 1;
    }
  }

  // ---- Permutations ----

  lemma {:induction false} SortedFixed(xs: seq<Item>)
    requires Descending(xs)
    ensures Sort(xs, REVERSE_ORDER) == xs
  {
    if |xs| > 0 { SortedFixed(xs[1..]); }
  }

  lemma {:induction false} TwoPlaces(xs: seq<Item>, x: Item) returns (i: nat, j: nat)
    requires multiset(xs)[x] >= 2
    ensures i < j < |xs| && xs[i] == x == xs[j]
  {
    var n := |xs| - 1;
    assert xs == xs[..n] + [xs[n]];
    if xs[n] == x {
      assert x in multiset(xs[..n]);
      i :| 0 <= i < n && xs[..n][i] == x;
      j := n;
    } else {
      i, j := TwoPlaces(xs[..n], x);
    }
  }

  lemma PlaceOf(xs: seq<Item>, x: Item) returns (i: nat)
    requires x in multiset(xs)
    ensures i < |xs| && xs[i] == x
  {
    i :| 0 <= i < |xs| && xs[i] == x;
  }

  lemma Twice(ys: seq<Item>, i: nat, j: nat)
    requires i < j < |ys| && ys[i] == ys[j]
    ensures multiset(ys)[ys[i]] >= 2
  {
    assert ys == ys[..i] + [ys[i]] + ys[i + 1..j] + [ys[j]] + ys[j + 1..];
  }

  lemma TiesPermuted(xs: seq<Item>, ys: seq<Item>, i: nat, j: nat) returns (a: nat, b: nat)
    requires multiset(xs) == multiset(ys) && i < |ys| && j < |ys| && i != j
    ensures a < |xs| && b < |xs| && a != b && xs[a] == ys[i] && xs[b] == ys[j]
  {
    if ys[i] == ys[j] {
      Twice(ys, if i < j then i else j, if i < j then j else i);
      a, b := TwoPlaces(xs, ys[i]);
    } else {
      assert ys[i] in multiset(ys) && ys[j] in multiset(ys);
      a := PlaceOf(xs, ys[i]);
      b := PlaceOf(xs, ys[j]);
    }
  }

  lemma LeadPermuted(xs: seq<Item>, ys: seq<Item>)
    requires multiset(xs) == multiset(ys) && TiedPositivesLead(xs)
    ensures TiedPositivesLead(ys)
  {
    forall i, j, k |
      0 <= i < |ys| && 0 <= j < |ys| && 0 <= k < |ys| && i != j
      && ys[i].positive && ys[i].score == ys[j].score && ys[k].score >= ys[i].score
      ensures ys[k].positive
    {
      var a, b := TiesPermuted(xs, ys, i, j);
      assert ys[k] in multiset(ys);
      var c := PlaceOf(xs, ys[k]);
      assert xs[c].score >= xs[a].score;
    }
  }

  // ---- When the two average precisions agree ----

  // The adapter returns the grouped value however the items are listed.
  ghost predicate AgreesInEveryOrder(items: seq<Item>)
    requires Positives(items) > 0
  {
    forall xs: seq<Item> | multiset(xs) == multiset(items) ::
      Positives(xs) > 0 && AdapterPrecision(xs) == MeanPrecision(items)
  }

  lemma LeadAgrees(items: seq<Item>, xs: seq<Item>)
    requires Positives(items) > 0 && TiedPositivesLead(items) && multiset(xs) == multiset(items)
    ensures Positives(xs) > 0 && AdapterPrecision(xs) == MeanPrecision(items)
  {
    hide Positives, Precision, RunningPrecision, Total, TiedPositivesLead, Sort;
    var ranked := Sort(xs, REVERSE_ORDER);
    SortedDescending(xs);
    PositivesPermuted(xs, items);
    LeadPermuted(items, ranked);
    SumsEqual(ranked, |ranked|);
    assert ranked[..|ranked|] == ranked;
    PrecisionPermuted(ranked, items);
  }

  // Equal averages over the same positives mean equal sums.
  lemma SameSums(items: seq<Item>, ranked: seq<Item>)
    requires Positives(items) > 0 && AgreesInEveryOrder(items)
    requires Descending(ranked) && multiset(ranked) == multiset(items)
    ensures RunningPrecision(ranked) == Total(items, Precision(items))
  {
    hide Positives, Precision, RunningPrecision, Total, Sort;
    SortedFixed(ranked);
    PositivesPermuted(ranked, items);
    var pos := Positives(items) as real;
    assert AdapterPrecision(ranked) == MeanPrecision(items);
    SameQuotients(RunningPrecision(ranked), Total(items, Precision(items)), pos);
  }

  lemma SameQuotients(x: real, y: real, d: real)
    requires d > 0.0 && x / d == y / d
    ensures x == y
  {
    assert x == x / d * d && y == y / d * d;
  }

  lemma AgreementUnmixes(items: seq<Item>, ranked: seq<Item>)
    requires Positives(items) > 0 && AgreesInEveryOrder(items)
    requires Descending(ranked) && multiset(ranked) == multiset(items)
    ensures Unmixed(ranked)
  {
    hide Positives, Precision, RunningPrecision, Total, AgreesInEveryOrder;
    if !Unmixed(ranked) {
      var k := Neighbors(ranked);
      SwapKeeps(ranked, k);
      SameSums(items, ranked);
      SameSums(items, Swapped(ranked, k));
      SwapChanges(ranked, k);
    }
  }

  // A tied positive that does not lead makes the first of its group lag.
  lemma SomeLag(xs: seq<Item>) returns (first: nat)
    requires Descending(xs) && Unmixed(xs) && !TiedPositivesLead(xs)
    ensures first < |xs| && Lags(xs, first)
  {
    var i, j, k :| 0 <= i < |xs| && 0 <= j < |xs| && 0 <= k < |xs| && i != j
      && xs[i].positive && xs[i].score == xs[j].score && xs[k].score >= xs[i].score && !xs[k].positive;
    var end;
    first, end := GroupOf(xs, i);
    InGroup(xs, first, end, j);
    LeadsGroup(xs, first, end, i, k);
  }

  lemma InGroup(xs: seq<Item>, i: nat, j: nat, k: nat)
    requires Descending(xs) && IsGroup(xs, i, j) && k < |xs| && xs[k].score == xs[i].score
    ensures i <= k < j
  {
  }

  // A negative at least as high as a group of positives comes before it.
  lemma LeadsGroup(xs: seq<Item>, i: nat, j: nat, p: nat, k: nat)
    requires Descending(xs) && Unmixed(xs) && IsGroup(xs, i, j) && i <= p < j && xs[p].positive
    requires k < |xs| && xs[k].score >= xs[i].score && !xs[k].positive
    ensures k < i && xs[i].positive
  {
  }

  // The two average precisions agree in every order of the items exactly when each positive that shares
  // its score belongs to a top block of positives.
  lemma AveragePrecisionsAgreeExactly(items: seq<Item>)
    requires BothClasses(items)
    ensures AgreesInEveryOrder(items) <==> TiedPositivesLead(items)
  {
    hide Positives, Precision, RunningPrecision, Total, TiedPositivesLead, Unmixed, Lags, Descending;
    if TiedPositivesLead(items) {
      forall xs: seq<Item> | multiset(xs) == multiset(items)
        ensures Positives(xs) > 0 && AdapterPrecision(xs) == MeanPrecision(items)
      {
        LeadAgrees(items, xs);
      }
    } else if AgreesInEveryOrder(items) {
      var ranked := Sort(items, REVERSE_ORDER);
      SortedDescending(items);
      AgreementUnmixes(items, ranked);
      SameSums(items, ranked);
      PrecisionPermuted(ranked, items);
      NotLeading(items, ranked);
    }
  }

  lemma NotLeading(items: seq<Item>, ranked: seq<Item>)
    requires Descending(ranked) && Unmixed(ranked) && multiset(ranked) == multiset(items) && !TiedPositivesLead(items)
    ensures RunningPrecision(ranked) < Total(ranked, Precision(ranked))
  {
    hide Positives, Precision, RunningPrecision, Total, TiedPositivesLead, Unmixed, Lags, Descending;
    if TiedPositivesLead(ranked) {
      LeadPermuted(ranked, items);
    } else {
      var k := SomeLag(ranked);
      SumsCompared(ranked, |ranked|);
      assert ranked[..|ranked|] == ranked;
    }
  }

  predicate DistinctScores(xs: seq<Item>) { forall i, j | 0 <= i < j < |xs| :: xs[i].score != xs[j].score }

  // In particular they agree whenever no two scores are equal.
  lemma AveragePrecisionsAgree(items: seq<Item>)
    requires BothClasses(items) && DistinctScores(items)
    ensures AdapterPrecision(items) == MeanPrecision(items)
  {
    LeadAgrees(items, items);
  }

  // With a tie they do not: one positive and one negative at the same score.
  lemma AveragePrecisionsDifferOnTies()
    ensures var items := [Item(0.5, true), Item(0.5, false)];
            BothClasses(items)
            && AdapterPrecision(items) == 1.0
            && MeanPrecision(items) == 0.5
  {
    var p, q := Item(0.5, true), Item(0.5, false);
    var items := [p, q];
    assert items[1..] == [q] && [q][1..] == [];
    assert Sort([q], REVERSE_ORDER) == [q];
    assert Sort(items, REVERSE_ORDER) == [p] + [q] == items;
    assert items[..1] == [p] && [p][..0] == [];
    assert Positives([p]) == 1 && Positives(items) == 1;
    assert RunningPrecision([p]) == 1.0 && RunningPrecision(items) == 1.0;
    assert Count([p], PositiveAtLeast(0.5)) == 1 && Count(items, PositiveAtLeast(0.5)) == 1;
    assert Count([p], AtLeast(0.5)) == 1 && Count(items, AtLeast(0.5)) == 2;
    assert Total([p], Precision(items)) == 0.5 && Total(items, Precision(items)) == 0.5;
  }

  // ---- The two evaluation functions ----

  function Reversed(xs: seq<Item>): seq<Item> {
    if |xs| == 0 then [] else Reversed(xs[1..]) + [xs[0]]
  }

  lemma {:induction false} ReversedAt(xs: seq<Item>)
    ensures |Reversed(xs)| == |xs| && forall k | 0 <= k < |xs| :: Reversed(xs)[k] == xs[|xs| - 1 - k]
    ensures multiset(Reversed(xs)) == multiset(xs)
  {
    if |xs| > 0 {
      ReversedAt(xs[1..]);
      assert xs == [xs[0]] + xs[1..];
    }
  }

  lemma ReversedDescends(xs: seq<Item>)
    requires Ascending(xs)
    ensures Descending(Reversed(xs)) && multiset(Reversed(xs)) == multiset(xs)
  {
    ReversedAt(xs);
  }

  predicate Probabilities(xs: seq<Item>) { forall i | 0 <= i < |xs| :: 0.0 <= xs[i].score <= 1.0 }

  // AUROC and average precision as the analysis module computes them; None stands for its error. Both
  // are functions of the items alone, whatever order ties come out of the sort in. The threshold of the
  // classification metrics is checked with the scores.
  method BinaryMetrics(items: seq<Item>, threshold: real) returns (r: Option<(real, real)>)
    ensures r.Some? <==> BothClasses(items) && Probabilities(items) && 0.0 <= threshold <= 1.0
    ensures r.Some? ==> r.value == (PairShare(items), MeanPrecision(items))
  {
    hide Triangle, Positives, PairCount, PerPair, Precision, Total, Sort, Reversed;
    if !BothClasses(items) { return None; }
    if (exists i | 0 <= i < |items| :: !(0.0 <= items[i].score <= 1.0)) || !(0.0 <= threshold <= 1.0) { return None; }
    SortedByScore(items, PAIR_ORDER);
    var ordered := Sort(items, PAIR_ORDER);
    PairCountPermuted(ordered, items);
    PositivesPermuted(ordered, items);
    var pos := Positives(items);
    var sum := RankSum(ordered);
    var auroc := PerPair(sum - Triangle(pos), pos, |items| - pos);
    ReversedDescends(ordered);
    ordered := Reversed(ordered);
    PositivesPermuted(ordered, items);
    PrecisionPermuted(ordered, items);
    var ap := GroupedPrecision(ordered, pos);
    r := Some((auroc, ap));
  }

  // The streaming adapter: the same AUROC, average precision item by item, and no check of the range.
  method StreamingMetrics(items: seq<Item>) returns (r: Option<(real, real)>)
    ensures r.Some? <==> BothClasses(items)
    ensures r.Some? ==> r.value.0 == PairShare(items)
    ensures r.Some? ==> r.value.1 == AdapterPrecision(items)
    ensures r.Some? && TiedPositivesLead(items) ==> r.value.1 == MeanPrecision(items)
  {
    hide Triangle, Positives, PairCount, PerPair, Precision, Total, RunningPrecision, TiedPositivesLead, Sort;
    if !BothClasses(items) { return None; }
    SortedByScore(items, SCORE_ORDER);
    var ranked := Sort(items, SCORE_ORDER);
    PairCountPermuted(ranked, items);
    PositivesPermuted(ranked, items);
    var n1 := Positives(items);
    var sum := RankSumPerItem(ranked);
    PerPairSymmetric(PairCount(items), n1, |items| - n1);
    var auroc := PerPair(sum - Triangle(n1), |items| - n1, n1);
    var ap := StreamingPrecision(Sort(items, REVERSE_ORDER), n1);
    if TiedPositivesLead(items) { LeadAgrees(items, items); }
    r := Some((auroc, ap));
  }
}
