// Holm's step-down adjustment against closed testing with Bonferroni intersection tests.
module Holm {
  import opened Options
  import opened Reals
  import opened Sets

  type Hypotheses = set<nat>

  predicate AllProbabilities(vals: seq<real>) { forall i | 0 <= i < |vals| :: 0.0 <= vals[i] <= 1.0 }

  function Times(n: nat, p: real): real { n as real * p }

  // ---- The adjustment as the source computes it ----

  // sorted(range(m), key=...) is a stable sort of the indices by value.
  function InsertIndex(vals: seq<real>, j: nat, order: seq<nat>): (r: seq<nat>)
    requires j < |vals| && InRange(vals, order)
    ensures InRange(vals, r)
  {
    if |order| == 0 then [j]
    else if vals[j] < vals[order[0]] then [j] + order
    else [order[0]] + InsertIndex(vals, j, order[1..])
  }

  function SortedIndices(vals: seq<real>, m: nat): (order: seq<nat>)
    requires m <= |vals|
    ensures InRange(vals, order)
  {
    if m == 0 then [] else InsertIndex(vals, m - 1, SortedIndices(vals, m - 1))
  }

  predicate InRange(vals: seq<real>, order: seq<nat>) { forall k | 0 <= k < |order| :: order[k] < |vals| }

  method Holm(vals: seq<real>) returns (r: Option<seq<real>>)
    ensures r.Some? <==> forall i | 0 <= i < |vals| :: 0.0 <= vals[i] <= 1.0
    ensures r.Some? ==> |r.value| == |vals|
    ensures r.Some? ==> forall i | 0 <= i < |vals| :: IsClosedTestValue(vals, i, r.value[i])
  {
    hide Times, IsClosedTestValue, SortedIndices, StepMax;
    if exists i | 0 <= i < |vals| :: !(0.0 <= vals[i] <= 1.0) { return None; }
    var m := |vals|;
    var order := SortedIndices(vals, m);
    SortedIndicesSorted(vals, m);
    var out := seq(m, _ => 0.0);
    var prior := 0.0;
    StepMaxUnfolds(vals, order, 0);
    var rank := 0;
    while rank < m
      invariant 0 <= rank <= m && |out| == m
      invariant prior == StepMax(vals, order, rank)
      invariant forall k | 0 <= k < rank :: out[order[k]] == StepMax(vals, order, k + 1)
    {
      var idx := order[rank];
      var adjusted := MinReal(1.0, Times(m - rank, vals[idx]));
      prior := MaxReal(prior, adjusted);
      StepMaxUnfolds(vals, order, rank + 1);
      out := out[idx := prior];
      rank := rank + 1;
    }
    forall i | 0 <= i < m ensures IsClosedTestValue(vals, i, out[i]) {
      var k := PlaceOf(order, i);
      StepMaxIsClosed(vals, order, k);
    }
    r := Some(out);
  }

  // ---- Closed testing ----

  ghost function Least(vals: seq<real>, s: Hypotheses): (p: real)
    requires s != {} && forall j | j in s :: j < |vals|
    ensures (exists j | j in s :: vals[j] == p) && forall j | j in s :: p <= vals[j]
  {
    var j :| j in s;
    if s - {j} == {} then assert s == {j}; vals[j] else
      var q := Least(vals, s - {j});
      if vals[j] <= q then vals[j] else q
  }

  // The Bonferroni p-value of the intersection of the hypotheses in s.
  ghost function Bonferroni(vals: seq<real>, s: Hypotheses): real
    requires s != {} && forall j | j in s :: j < |vals|
  {
    MinReal(1.0, Times(|s|, Least(vals, s)))
  }

  ghost predicate Contains(vals: seq<real>, s: Hypotheses, i: nat) {
    i in s && forall j | j in s :: j < |vals|
  }

  // p is the greatest Bonferroni p-value over all intersections that involve hypothesis i.
  ghost predicate IsClosedTestValue(vals: seq<real>, i: nat, p: real) {
    && (forall s: Hypotheses | Contains(vals, s, i) :: Bonferroni(vals, s) <= p)
    && (exists s: Hypotheses | Contains(vals, s, i) :: Bonferroni(vals, s) == p)
  }

  // ---- The order of the p-values ----

  predicate Distinct(order: seq<nat>) { forall j, k | 0 <= j < k < |order| :: order[j] != order[k] }

  predicate Nondecreasing(vals: seq<real>, order: seq<nat>)
    requires InRange(vals, order)
  {
    forall j, k | 0 <= j <= k < |order| :: vals[order[j]] <= vals[order[k]]
  }

  // order lists every index once, by nondecreasing value.
  ghost predicate SortedBy(vals: seq<real>, order: seq<nat>) {
    && |order| == |vals| && InRange(vals, order) && Distinct(order) && Nondecreasing(vals, order)
  }

  lemma {:induction false} InsertMembers(vals: seq<real>, j: nat, order: seq<nat>)
    requires j < |vals| && InRange(vals, order)
    ensures |InsertIndex(vals, j, order)| == |order| + 1
    ensures forall k | k in InsertIndex(vals, j, order) :: k == j || k in order
  {
    if |order| > 0 && vals[j] >= vals[order[0]] { InsertMembers(vals, j, order[1..]); }
  }

  lemma {:induction false} InsertSorted(vals: seq<real>, j: nat, order: seq<nat>)
    requires j < |vals| && InRange(vals, order) && Distinct(order) && Nondecreasing(vals, order) && j !in order
    ensures Distinct(InsertIndex(vals, j, order)) && Nondecreasing(vals, InsertIndex(vals, j, order))
  {
    if |order| > 0 && vals[j] >= vals[order[0]] {
      InsertSorted(vals, j, order[1..]);
      InsertMembers(vals, j, order[1..]);
      var rest := InsertIndex(vals, j, order[1..]);
      assert InsertIndex(vals, j, order) == [order[0]] + rest;
      forall k | k in rest ensures k != order[0] && vals[order[0]] <= vals[k] {
        if k != j {
          var at :| 1 <= at < |order| && order[at] == k;
        }
      }
    }
  }

  lemma {:induction false} SortedIndicesSorted(vals: seq<real>, m: nat)
    requires m <= |vals|
    ensures var order := SortedIndices(vals, m);
            |order| == m && (forall k | k in order :: k < m) && Distinct(order) && Nondecreasing(vals, order)
  {
    if m > 0 {
      SortedIndicesSorted(vals, m - 1);
      InsertMembers(vals, m - 1, SortedIndices(vals, m - 1));
      InsertSorted(vals, m - 1, SortedIndices(vals, m - 1));
    }
  }

  // The hypotheses of rank k and above.
  ghost function Tail(order: seq<nat>, k: nat): Hypotheses {
    set j | k <= j < |order| :: order[j]
  }

  lemma {:induction false} TailSize(vals: seq<real>, order: seq<nat>, k: nat)
    requires SortedBy(vals, order) && k <= |order|
    ensures |Tail(order, k)| == |order| - k
    decreases |order| - k
  {
    if k < |order| {
      TailSize(vals, order, k + 1);
      assert Tail(order, k) == Tail(order, k + 1) + {order[k]};
    } else {
      assert Tail(order, k) == {};
    }
  }

  // ---- Step-down values ----

  function Step(vals: seq<real>, order: seq<nat>, k: nat): real
    requires k < |order| && order[k] < |vals|
  {
    MinReal(1.0, Times(|order| - k, vals[order[k]]))
  }

  // Running maximum of the first n step values.
  function StepMax(vals: seq<real>, order: seq<nat>, n: nat): (r: real)
    requires n <= |order| && InRange(vals, order)
  {
    if n == 0 then 0.0 else MaxReal(StepMax(vals, order, n - 1), Step(vals, order, n - 1))
  }

  lemma StepMaxUnfolds(vals: seq<real>, order: seq<nat>, n: nat)
    requires n <= |order| && InRange(vals, order)
    ensures StepMax(vals, order, n)
         == if n == 0 then 0.0 else MaxReal(StepMax(vals, order, n - 1), Step(vals, order, n - 1))
  {
  }

  lemma {:induction false} StepMaxAttained(vals: seq<real>, order: seq<nat>, n: nat)
    requires SortedBy(vals, order) && 0 < n <= |order| && AllProbabilities(vals)
    ensures exists k | 0 <= k < n :: StepMax(vals, order, n) == Step(vals, order, k)
    ensures forall k | 0 <= k < n :: Step(vals, order, k) <= StepMax(vals, order, n)
  {
    hide Times;
    TimesMonotone(0, |order| - (n - 1), vals[order[n - 1]]);
    if n > 1 {
      StepMaxAttained(vals, order, n - 1);
    } else {
      assert StepMax(vals, order, 1) == Step(vals, order, 0);
    }
    if StepMax(vals, order, n) == Step(vals, order, n - 1) {
      assert 0 <= n - 1 < n;
    } else {
      var k :| 0 <= k < n - 1 && StepMax(vals, order, n - 1) == Step(vals, order, k);
    }
  }

  lemma TimesMonotone(a: nat, b: nat, p: real)
    requires a <= b && p >= 0.0
    ensures 0.0 <= Times(a, p) <= Times(b, p)
  {
  }

  lemma LeastIs(vals: seq<real>, s: Hypotheses, i: nat)
    requires i in s && (forall j | j in s :: j < |vals|) && forall j | j in s :: vals[i] <= vals[j]
    ensures Least(vals, s) == vals[i]
  {
  }

  lemma TailLeast(vals: seq<real>, order: seq<nat>, k: nat, j: nat)
    requires SortedBy(vals, order) && k < |order| && j in Tail(order, k)
    ensures j < |vals| && vals[order[k]] <= vals[j]
  {
    var at :| k <= at < |order| && order[at] == j;
  }

  // No set of hypotheses has a larger Bonferroni p-value than the tail from its least rank.
  lemma BonferroniBound(vals: seq<real>, order: seq<nat>, s: Hypotheses, k: nat)
    requires SortedBy(vals, order) && AllProbabilities(vals) && k < |order|
    requires s <= Tail(order, k) && order[k] in s
    ensures forall j | j in s :: j < |vals|
    ensures Bonferroni(vals, s) <= Step(vals, order, k)
  {
    hide Least, Times;
    TailSize(vals, order, k);
    SubsetSize(s, Tail(order, k));
    forall j | j in s ensures j < |vals| && vals[order[k]] <= vals[j] { TailLeast(vals, order, k, j); }
    LeastIs(vals, s, order[k]);
    TimesMonotone(|s|, |order| - k, vals[order[k]]);
  }

  lemma TailAttains(vals: seq<real>, order: seq<nat>, k: nat)
    requires SortedBy(vals, order) && k < |order|
    ensures order[k] in Tail(order, k) && (forall j | j in Tail(order, k) :: j < |vals|)
    ensures Bonferroni(vals, Tail(order, k)) == Step(vals, order, k)
  {
    hide Least, Times;
    TailSize(vals, order, k);
    var s := Tail(order, k);
    assert order[k] in s;
    forall j | j in s ensures j < |vals| && vals[order[k]] <= vals[j] { TailLeast(vals, order, k, j); }
    LeastIs(vals, s, order[k]);
  }

  lemma LeastRank(vals: seq<real>, order: seq<nat>, s: Hypotheses, r: nat) returns (k: nat)
    requires SortedBy(vals, order) && r < |order| && order[r] in s && forall j | j in s :: j < |vals|
    ensures k <= r && order[k] in s && s <= Tail(order, k)
  {
    k := 0;
    while order[k] !in s
      invariant 0 <= k <= r && forall j | 0 <= j < k :: order[j] !in s
      decreases r - k
    {
      k := k + 1;
    }
    forall j | j in s ensures j in Tail(order, k) {
      var at := PlaceOf(order, j);
    }
  }

  lemma StepMaxIsClosed(vals: seq<real>, order: seq<nat>, r: nat)
    requires SortedBy(vals, order) && AllProbabilities(vals) && r < |order|
    ensures IsClosedTestValue(vals, order[r], StepMax(vals, order, r + 1))
  {
    hide Times, Bonferroni, Step;
    StepMaxAttained(vals, order, r + 1);
    var p := StepMax(vals, order, r + 1);
    forall s: Hypotheses | Contains(vals, s, order[r]) ensures Bonferroni(vals, s) <= p {
      var k := LeastRank(vals, order, s, r);
      BonferroniBound(vals, order, s, k);
    }
    var k :| 0 <= k < r + 1 && p == Step(vals, order, k);
    TailAttains(vals, order, k);
    assert Contains(vals, Tail(order, k), order[r]);
  }

  // ---- What the adjusted values mean ----

  // Rejecting at level alpha < 1 the hypotheses whose adjusted value is at most alpha controls
  // family-wise error: a true hypothesis is rejected only when some true hypothesis has a p-value of
  // at most alpha over the number of true ones.
  lemma FamilywiseControl(vals: seq<real>, truth: Hypotheses, i: nat, p: real, alpha: real)
    requires Contains(vals, truth, i) && IsClosedTestValue(vals, i, p) && p <= alpha < 1.0
    ensures exists j | j in truth :: Times(|truth|, vals[j]) <= alpha
  {
    hide Least, Times;
    assert Bonferroni(vals, truth) <= p;
    assert Times(|truth|, Least(vals, truth)) <= alpha;
    var j :| j in truth && vals[j] == Least(vals, truth);
  }

  ghost predicate Rearranges(perm: seq<nat>, vals: seq<real>, moved: seq<real>) {
    && |perm| == |vals| == |moved| && InRange(vals, perm) && Distinct(perm)
    && forall k | 0 <= k < |perm| :: moved[k] == vals[perm[k]]
  }

  ghost function Image(perm: seq<nat>, s: Hypotheses): Hypotheses
    requires forall k | k in s :: k < |perm|
  {
    set k | k in s :: perm[k]
  }

  lemma {:induction false} ImageSize(perm: seq<nat>, s: Hypotheses)
    requires (forall k | k in s :: k < |perm|) && Distinct(perm)
    ensures |Image(perm, s)| == |s|
  {
    if s == {} {
      assert Image(perm, s) == {};
    } else {
      var k :| k in s;
      var rest := s - {k};
      ImageSize(perm, rest);
      forall l | l in rest ensures perm[l] != perm[k] { }
      assert perm[k] !in Image(perm, rest);
      assert Image(perm, s) == Image(perm, rest) + {perm[k]};
    }
  }

  lemma ImageBonferroni(perm: seq<nat>, vals: seq<real>, moved: seq<real>, s: Hypotheses, i: nat)
    requires Rearranges(perm, vals, moved) && Contains(moved, s, i)
    ensures Contains(vals, Image(perm, s), perm[i]) && Bonferroni(vals, Image(perm, s)) == Bonferroni(moved, s)
  {
    hide Least, Times;
    ImageSize(perm, s);
    var t := Image(perm, s);
    assert perm[i] in t;
    var k :| k in s && moved[k] == Least(moved, s);
    forall j | j in t ensures vals[perm[k]] <= vals[j] {
      var l :| l in s && perm[l] == j;
      assert Least(moved, s) <= moved[l];
    }
    LeastIs(vals, t, perm[k]);
  }

  // Every set over the original numbering is the image of one over the new numbering.
  lemma Preimage(perm: seq<nat>, vals: seq<real>, moved: seq<real>, t: Hypotheses, i: nat) returns (s: Hypotheses)
    requires Rearranges(perm, vals, moved) && i < |perm| && Contains(vals, t, perm[i])
    ensures Contains(moved, s, i) && Image(perm, s) == t
  {
    s := set k | 0 <= k < |perm| && perm[k] in t :: k;
    forall j | j in t ensures j in Image(perm, s) {
      var k := PlaceOf(perm, j);
    }
  }

  lemma PlaceOf(perm: seq<nat>, j: nat) returns (k: nat)
    requires Distinct(perm) && (forall k | 0 <= k < |perm| :: perm[k] < |perm|) && j < |perm|
    ensures k < |perm| && perm[k] == j
  {
    var all, places := Below(|perm|), Below(|perm|);
    ImageSize(perm, places);
    if j !in Image(perm, places) {
      SubsetSize(Image(perm, places), all - {j});
      assert false;
    }
    k :| k in places && perm[k] == j;
  }

  // Renumbering the hypotheses renumbers the adjusted values.
  lemma AdjustmentIsEquivariant(perm: seq<nat>, vals: seq<real>, moved: seq<real>, i: nat, p: real)
    requires Rearranges(perm, vals, moved) && i < |perm|
    ensures IsClosedTestValue(moved, i, p) <==> IsClosedTestValue(vals, perm[i], p)
  {
    hide Bonferroni;
    forall s: Hypotheses | Contains(moved, s, i)
      ensures Contains(vals, Image(perm, s), perm[i]) && Bonferroni(vals, Image(perm, s)) == Bonferroni(moved, s)
    {
      ImageBonferroni(perm, vals, moved, s, i);
    }
    forall t: Hypotheses | Contains(vals, t, perm[i])
      ensures exists s: Hypotheses | Contains(moved, s, i) :: Bonferroni(moved, s) == Bonferroni(vals, t)
    {
      var s := Preimage(perm, vals, moved, t, i);
      ImageBonferroni(perm, vals, moved, s, i);
    }
  }

  // Equal p-values get equal adjusted values, whatever order the sort leaves them in.
  lemma TiesAreEqual(vals: seq<real>, i: nat, j: nat, p: real, q: real)
    requires i < |vals| && j < |vals| && vals[i] == vals[j]
    requires IsClosedTestValue(vals, i, p) && IsClosedTestValue(vals, j, q)
    ensures p == q
  {
    hide Bonferroni;
    var perm := seq(|vals|, k => if k == i then j else if k == j then i else k);
    AdjustmentIsEquivariant(perm, vals, vals, i, p);
    AdjustmentIsUnique(vals, j, p, q);
  }

  // Adjusting never lowers a p-value and keeps the order of the p-values.
  lemma AdjustmentIsMonotone(vals: seq<real>, i: nat, j: nat, p: real, q: real)
    requires AllProbabilities(vals) && i < |vals| && j < |vals| && vals[i] <= vals[j]
    requires IsClosedTestValue(vals, i, p) && IsClosedTestValue(vals, j, q)
    ensures vals[i] <= p <= q
  {
    hide Least, Times;
    LeastIs(vals, {i}, i);
    TimesOne(vals[i]);
    assert Contains(vals, {i}, i);
    assert Bonferroni(vals, {i}) == vals[i];
    var s: Hypotheses :| Contains(vals, s, i) && Bonferroni(vals, s) == p;
    if j !in s {
      var t := s - {i} + {j};
      assert |t| == |s| && Contains(vals, t, j);
      assert Least(vals, s) <= Least(vals, t);
      TimesOrdered(|s|, Least(vals, s), Least(vals, t));
    }
  }

  lemma TimesOne(p: real)
    ensures Times(1, p) == p
  {
  }

  lemma TimesOrdered(n: nat, p: real, q: real)
    requires p <= q
    ensures Times(n, p) <= Times(n, q)
  {
  }

  lemma AdjustmentIsUnique(vals: seq<real>, i: nat, p: real, q: real)
    requires IsClosedTestValue(vals, i, p) && IsClosedTestValue(vals, i, q)
    ensures p == q
  {
    hide Bonferroni;
    var s: Hypotheses :| Contains(vals, s, i) && Bonferroni(vals, s) == p;
    var t: Hypotheses :| Contains(vals, t, i) && Bonferroni(vals, t) == q;
  }

  // ---- The step-down procedure ----

  // How many hypotheses, by increasing p-value, the procedure rejects: it stops at the first p-value
  // above alpha over the number of hypotheses not yet rejected.
  function Rejections(vals: seq<real>, order: seq<nat>, alpha: real, k: nat): (n: nat)
    requires k <= |order| && InRange(vals, order)
    ensures k <= n <= |order|
    decreases |order| - k
  {
    if k < |order| && vals[order[k]] <= alpha / (|order| - k) as real
    then Rejections(vals, order, alpha, k + 1) else k
  }

  lemma StepBelow(n: nat, p: real, alpha: real)
    requires n > 0 && alpha < 1.0
    ensures MinReal(1.0, Times(n, p)) <= alpha <==> p <= alpha / n as real
  {
    var q := alpha / n as real;
    assert q * n as real == alpha;
    if p <= q { ScaleUp(n, p, q); } else { ScaleUp(n, q, p); }
  }

  lemma ScaleUp(n: nat, p: real, q: real)
    requires n > 0 && p <= q
    ensures Times(n, p) <= Times(n, q) && (p < q ==> Times(n, p) < Times(n, q))
  {
  }

  lemma {:induction false} RejectsFrom(vals: seq<real>, order: seq<nat>, alpha: real, k: nat, r: nat)
    requires SortedBy(vals, order) && k <= r < |order| && 0.0 <= alpha < 1.0
    requires StepMax(vals, order, k) <= alpha
    ensures StepMax(vals, order, r + 1) <= alpha <==> r < Rejections(vals, order, alpha, k)
    decreases |order| - k
  {
    hide Times, MinReal;
    StepBelow(|order| - k, vals[order[k]], alpha);
    if Step(vals, order, k) <= alpha {
      if k < r { RejectsFrom(vals, order, alpha, k + 1, r); }
    } else {
      StepMaxGrows(vals, order, k + 1, r + 1);
    }
  }

  lemma {:induction false} StepMaxGrows(vals: seq<real>, order: seq<nat>, a: nat, b: nat)
    requires a <= b <= |order| && InRange(vals, order)
    ensures StepMax(vals, order, a) <= StepMax(vals, order, b)
  {
    hide Step;
    if a < b { StepMaxGrows(vals, order, a, b - 1); }
  }

  // At any level below one, an adjusted value is at most alpha exactly when the procedure rejects
  // its hypothesis.
  lemma StepDownAgrees(vals: seq<real>, order: seq<nat>, r: nat, p: real, alpha: real)
    requires SortedBy(vals, order) && AllProbabilities(vals) && r < |order| && 0.0 <= alpha < 1.0
    requires IsClosedTestValue(vals, order[r], p)
    ensures p <= alpha <==> r < Rejections(vals, order, alpha, 0)
  {
    hide IsClosedTestValue, Rejections, Step;
    StepMaxIsClosed(vals, order, r);
    AdjustmentIsUnique(vals, order[r], p, StepMax(vals, order, r + 1));
    RejectsFrom(vals, order, alpha, 0, r);
  }
}
