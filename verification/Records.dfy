// Canonical records: their order, sorted runs, and the strictly increasing list of a set of records.
module Records {

  // A record as the external sort holds it; `order` is the tie-breaking rank of the behavior.
  datatype Record = Record(ts: nat, user: nat, item: nat, category: nat, order: nat, code: nat)

  predicate SameKey(a: Record, b: Record) {
    a.ts == b.ts && a.user == b.user && a.item == b.item && a.category == b.category && a.order == b.order
  }

  // Lexicographic order of the five key columns.
  predicate Before(a: Record, b: Record) {
    if a.ts != b.ts then a.ts < b.ts
    else if a.user != b.user then a.user < b.user
    else if a.item != b.item then a.item < b.item
    else if a.category != b.category then a.category < b.category
    else a.order < b.order
  }

  // The key columns, most significant first.
  function Key(r: Record): (k: seq<nat>)
    ensures |k| == 5
  {
    [r.ts, r.user, r.item, r.category, r.order]
  }

  // a comes first at column i.
  predicate FirstAt(a: Record, b: Record, i: nat)
    requires i < 5
  {
    Key(a)[i] < Key(b)[i] && forall j | 0 <= j < i :: Key(a)[j] == Key(b)[j]
  }

  lemma BeforeIsLexicographic(a: Record, b: Record)
    ensures Before(a, b) <==> exists i: nat | i < 5 :: FirstAt(a, b, i)
    ensures SameKey(a, b) <==> Key(a) == Key(b)
  {
    var i: nat :=
      if a.ts != b.ts then 0 else if a.user != b.user then 1 else if a.item != b.item then 2
      else if a.category != b.category then 3 else 4;
    var k, l := Key(a), Key(b);
    assert k[0] == a.ts && k[1] == a.user && k[2] == a.item && k[3] == a.category && k[4] == a.order;
    assert l[0] == b.ts && l[1] == b.user && l[2] == b.item && l[3] == b.category && l[4] == b.order;
    if Before(a, b) { assert FirstAt(a, b, i); }
  }

  // Lexicographic order of all six columns, as list.sort() compares the tuples.
  predicate TupleBefore(a: Record, b: Record) { Before(a, b) || (SameKey(a, b) && a.code < b.code) }

  predicate AtMost(a: Record, b: Record) { !Before(b, a) }

  lemma BeforeTransitive(a: Record, b: Record, c: Record)
    requires AtMost(a, b) && AtMost(b, c)
    ensures AtMost(a, c) && (Before(a, b) || Before(b, c) ==> Before(a, c))
  {
  }

  lemma BeforeTotal(a: Record, b: Record)
    ensures (if SameKey(a, b) then 1 else 0) + (if Before(a, b) then 1 else 0) + (if Before(b, a) then 1 else 0) == 1
  {
  }

  // The engine's code for each tie-breaking rank: pv, fav, cart, buy.
  function CodeOf(order: nat): nat { if order == 1 then 2 else if order == 2 then 1 else order }

  predicate Legit(r: Record) { r.order <= 3 && r.code == CodeOf(r.order) }

  predicate AllLegit(xs: seq<Record>) { forall x | x in xs :: Legit(x) }

  lemma KeyDetermines(a: Record, b: Record)
    requires Legit(a) && Legit(b)
    ensures SameKey(a, b) <==> a == b
    ensures TupleBefore(a, b) <==> Before(a, b)
  {
  }

  predicate Nondecreasing(xs: seq<Record>) { forall i, j | 0 <= i < j < |xs| :: AtMost(xs[i], xs[j]) }

  predicate Increasing(xs: seq<Record>) { forall i, j | 0 <= i < j < |xs| :: Before(xs[i], xs[j]) }

  // ---- list.sort() ----

  function Insert(x: Record, xs: seq<Record>): seq<Record> {
    if |xs| == 0 then [x] else if !TupleBefore(xs[0], x) then [x] + xs else [xs[0]] + Insert(x, xs[1..])
  }

  function Sorted(xs: seq<Record>): (r: seq<Record>) {
    if |xs| == 0 then [] else Insert(xs[0], Sorted(xs[1..]))
  }

  lemma {:induction false} InsertKeeps(x: Record, xs: seq<Record>)
    ensures multiset(Insert(x, xs)) == multiset(xs) + multiset{x}
  {
    if |xs| > 0 && TupleBefore(xs[0], x) {
      InsertKeeps(x, xs[1..]);
      assert xs == [xs[0]] + xs[1..];
    }
  }

  lemma SameMembers(xs: seq<Record>, ys: seq<Record>)
    requires multiset(xs) == multiset(ys)
    ensures |xs| == |ys| && forall x :: x in xs <==> x in ys
  {
    assert |multiset(xs)| == |multiset(ys)|;
    forall x ensures x in xs <==> x in ys {
      assert x in xs <==> x in multiset(xs);
      assert x in ys <==> x in multiset(ys);
    }
  }

  lemma {:induction false} InsertSorted(x: Record, xs: seq<Record>)
    requires Nondecreasing(xs) && AllLegit(xs) && Legit(x)
    ensures Nondecreasing(Insert(x, xs))
  {
    hide Before, Legit;
    if |xs| > 0 {
      KeyDetermines(xs[0], x);
      BeforeTotal(xs[0], x);
      if TupleBefore(xs[0], x) {
        InsertSorted(x, xs[1..]);
        InsertKeeps(x, xs[1..]);
        SameMembers(Insert(x, xs[1..]), xs[1..] + [x]);
        PrependSorted(xs[0], Insert(x, xs[1..]));
      } else {
        forall y | y in xs ensures AtMost(x, y) {
          BeforeTotal(y, y);
          BeforeTransitive(x, xs[0], y);
        }
        PrependSorted(x, xs);
      }
    }
  }

  lemma PrependSorted(x: Record, xs: seq<Record>)
    requires Nondecreasing(xs) && forall y | y in xs :: AtMost(x, y)
    ensures Nondecreasing([x] + xs)
  {
  }

  // For records whose code follows from their key, sorting by all six columns sorts by key.
  lemma {:induction false} SortedSorts(xs: seq<Record>)
    requires AllLegit(xs)
    ensures multiset(Sorted(xs)) == multiset(xs) && Nondecreasing(Sorted(xs)) && AllLegit(Sorted(xs))
  {
    if |xs| > 0 {
      assert xs == [xs[0]] + xs[1..];
      SortedSorts(xs[1..]);
      InsertKeeps(xs[0], Sorted(xs[1..]));
      InsertSorted(xs[0], Sorted(xs[1..]));
    }
    SameMembers(Sorted(xs), xs);
  }

  // ---- The canonical list of a collection of records ----

  function InsertNew(x: Record, xs: seq<Record>): seq<Record> {
    if |xs| == 0 || Before(x, xs[0]) then [x] + xs
    else if SameKey(x, xs[0]) then xs
    else [xs[0]] + InsertNew(x, xs[1..])
  }

  // The specification of the whole pipeline: insert each record unless its key is present.
  function Canonical(xs: seq<Record>): seq<Record> {
    if |xs| == 0 then [] else InsertNew(xs[|xs| - 1], Canonical(xs[..|xs| - 1]))
  }

  lemma {:induction false} InsertNewMeans(x: Record, xs: seq<Record>)
    requires Increasing(xs) && AllLegit(xs) && Legit(x)
    ensures Increasing(InsertNew(x, xs))
    ensures forall y :: y in InsertNew(x, xs) <==> y == x || y in xs
  {
    hide Before, Legit;
    var r := InsertNew(x, xs);
    if |xs| > 0 {
      BeforeTotal(x, xs[0]);
      KeyDetermines(x, xs[0]);
      assert xs == [xs[0]] + xs[1..];
      if Before(x, xs[0]) {
        forall y | y in xs ensures Before(x, y) {
          if y != xs[0] { BothBefore(x, xs[0], y); }
        }
      } else if !SameKey(x, xs[0]) {
        InsertNewMeans(x, xs[1..]);
        forall y | y in InsertNew(x, xs[1..]) ensures Before(xs[0], y) {
        }
      }
    }
  }

  lemma BothBefore(a: Record, b: Record, c: Record)
    requires Before(a, b) && Before(b, c)
    ensures Before(a, c)
  {
  }

  // The canonical list is strictly increasing and holds exactly the given records.
  lemma {:induction false} CanonicalMeans(xs: seq<Record>)
    requires AllLegit(xs)
    ensures Increasing(Canonical(xs)) && AllLegit(Canonical(xs))
    ensures forall y :: y in Canonical(xs) <==> y in xs
  {
    if |xs| > 0 {
      var n := |xs| - 1;
      assert xs == xs[..n] + [xs[n]];
      CanonicalMeans(xs[..n]);
      InsertNewMeans(xs[n], Canonical(xs[..n]));
    }
  }

  // A strictly increasing list is determined by its members.
  lemma {:induction false} IncreasingUnique(xs: seq<Record>, ys: seq<Record>)
    requires Increasing(xs) && Increasing(ys) && forall r :: r in xs <==> r in ys
    ensures xs == ys
  {
    hide Before;
    if |xs| > 0 && |ys| > 0 {
      FirstLeast(xs, ys[0]);
      FirstLeast(ys, xs[0]);
      BeforeTotal(xs[0], ys[0]);
      assert xs[0] == ys[0];
      forall r ensures r in xs[1..] <==> r in ys[1..] {
        NotFirst(xs, r);
        NotFirst(ys, r);
      }
      IncreasingUnique(xs[1..], ys[1..]);
      assert xs == [xs[0]] + xs[1..] && ys == [ys[0]] + ys[1..];
    } else {
      HasMember(xs);
      HasMember(ys);
    }
  }

  lemma HasMember(xs: seq<Record>)
    ensures |xs| > 0 ==> exists r :: r in xs
  {
    if |xs| > 0 {
      assert xs[0] in xs;
    }
  }

  lemma FirstLeast(xs: seq<Record>, r: Record)
    requires Increasing(xs) && r in xs
    ensures r == xs[0] || Before(xs[0], r)
  {
  }

  lemma NotFirst(xs: seq<Record>, r: Record)
    requires Increasing(xs) && |xs| > 0
    ensures r in xs[1..] <==> r in xs && r != xs[0]
  {
    BeforeTotal(r, r);
  }

  // The canonical list does not depend on the order or multiplicity of the records.
  lemma CanonicalInvariant(xs: seq<Record>, ys: seq<Record>)
    requires AllLegit(xs) && forall r :: r in xs <==> r in ys
    ensures Canonical(xs) == Canonical(ys)
  {
    CanonicalMeans(xs);
    CanonicalMeans(ys);
    IncreasingUnique(Canonical(xs), Canonical(ys));
  }

  // ---- k-way merge ----

  function Contents(runs: seq<seq<Record>>): multiset<Record> {
    if |runs| == 0 then multiset{} else Contents(runs[..|runs| - 1]) + multiset(runs[|runs| - 1])
  }

  lemma {:induction false} ContentsUpdate(runs: seq<seq<Record>>, k: nat, run: seq<Record>)
    requires k < |runs|
    ensures Contents(runs[k := run]) + multiset(runs[k]) == Contents(runs) + multiset(run)
  {
    var n := |runs| - 1;
    var updated := runs[k := run];
    assert Contents(updated) == Contents(updated[..n]) + multiset(updated[n]);
    if k < n {
      ContentsUpdate(runs[..n], k, run);
      assert updated[..n] == runs[..n][k := run];
      Exchange(Contents(updated[..n]), multiset(runs[n]), multiset(runs[k]));
      Exchange(Contents(runs[..n]), multiset(runs[n]), multiset(run));
    } else {
      assert updated[..n] == runs[..n];
      Exchange(Contents(runs[..n]), multiset(run), multiset(runs[n]));
    }
  }

  lemma Exchange(a: multiset<Record>, b: multiset<Record>, c: multiset<Record>)
    ensures a + b + c == a + c + b
  {
  }

  lemma Cancel(a: multiset<Record>, b: multiset<Record>, c: multiset<Record>, d: multiset<Record>)
    requires a + (c + b) == d + b
    ensures a + c == d
  {
    forall r ensures (a + c)[r] == d[r] {
      assert (a + (c + b))[r] == (d + b)[r];
    }
  }

  lemma {:induction false} InContents(runs: seq<seq<Record>>, x: Record)
    requires x in Contents(runs)
    ensures exists k | 0 <= k < |runs| :: x in runs[k]
  {
    var n := |runs| - 1;
    if x in multiset(runs[n]) {
      assert x in runs[n];
    } else {
      InContents(runs[..n], x);
      var k :| 0 <= k < n && x in runs[..n][k];
      assert x in runs[k];
    }
  }

  // The run whose head comes first, the earliest such run on ties; |runs| when all are exhausted.
  method LeastHead(runs: seq<seq<Record>>) returns (best: nat)
    ensures best <= |runs|
    ensures best == |runs| ==> forall k | 0 <= k < |runs| :: |runs[k]| == 0
    ensures best < |runs| ==>
              |runs[best]| > 0 && forall k | 0 <= k < |runs| && |runs[k]| > 0 ::
                AtMost(runs[best][0], runs[k][0]) && (k < best ==> Before(runs[best][0], runs[k][0]))
  {
    hide Before;
    best := |runs|;
    var k := 0;
    while k < |runs|
      invariant 0 <= k <= |runs| && best <= |runs|
      invariant best == |runs| ==> forall j | 0 <= j < k :: |runs[j]| == 0
      invariant best < |runs| ==>
                  best < k && |runs[best]| > 0 && forall j | 0 <= j < k && |runs[j]| > 0 ::
                    AtMost(runs[best][0], runs[j][0]) && (j < best ==> Before(runs[best][0], runs[j][0]))
    {
      if |runs[k]| > 0 && (best == |runs| || Before(runs[k][0], runs[best][0])) {
        BeforeTotal(runs[k][0], runs[k][0]);
        if best < |runs| {
          BeforeTotal(runs[k][0], runs[best][0]);
          forall j | 0 <= j < k && |runs[j]| > 0 ensures Before(runs[k][0], runs[j][0]) {
            BeforeTransitive(runs[k][0], runs[best][0], runs[j][0]);
            BeforeTotal(runs[k][0], runs[j][0]);
          }
          AllBefore(runs, k);
        }
        best := k;
      }
      k := k + 1;
    }
  }

  lemma AllBefore(runs: seq<seq<Record>>, k: nat)
    requires k < |runs| && |runs[k]| > 0
    requires forall j | 0 <= j < k && |runs[j]| > 0 :: Before(runs[k][0], runs[j][0])
    ensures forall j | 0 <= j <= k && |runs[j]| > 0 :: AtMost(runs[k][0], runs[j][0])
  {
    forall j | 0 <= j <= k && |runs[j]| > 0 ensures AtMost(runs[k][0], runs[j][0]) {
      BeforeTotal(runs[k][0], runs[j][0]);
    }
  }

  predicate AllSorted(runs: seq<seq<Record>>) { forall k | 0 <= k < |runs| :: Nondecreasing(runs[k]) }

  method Merge(runs: seq<seq<Record>>) returns (merged: seq<Record>)
    requires AllSorted(runs)
    ensures Nondecreasing(merged) && multiset(merged) == Contents(runs)
  {
    hide AtMost, Bounds, Contents;
    var rest := runs;
    merged := [];
    var best: nat := LeastHead(rest);
    if best == |rest| { ExhaustedIsEmpty(rest); }
    while best < |rest|
      invariant AllSorted(rest) && Nondecreasing(merged) && best <= |rest|
      invariant multiset(merged) + Contents(rest) == Contents(runs)
      invariant forall x | x in merged :: Bounds(x, Contents(rest))
      invariant if best < |rest| then IsLeastHead(rest, best) else Contents(rest) == multiset{}
      decreases |Contents(rest)|
    {
      var x := rest[best][0];
      TakeHead(rest, best);
      ghost var left := Contents(rest[best := rest[best][1..]]);
      AppendSorted(merged, x, Contents(rest));
      AppendBounds(merged, x, Contents(rest), left);
      merged := merged + [x];
      rest := rest[best := rest[best][1..]];
      best := LeastHead(rest);
      if best == |rest| { ExhaustedIsEmpty(rest); }
    }
  }

  predicate IsLeastHead(runs: seq<seq<Record>>, best: nat) {
    best < |runs| && |runs[best]| > 0 && forall k | 0 <= k < |runs| && |runs[k]| > 0 ::
        AtMost(runs[best][0], runs[k][0])
  }

  ghost predicate Bounds(x: Record, m: multiset<Record>) { forall y | y in m :: AtMost(x, y) }

  lemma AppendBounds(merged: seq<Record>, x: Record, m: multiset<Record>, left: multiset<Record>)
    requires (forall y | y in merged :: Bounds(y, m)) && Bounds(x, left) && left + multiset{x} == m
    ensures forall y | y in merged + [x] :: Bounds(y, left)
    ensures multiset(merged + [x]) + left == multiset(merged) + m && |left| < |m| && x in m
  {
    hide AtMost;
    assert forall y | y in left :: y in m;
  }

  lemma AppendSorted(merged: seq<Record>, x: Record, m: multiset<Record>)
    requires Nondecreasing(merged) && (forall y | y in merged :: Bounds(y, m)) && x in m
    ensures Nondecreasing(merged + [x])
  {
    hide AtMost;
    forall i | 0 <= i < |merged| ensures AtMost(merged[i], x) {
      assert Bounds(merged[i], m);
    }
  }

  lemma HeadBelow(runs: seq<seq<Record>>, best: nat, k: nat, y: Record)
    requires AllSorted(runs) && IsLeastHead(runs, best) && k < |runs| && y in runs[k]
    ensures AtMost(runs[best][0], y)
  {
    hide Before;
    if y != runs[k][0] {
      BeforeTransitive(runs[best][0], runs[k][0], y);
    }
  }

  lemma ContentsTake(runs: seq<seq<Record>>, k: nat)
    requires k < |runs| && |runs[k]| > 0
    ensures Contents(runs[k := runs[k][1..]]) + multiset{runs[k][0]} == Contents(runs)
  {
    hide Contents;
    ContentsUpdate(runs, k, runs[k][1..]);
    assert runs[k] == [runs[k][0]] + runs[k][1..];
    assert multiset(runs[k]) == multiset{runs[k][0]} + multiset(runs[k][1..]);
    Cancel(Contents(runs[k := runs[k][1..]]), multiset(runs[k][1..]), multiset{runs[k][0]}, Contents(runs));
  }

  // Taking the least head off its run leaves only records at least as large.
  lemma TakeHead(runs: seq<seq<Record>>, best: nat)
    requires AllSorted(runs) && IsLeastHead(runs, best)
    ensures var rest := runs[best := runs[best][1..]];
            AllSorted(rest) && Contents(rest) + multiset{runs[best][0]} == Contents(runs)
                && Bounds(runs[best][0], Contents(rest))
  {
    hide AtMost;
    var x, rest := runs[best][0], runs[best := runs[best][1..]];
    ContentsTake(runs, best);
    forall y | y in Contents(rest) ensures AtMost(x, y) {
      InContents(runs, y);
      var k :| 0 <= k < |runs| && y in runs[k];
      HeadBelow(runs, best, k, y);
    }
  }

  lemma {:induction false} ExhaustedIsEmpty(runs: seq<seq<Record>>)
    requires forall k | 0 <= k < |runs| :: |runs[k]| == 0
    ensures Contents(runs) == multiset{}
  {
    if |runs| > 0 { ExhaustedIsEmpty(runs[..|runs| - 1]); }
  }
}
