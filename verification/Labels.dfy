// Strict future-purchase labels: the in-memory reference and the two-pass streaming generator.
module Labels {
  import opened Options
  import opened Text

  const BUY := 3

  // The identity type is a parameter: source identifiers in one generator, sequence numbers in the other.
  datatype Event<I> = Event(id: I, ts: int, key: int, behavior: int)

  datatype Labelled<I> = Labelled(id: I, ts: int, key: int, end: int, outcome: Option<bool>, evidence: Option<I>)

  // ---- Specification ----

  predicate IsBuy<I>(e: Event<I>, key: int) { e.behavior == BUY && e.key == key }

  // Event j is a purchase by the user of event i in (t, t + horizon].
  predicate Follows<I>(events: seq<Event<I>>, horizon: int, i: int, j: int) {
    && 0 <= i < |events| && 0 <= j < |events| && IsBuy(events[j], events[i].key)
    && events[i].ts < events[j].ts <= events[i].ts + horizon
  }

  ghost predicate Identifies<I>(e: Event<I>, horizon: int, r: Labelled<I>) {
    r.id == e.id && r.ts == e.ts && r.key == e.key && r.end == e.ts + horizon
  }

  // A positive names a purchase that follows; an unobserved window has no label.
  ghost predicate Sound<I>(events: seq<Event<I>>, horizon: int, observedEnd: int, i: nat, r: Labelled<I>)
    requires i < |events|
  {
    && Identifies(events[i], horizon, r)
    && (r.outcome.None? <==> events[i].ts + horizon > observedEnd)
    && (r.evidence.Some? <==> r.outcome == Some(true))
    && (r.evidence.Some? ==> exists j :: Follows(events, horizon, i, j) && r.evidence == Some(events[j].id))
  }

  // The label is exactly the existence of a purchase that follows, and the witness is the first one.
  ghost predicate Correct<I>(events: seq<Event<I>>, horizon: int, observedEnd: int, i: nat, r: Labelled<I>)
    requires i < |events|
  {
    && Sound(events, horizon, observedEnd, i, r)
    && (r.outcome.Some? ==> (r.outcome.value <==> exists j :: Follows(events, horizon, i, j)))
    && (r.evidence.Some? ==> exists j :: IsFirst(events, horizon, i, j) && r.evidence == Some(events[j].id))
  }

  ghost predicate IsFirst<I>(events: seq<Event<I>>, horizon: int, i: int, j: int) {
    && Follows(events, horizon, i, j)
    && forall k :: Follows(events, horizon, i, k) ==> j <= k && events[j].ts <= events[k].ts
  }

  predicate Ordered<I>(events: seq<Event<I>>) { forall i, j | 0 <= i <= j < |events| :: events[i].ts <= events[j].ts }

  // A correct record is determined by the events.
  lemma CorrectIsUnique<I>(events: seq<Event<I>>, horizon: int, observedEnd: int, i: nat, a: Labelled<I>,
                           b: Labelled<I>)
    requires i < |events| && Correct(events, horizon, observedEnd, i, a) && Correct(events, horizon, observedEnd, i, b)
    ensures a == b
  {
    if a.evidence.Some? {
      var j :| IsFirst(events, horizon, i, j) && a.evidence == Some(events[j].id);
      var k :| IsFirst(events, horizon, i, k) && b.evidence == Some(events[k].id);
      assert j == k;
    }
  }

  // ---- bisect_right ----

  function BisectRight(a: seq<int>, x: int, lo: nat, hi: nat): (r: nat)
    requires lo <= hi <= |a|
    ensures lo <= r <= hi
    ensures (r > lo ==> a[r - 1] <= x) && (r < hi ==> x < a[r])
    decreases hi - lo
  {
    if lo >= hi then lo
    else
      var mid := (lo + hi) / 2;
      if x < a[mid] then BisectRight(a, x, lo, mid) else BisectRight(a, x, mid + 1, hi)
  }

  predicate NonDecreasing(a: seq<int>) { forall m, n | 0 <= m <= n < |a| :: a[m] <= a[n] }

  lemma InOrder(a: seq<int>, m: nat, n: nat)
    requires NonDecreasing(a) && m <= n < |a|
    ensures a[m] <= a[n]
  {
  }

  lemma BisectSplits(a: seq<int>, x: int)
    requires NonDecreasing(a)
    ensures forall m | 0 <= m < |a| :: a[m] <= x <==> m < BisectRight(a, x, 0, |a|)
  {
    hide BisectRight;
    var r := BisectRight(a, x, 0, |a|);
    forall m | 0 <= m < |a| ensures a[m] <= x <==> m < r {
      if m < r { InOrder(a, m, r - 1); } else { InOrder(a, r, m); }
    }
  }

  // ---- Purchases per user ----

  datatype Purchase<I> = Purchase(ts: int, id: I)

  type Buys<I> = map<int, seq<Purchase<I>>>

  // Indices of the user's purchases, in input order.
  function BuyIndices<I>(events: seq<Event<I>>, key: int): (r: seq<nat>)
    ensures forall m | 0 <= m < |r| :: r[m] < |events| && IsBuy(events[r[m]], key)
    ensures forall m, n | 0 <= m < n < |r| :: r[m] < r[n]
  {
    if |events| == 0 then []
    else
      var n := |events| - 1;
      var before := BuyIndices(events[..n], key);
      assert forall m | 0 <= m < |before| :: events[..n][before[m]] == events[before[m]];
      if IsBuy(events[n], key) then before + [n] else before
  }

  lemma {:induction false} BuyListed<I>(events: seq<Event<I>>, key: int, j: int)
    requires 0 <= j < |events| && IsBuy(events[j], key)
    ensures j in BuyIndices(events, key)
  {
    var n := |events| - 1;
    if j < n { BuyListed(events[..n], key, j); }
  }

  function Purchases<I>(events: seq<Event<I>>, key: int): seq<Purchase<I>> {
    var at := BuyIndices(events, key);
    seq(|at|, m requires 0 <= m < |at| => Purchase(events[at[m]].ts, events[at[m]].id))
  }

  // The generator's default dictionary.
  function BuysOf<I>(buys: Buys<I>, key: int): seq<Purchase<I>> { if key in buys then buys[key] else [] }

  function AddBuy<I>(buys: Buys<I>, e: Event<I>): Buys<I> {
    if e.behavior == BUY then buys[e.key := BuysOf(buys, e.key) + [Purchase(e.ts, e.id)]] else buys
  }

  ghost predicate Indexed<I>(events: seq<Event<I>>, buys: Buys<I>) {
    forall key: int :: BuysOf(buys, key) == Purchases(events, key)
  }

  method Index<I>(events: seq<Event<I>>) returns (buys: Buys<I>)
    ensures Indexed(events, buys)
  {
    buys := map[];
    NoPurchases(events[..0], buys);
    for i := 0 to |events|
      invariant Indexed(events[..i], buys)
    {
      Noted(events[..i], events[i], buys);
      assert events[..i + 1] == events[..i] + [events[i]];
      buys := AddBuy(buys, events[i]);
    }
    assert events[..|events|] == events;
  }

  lemma NoPurchases<I>(events: seq<Event<I>>, buys: Buys<I>)
    requires |events| == 0 && buys == map[]
    ensures Indexed(events, buys)
  {
  }

  lemma Noted<I>(events: seq<Event<I>>, e: Event<I>, buys: Buys<I>)
    requires Indexed(events, buys)
    ensures Indexed(events + [e], AddBuy(buys, e))
  {
    hide Purchases;
    forall key: int ensures BuysOf(AddBuy(buys, e), key) == Purchases(events + [e], key) {
      PurchasesAppend(events, e, key);
    }
  }

  lemma IndicesAppend<I>(events: seq<Event<I>>, e: Event<I>, key: int)
    ensures BuyIndices(events + [e], key) == BuyIndices(events, key) + if IsBuy(e, key) then [|events|] else []
  {
    assert (events + [e])[..|events|] == events;
  }

  lemma PurchasesAppend<I>(events: seq<Event<I>>, e: Event<I>, key: int)
    ensures Purchases(events + [e], key) == Purchases(events, key)
            + if IsBuy(e, key) then [Purchase(e.ts, e.id)] else []
  {
    hide BuyIndices;
    IndicesAppend(events, e, key);
    var next, at := events + [e], BuyIndices(events, key);
    forall m | 0 <= m < |at| ensures next[at[m]] == events[at[m]] {}
  }

  // ---- One event ----

  function Times<I>(records: seq<Purchase<I>>): (r: seq<int>)
    ensures |r| == |records| && forall m | 0 <= m < |r| :: r[m] == records[m].ts
  {
    seq(|records|, m requires 0 <= m < |records| => records[m].ts)
  }

  // The first purchase after the event, if it is inside the horizon.
  function Witness<I>(records: seq<Purchase<I>>, t: int, horizon: int): Option<Purchase<I>> {
    var index := BisectRight(Times(records), t, 0, |records|);
    if index < |records| && records[index].ts <= t + horizon then Some(records[index]) else None
  }

  function Record<I>(e: Event<I>, records: seq<Purchase<I>>, horizon: int, observedEnd: int): Labelled<I> {
    if e.ts + horizon > observedEnd then Labelled(e.id, e.ts, e.key, e.ts + horizon, None, None)
    else
      var w := Witness(records, e.ts, horizon);
      Labelled(e.id, e.ts, e.key, e.ts + horizon, Some(w.Some?), if w.Some? then Some(w.value.id) else None)
  }

  // On any input a positive is justified.
  lemma RecordIsSound<I>(events: seq<Event<I>>, i: nat, horizon: int, observedEnd: int)
    requires i < |events|
    ensures Sound(events, horizon, observedEnd, i,
                  Record(events[i], Purchases(events, events[i].key), horizon, observedEnd))
  {
    hide BisectRight, BuyIndices;
    var e := events[i];
    var records, at := Purchases(events, e.key), BuyIndices(events, e.key);
    var index := BisectRight(Times(records), e.ts, 0, |records|);
    if index < |records| && records[index].ts <= e.ts + horizon {
      assert Follows(events, horizon, i, at[index]);
    }
  }

  // The purchase times of one user, as the index lists them, never go back.
  ghost predicate UserOrdered<I>(events: seq<Event<I>>, key: int) { NonDecreasing(Times(Purchases(events, key))) }

  lemma OrderedForUser<I>(events: seq<Event<I>>, key: int)
    requires Ordered(events)
    ensures UserOrdered(events, key)
  {
    hide BuyIndices;
    var a, at := Times(Purchases(events, key)), BuyIndices(events, key);
    forall m, n | 0 <= m <= n < |a| ensures a[m] <= a[n] { assert at[m] <= at[n]; }
  }

  // The purchase at the bisection point is the first one after the event.
  lemma BisectFindsFirst<I>(events: seq<Event<I>>, i: nat, horizon: int, k: int)
    requires i < |events| && UserOrdered(events, events[i].key) && Follows(events, horizon, i, k)
    ensures var records, at := Purchases(events, events[i].key), BuyIndices(events, events[i].key);
            var index := BisectRight(Times(records), events[i].ts, 0, |records|);
            index < |records| && at[index] <= k && records[index].ts <= events[k].ts
  {
    hide BisectRight, BuyIndices, NonDecreasing;
    var records, at := Purchases(events, events[i].key), BuyIndices(events, events[i].key);
    var a := Times(records);
    BuyListed(events, events[i].key, k);
    var m :| 0 <= m < |at| && at[m] == k;
    BisectSplits(a, events[i].ts);
    var index := BisectRight(a, events[i].ts, 0, |a|);
    assert a[m] == events[k].ts > events[i].ts;
    InOrder(a, index, m);
  }

  // When the user's purchases are listed in time order the record is correct.
  lemma RecordIsCorrect<I>(events: seq<Event<I>>, i: nat, horizon: int, observedEnd: int)
    requires i < |events| && UserOrdered(events, events[i].key)
    ensures Correct(events, horizon, observedEnd, i,
                    Record(events[i], Purchases(events, events[i].key), horizon, observedEnd))
  {
    hide BisectRight, BuyIndices, Sound, UserOrdered;
    var e := events[i];
    var records, at := Purchases(events, e.key), BuyIndices(events, e.key);
    var index := BisectRight(Times(records), e.ts, 0, |records|);
    RecordIsSound(events, i, horizon, observedEnd);
    forall k | Follows(events, horizon, i, k)
      ensures index < |records| && at[index] <= k && events[at[index]].ts <= events[k].ts
    {
      BisectFindsFirst(events, i, horizon, k);
    }
    if index < |records| && records[index].ts <= e.ts + horizon {
      assert IsFirst(events, horizon, i, at[index]);
    }
  }

  // ---- What happens out of order ----

  ghost predicate DistinctTimes<I>(events: seq<Event<I>>, key: int) {
    forall i, j | 0 <= i < j < |events| && IsBuy(events[i], key) && IsBuy(events[j], key) ::
        events[i].ts != events[j].ts
  }

  // Whatever event of the user is labelled next, and with whatever horizon, its record is correct.
  ghost predicate LabelsAnyAnchor<I(!new)>(events: seq<Event<I>>, key: int) {
    forall e: Event<I>, horizon: int, observedEnd: int | e.key == key && e.behavior != BUY && horizon > 0 ::
      Correct(events + [e], horizon, observedEnd, |events|,
              Record(e, Purchases(events + [e], key), horizon, observedEnd))
  }

  // An adjacent pair of purchases out of order.
  lemma Inversion(a: seq<int>) returns (m: nat)
    requires !NonDecreasing(a)
    ensures m + 1 < |a| && a[m] > a[m + 1]
  {
    if forall k | 0 <= k < |a| - 1 :: a[k] <= a[k + 1] {
      StepwiseOrdered(a);
    } else {
      m :| 0 <= m < |a| - 1 && a[m] > a[m + 1];
    }
  }

  lemma {:induction false} StepwiseOrdered(a: seq<int>)
    requires forall k | 0 <= k < |a| - 1 :: a[k] <= a[k + 1]
    ensures NonDecreasing(a)
  {
    if |a| > 1 {
      StepwiseOrdered(a[..|a| - 1]);
      var before := a[..|a| - 1];
      forall m | 0 <= m < |a| ensures a[m] <= a[|a| - 1] {
        if m < |a| - 1 { InOrder(before, m, |a| - 2); }
      }
      assert forall m, n | 0 <= m <= n < |a| - 1 :: a[m] == before[m] <= before[n] == a[n];
    }
  }

  // One tick before the later-listed, earlier time the search lands beyond it.
  lemma BisectMisses(a: seq<int>, m: nat)
    requires m + 1 < |a| && a[m] > a[m + 1] && forall k | 0 <= k < |a| && k != m + 1 :: a[k] != a[m + 1]
    ensures var index := BisectRight(a, a[m + 1] - 1, 0, |a|); index < |a| ==> a[index] > a[m + 1]
  {
    hide BisectRight;
  }

  lemma TimesDistinct<I>(events: seq<Event<I>>, key: int, m: nat, k: nat)
    requires DistinctTimes(events, key) && m < |Purchases(events, key)| && k < |Purchases(events, key)| && k != m
    ensures Times(Purchases(events, key))[k] != Times(Purchases(events, key))[m]
  {
    hide BuyIndices;
    var at := BuyIndices(events, key);
    assert if k < m then at[k] < at[m] else at[m] < at[k];
  }

  lemma InversionMisses<I>(events: seq<Event<I>>, key: int, m: nat, e: Event<I>)
    requires DistinctTimes(events, key) && e.key == key && e.behavior != BUY && m + 1 < |Purchases(events, key)|
    requires Times(Purchases(events, key))[m] > Times(Purchases(events, key))[m + 1] == e.ts + 1
    ensures Record(e, Purchases(events + [e], key), 1, e.ts + 1).outcome == Some(false)
  {
    hide BuyIndices, BisectRight, DistinctTimes, Purchases;
    var a := Times(Purchases(events, key));
    PurchasesAppend(events, e, key);
    assert Purchases(events + [e], key) == Purchases(events, key);
    forall k | 0 <= k < |a| && k != m + 1 ensures a[k] != a[m + 1] { TimesDistinct(events, key, m + 1, k); }
    BisectMisses(a, m);
  }

  lemma PurchaseFollows<I>(events: seq<Event<I>>, key: int, m: nat, e: Event<I>)
    requires m < |Purchases(events, key)| && e.key == key && Times(Purchases(events, key))[m] == e.ts + 1
    ensures m < |BuyIndices(events, key)| && Follows(events + [e], 1, |events|, BuyIndices(events, key)[m])
  {
    hide BuyIndices;
  }

  // For a user whose purchase times are distinct, every anchor and horizon is labelled correctly exactly
  // when the purchases are listed in time order.
  lemma AnyAnchorExactly<I(!new)>(events: seq<Event<I>>, key: int)
    requires DistinctTimes(events, key)
    ensures LabelsAnyAnchor(events, key) <==> UserOrdered(events, key)
  {
    hide Record, Purchases, Correct, DistinctTimes, BuyIndices;
    if UserOrdered(events, key) {
      forall e: Event<I>, horizon: int, observedEnd: int | e.key == key && e.behavior != BUY && horizon > 0
        ensures Correct(events + [e], horizon, observedEnd, |events|,
                        Record(e, Purchases(events + [e], key), horizon, observedEnd))
      {
        PurchasesAppend(events, e, key);
        assert Purchases(events + [e], key) == Purchases(events, key);
        RecordIsCorrect(events + [e], |events|, horizon, observedEnd);
      }
    } else {
      var m := Inversion(Times(Purchases(events, key)));
      var e := Event(Purchases(events, key)[m].id, Times(Purchases(events, key))[m + 1] - 1, key, 0);
      InversionMisses(events, key, m, e);
      PurchaseFollows(events, key, m + 1, e);
      FalseNegative(events + [e], 1, e.ts + 1, |events|, BuyIndices(events, key)[m + 1],
                    Record(e, Purchases(events + [e], key), 1, e.ts + 1));
    }
  }

  // A purchase listed after a later one, with none at its own time before that.
  ghost predicate Buried<I>(events: seq<Event<I>>, key: int, m: nat, k: nat) {
    var a := Times(Purchases(events, key));
    m < k < |a| && a[m] > a[k] && forall j | 0 <= j < m :: a[j] != a[k]
  }

  // What follows an event of the user is one of the listed purchases.
  lemma FollowsListed<I>(events: seq<Event<I>>, key: int, e: Event<I>, horizon: int, j: int, m: nat) returns (p: nat)
    requires e.key == key && e.behavior != BUY && Follows(events + [e], horizon, |events|, j)
    requires m < |BuyIndices(events, key)|
    ensures p < |Purchases(events, key)| && Times(Purchases(events, key))[p] == (events + [e])[j].ts
    ensures j <= BuyIndices(events, key)[m] ==> p <= m
  {
    hide BuyIndices;
    var at := BuyIndices(events, key);
    assert events[j] == (events + [e])[j];
    BuyListed(events, key, j);
    p :| 0 <= p < |at| && at[p] == j;
    if p > m { assert at[m] < at[p]; }
  }

  // The window from just before the buried purchase up to the later one has no purchase that is first in
  // both listing and time.
  lemma NoFirst<I>(events: seq<Event<I>>, key: int, m: nat, k: nat, e: Event<I>, horizon: int, j: int)
    requires Buried(events, key, m, k) && e.key == key && e.behavior != BUY
    requires e.ts == Times(Purchases(events, key))[k] - 1 && e.ts + horizon == Times(Purchases(events, key))[m]
    ensures !IsFirst(events + [e], horizon, |events|, j)
    ensures k < |BuyIndices(events, key)| && Follows(events + [e], horizon, |events|, BuyIndices(events, key)[k])
  {
    hide BuyIndices;
    var all, at := events + [e], BuyIndices(events, key);
    assert Follows(all, horizon, |events|, at[k]) && Follows(all, horizon, |events|, at[m]);
    if IsFirst(all, horizon, |events|, j) {
      var p := FollowsListed(events, key, e, horizon, j, m);
    }
  }

  // With or without repeated times, a buried purchase makes some anchor come out wrong.
  lemma BuriedMislabels<I(!new)>(events: seq<Event<I>>, key: int, m: nat, k: nat)
    requires Buried(events, key, m, k)
    ensures !LabelsAnyAnchor(events, key)
  {
    hide Record, Purchases, BuyIndices, IsFirst, Follows;
    var a := Times(Purchases(events, key));
    var e, horizon := Event(Purchases(events, key)[k].id, a[k] - 1, key, 0), a[m] - a[k] + 1;
    var all, r := events + [e], Record(e, Purchases(events + [e], key), horizon, a[m]);
    NoFirst(events, key, m, k, e, horizon, 0);
    if Correct(all, horizon, a[m], |events|, r) {
      var j :| IsFirst(all, horizon, |events|, j);
      NoFirst(events, key, m, k, e, horizon, j);
    }
  }

  lemma FalseNegative<I>(events: seq<Event<I>>, horizon: int, observedEnd: int, i: nat, j: int, r: Labelled<I>)
    requires i < |events| && Follows(events, horizon, i, j) && r.outcome == Some(false)
    ensures !Correct(events, horizon, observedEnd, i, r)
  {
  }

  // What the index holds for a user.
  lemma Listed<I>(events: seq<Event<I>>, buys: Buys<I>, key: int)
    requires Indexed(events, buys)
    ensures BuysOf(buys, key) == Purchases(events, key)
  {
  }

  // ---- The in-memory reference ----

  const MAX_WORD := 0xFFFF_FFFF_FFFF_FFFF

  predicate ValidEvent<I(!new)>(known: I -> bool, e: Event<I>, observedEnd: int) {
    && known(e.id) && 0 <= e.ts <= observedEnd && 0 <= e.key <= 18446744073709551615
    && (e.behavior == 0 || e.behavior == 1 || e.behavior == 2 || e.behavior == 3)
  }

  // The cohorts for which no ValueError is raised. `known` is the generator's test of an identifier.
  ghost predicate ValidCohort<I(!new)>(known: I -> bool, events: seq<Event<I>>, horizon: int, observedEnd: int) {
    && horizon > 0 && 0 <= observedEnd <= 18446744073709551615
    && (forall i | 0 <= i < |events| :: ValidEvent(known, events[i], observedEnd))
    && (forall i, j | 0 <= i < j < |events| :: events[i].id != events[j].id)
    && Ordered(events)
  }

  // None stands for a ValueError.
  method FuturePurchaseLabels<I(==, !new)>(known: I -> bool, events: seq<Event<I>>, horizon: int, observedEnd: int)
    returns (r: Option<seq<Labelled<I>>>)
    ensures r.Some? <==> ValidCohort(known, events, horizon, observedEnd)
    ensures r.Some? ==> |r.value| == |events|
    ensures r.Some? ==> forall i | 0 <= i < |events| :: Correct(events, horizon, observedEnd, i, r.value[i])
  {
    hide Correct, Indexed, Record, UserOrdered;
    if horizon <= 0 { return None; }
    if !(0 <= observedEnd <= MAX_WORD) { return None; }
    var admitted := Admit(known, events, observedEnd);
    if !admitted { return None; }
    var buys := Index(events);
    var result: seq<Labelled<I>> := [];
    for i := 0 to |events|
      invariant |result| == i
      invariant forall k | 0 <= k < i :: Correct(events, horizon, observedEnd, k, result[k])
    {
      var e := events[i];
      Listed(events, buys, e.key);
      OrderedForUser(events, e.key);
      RecordIsCorrect(events, i, horizon, observedEnd);
      result := result + [Record(e, BuysOf(buys, e.key), horizon, observedEnd)];
    }
    r := Some(result);
  }

  // The first pass: every check, in input order.
  method Admit<I(==, !new)>(known: I -> bool, events: seq<Event<I>>, observedEnd: int) returns (ok: bool)
    ensures ok <==> && (forall i | 0 <= i < |events| :: ValidEvent(known, events[i], observedEnd))
                    && (forall i, j | 0 <= i < j < |events| :: events[i].id != events[j].id)
                    && Ordered(events)
  {
    var seen: set<I> := {};
    var previous: Option<int> := None;
    for i := 0 to |events|
      invariant forall k | 0 <= k < i :: ValidEvent(known, events[k], observedEnd)
      invariant forall j, k | 0 <= j < k < i :: events[j].id != events[k].id
      invariant forall j, k | 0 <= j <= k < i :: events[j].ts <= events[k].ts
      invariant forall x :: x in seen <==> exists k | 0 <= k < i :: events[k].id == x
      invariant if i == 0 then previous.None? else previous == Some(events[i - 1].ts)
    {
      var e := events[i];
      if !known(e.id) || e.id in seen { return false; }
      if !(0 <= e.ts <= observedEnd) { return false; }
      if !(0 <= e.key <= MAX_WORD) || !(0 <= e.behavior <= 3) { return false; }
      if previous.Some? && e.ts < previous.value { return false; }
      seen := seen + {e.id};
      previous := Some(e.ts);
    }
    return true;
  }

  // ---- The streaming generator ----

  datatype Ledger = Ledger(total: nat, evaluated: nat, censored: nat, positive: nat, negative: nat, evidence: nat,
                           noLeakage: bool)

  const SECOND := 1000000000

  // A data line of the input: blank, or its four cells, None where one is missing or no integer.
  datatype Line = Blank | Cells(id: Option<int>, ts: Option<int>, key: Option<int>, behavior: Option<int>)

  predicate Readable(line: Line) { line.Blank? || (line.id.Some? && line.ts.Some? && line.key.Some?) }

  predicate AllReadable(lines: seq<Line>) { forall i | 0 <= i < |lines| :: Readable(lines[i]) }

  const OTHER := 0

  // An unreadable behavior is simply no purchase.
  function EventOf(line: Line): Event<int>
    requires line.Cells? && Readable(line)
  {
    Event(line.id.value, line.ts.value, line.key.value, if line.behavior.Some? then line.behavior.value else OTHER)
  }

  function EventsOf(lines: seq<Line>): seq<Event<int>>
    requires AllReadable(lines)
  {
    if |lines| == 0 then []
    else
      var last := lines[|lines| - 1];
      EventsOf(lines[..|lines| - 1]) + if last.Blank? then [] else [EventOf(last)]
  }

  // Lines with something on them among the first i.
  function Filled(lines: seq<Line>, i: nat): nat
    requires i <= |lines|
  {
    if i == 0 then 0 else Filled(lines, i - 1) + if lines[i - 1].Blank? then 0 else 1
  }

  // Each line that is not blank is one event, in order, with its own four cells; only a behavior of 3 is
  // a purchase.
  lemma LinesMean(lines: seq<Line>)
    requires AllReadable(lines)
    ensures |EventsOf(lines)| == Filled(lines, |lines|)
    ensures forall i | 0 <= i < |lines| && lines[i].Cells? ::
              Filled(lines, i) < |EventsOf(lines)| && Means(EventsOf(lines)[Filled(lines, i)], lines[i])
  {
    hide EventsOf, Filled, Means;
    EventCount(lines);
    forall i | 0 <= i < |lines| && lines[i].Cells?
      ensures Filled(lines, i) < |EventsOf(lines)| && Means(EventsOf(lines)[Filled(lines, i)], lines[i])
    {
      LineMeans(lines, i);
    }
  }

  lemma {:induction false} EventCount(lines: seq<Line>)
    requires AllReadable(lines)
    ensures |EventsOf(lines)| == Filled(lines, |lines|)
  {
    if |lines| > 0 {
      var n := |lines| - 1;
      EventCount(lines[..n]);
      FilledPrefix(lines, n, n);
    }
  }

  lemma {:induction false} LineMeans(lines: seq<Line>, i: nat)
    requires AllReadable(lines) && i < |lines| && lines[i].Cells?
    ensures Filled(lines, i) < |EventsOf(lines)| && Means(EventsOf(lines)[Filled(lines, i)], lines[i])
  {
    hide Means, EventOf, Filled;
    var n := |lines| - 1;
    EventCount(lines[..n]);
    FilledPrefix(lines, n, n);
    if i < n {
      LineMeans(lines[..n], i);
      FilledPrefix(lines, n, i);
    } else {
      CellsMean(lines[n]);
    }
  }

  predicate Means(e: Event<int>, line: Line)
    requires line.Cells?
  {
    && Some(e.id) == line.id && Some(e.ts) == line.ts && Some(e.key) == line.key
    && (e.behavior == 3 <==> line.behavior == Some(3))
  }

  lemma CellsMean(line: Line)
    requires line.Cells? && Readable(line)
    ensures Means(EventOf(line), line)
    ensures IsBuy(EventOf(line), line.key.value) <==> line.behavior == Some(3)
  {
  }

  lemma {:induction false} FilledPrefix(lines: seq<Line>, n: nat, i: nat)
    requires i <= n <= |lines|
    ensures Filled(lines[..n], i) == Filled(lines, i) <= Filled(lines, n)
  {
    if i > 0 { FilledPrefix(lines, n, i - 1); }
    if i < n { FilledGrows(lines, i, n); }
  }

  lemma {:induction false} FilledGrows(lines: seq<Line>, i: nat, n: nat)
    requires i <= n <= |lines|
    ensures Filled(lines, i) <= Filled(lines, n)
  {
    if i < n { FilledGrows(lines, i, n - 1); }
  }

  lemma NextLine(lines: seq<Line>, i: nat)
    requires i < |lines|
    ensures AllReadable(lines[..i + 1]) <==> AllReadable(lines[..i]) && Readable(lines[i])
    ensures AllReadable(lines[..i + 1]) ==>
      EventsOf(lines[..i + 1]) == EventsOf(lines[..i]) + if lines[i].Blank? then [] else [EventOf(lines[i])]
  {
    assert lines[..i + 1][..i] == lines[..i];
    if AllReadable(lines[..i + 1]) { assert lines[..i + 1][i] == lines[i]; }
    if AllReadable(lines[..i]) && Readable(lines[i]) {
      assert lines[..i + 1] == lines[..i] + [lines[i]];
    }
  }

  lemma LineNoted(lines: seq<Line>, i: nat, buys: Buys<int>, next: Buys<int>)
    requires i < |lines| && AllReadable(lines[..i]) && AllReadable(lines[..i + 1])
    requires Indexed(EventsOf(lines[..i]), buys)
    requires var buy := lines[i].Cells? && lines[i].behavior == Some(BUY) && Readable(lines[i]);
             next == if buy then AddBuy(buys, EventOf(lines[i])) else buys
    ensures Indexed(EventsOf(lines[..i + 1]), next)
  {
    hide Indexed, EventsOf, AllReadable;
    NextLine(lines, i);
    if lines[i].Cells? {
      Noted(EventsOf(lines[..i]), EventOf(lines[i]), buys);
    } else {
      assert EventsOf(lines[..i + 1]) == EventsOf(lines[..i]);
    }
  }

  // The first pass: purchases per user; the row limit counts blank lines too. None stands for the exception
  // on a purchase it cannot read.
  method CollectBuys(lines: seq<Line>, maxRows: Option<int>) returns (r: Option<Buys<int>>)
    ensures AllReadable(Taken(lines, maxRows)) ==> r.Some? && Indexed(EventsOf(Taken(lines, maxRows)), r.value)
  {
    hide Indexed, EventsOf, AllReadable, AddBuy, Taken;
    TakenPrefix(lines, maxRows);
    var buys: Buys<int>, total := map[], 0;
    ghost var taken := Taken(lines, maxRows);
    NoLines(taken[..0], buys);
    while More(total, |lines|, maxRows)
      invariant total <= |taken|
      invariant AllReadable(taken[..total]) ==> Indexed(EventsOf(taken[..total]), buys)
      decreases |lines| - total
    {
      var line := lines[total];
      ghost var before := buys;
      NextLine(taken, total);
      total := total + 1;
      if line.Cells? && line.behavior == Some(BUY) {
        if !Readable(line) {
          Unread(taken, total - 1);
          return None;
        }
        buys := AddBuy(buys, EventOf(line));
      }
      if AllReadable(taken[..total]) { LineNoted(taken, total - 1, before, buys); }
    }
    assert taken[..total] == taken;
    r := Some(buys);
  }

  datatype Output = Output(rows: seq<Labelled<int>>, ledger: Ledger)

  // Two passes with no check of order or identity. None stands for the exception on an unreadable line;
  // otherwise the rows are sound, and exactly the reference's labels for every user whose purchases are
  // in time order. The ledger's own leakage flag can never turn false.
  method StreamLabels(lines: seq<Line>, maxRows: Option<int>, horizonSec: int, endSec: int) returns (r: Option<Output>)
    ensures r.Some? <==> AllReadable(Taken(lines, maxRows))
    ensures r.Some? ==> LabelsStream(EventsOf(Taken(lines, maxRows)), r.value.rows, horizonSec * 1000000000,
                                     endSec * 1000000000)
    ensures r.Some? ==> Balanced(r.value.ledger, r.value.rows)
  {
    hide Record, Indexed, AllReadable, EventsOf, BisectRight, Outcomes, Taken;
    TakenPrefix(lines, maxRows);
    var horizon, end := horizonSec * SECOND, endSec * SECOND;
    ghost var taken := Taken(lines, maxRows);
    var collected := CollectBuys(lines, maxRows);
    if collected.None? { return None; }
    var buys := collected.value;
    var rows: seq<Labelled<int>>, acc, n := [], Ledger(0, 0, 0, 0, 0, 0, true), 0;
    NoLines(taken[..0], map[]);
    NoRows(rows);
    while More(n, |lines|, maxRows)
      invariant n <= |taken| && AllReadable(taken[..n])
      invariant Recorded(EventsOf(taken[..n]), buys, rows, horizon, end)
      invariant Balanced(acc, rows)
      decreases |lines| - n
    {
      var line := lines[n];
      NextLine(taken, n);
      n := n + 1;
      if line.Cells? {
        if !Readable(line) {
          Unread(taken, n - 1);
          return None;
        }
        var e := EventOf(line);
        var row;
        row, acc := LabelOne(e, BuysOf(buys, e.key), horizon, end, acc, rows);
        rows := rows + [row];
      }
    }
    assert taken[..n] == taken;
    RecordedLabels(EventsOf(taken), buys, rows, horizon, end);
    r := Some(Output(rows, acc));
  }

  // One row and its share of the ledger.
  method LabelOne(e: Event<int>, records: seq<Purchase<int>>, horizon: int, end: int, acc: Ledger,
                  ghost rows: seq<Labelled<int>>)
    returns (row: Labelled<int>, next: Ledger)
    requires Balanced(acc, rows)
    ensures row == Record(e, records, horizon, end) && Balanced(next, rows + [row])
  {
    hide BisectRight, Outcomes;
    next := acc.(total := acc.total + 1);
    row := Labelled(e.id, e.ts, e.key, e.ts + horizon, None, None);
    if e.ts > end - horizon {
      next := next.(censored := next.censored + 1);
    } else {
      next := next.(evaluated := next.evaluated + 1);
      var index := BisectRight(Times(records), e.ts, 0, |records|);
      if index < |records| && records[index].ts <= e.ts + horizon {
        if records[index].ts <= e.ts { next := next.(noLeakage := false); }
        next := next.(positive := next.positive + 1, evidence := next.evidence + 1);
        row := row.(outcome := Some(true), evidence := Some(records[index].id));
      } else {
        next := next.(negative := next.negative + 1);
        row := row.(outcome := Some(false));
      }
    }
    OneMoreRow(rows, row);
  }

  // Every row is sound, and correct when that row's user has its purchases in time order.
  ghost predicate LabelsStream(events: seq<Event<int>>, rows: seq<Labelled<int>>, horizon: int, end: int) {
    && |rows| == |events|
    && (forall i | 0 <= i < |events| :: Sound(events, horizon, end, i, rows[i]))
    && (forall i | 0 <= i < |events| && UserOrdered(events, events[i].key) :: Correct(events, horizon, end, i, rows[i]))
  }

  // The ledger counts the rows by outcome.
  ghost predicate Balanced(acc: Ledger, rows: seq<Labelled<int>>) {
    && acc.total == |rows| == acc.evaluated + acc.censored && acc.evaluated == acc.positive + acc.negative
    && acc.positive == acc.evidence == |Outcomes(rows, Some(true))| && acc.negative == |Outcomes(rows, Some(false))|
    && acc.noLeakage
  }

  ghost predicate Recorded(events: seq<Event<int>>, buys: Buys<int>, rows: seq<Labelled<int>>, horizon: int, end: int) {
    |rows| == |events| && forall i | 0 <= i < |rows| ::
        rows[i] == Record(events[i], BuysOf(buys, events[i].key), horizon, end)
  }

  lemma RecordedLabels(events: seq<Event<int>>, buys: Buys<int>, rows: seq<Labelled<int>>, horizon: int, end: int)
    requires Indexed(events, buys) && Recorded(events, buys, rows, horizon, end)
    ensures LabelsStream(events, rows, horizon, end)
  {
    hide Record, Purchases, Sound, Correct, UserOrdered;
    forall i | 0 <= i < |events|
      ensures Sound(events, horizon, end, i, rows[i])
      ensures UserOrdered(events, events[i].key) ==> Correct(events, horizon, end, i, rows[i])
    {
      RecordIsSound(events, i, horizon, end);
      if UserOrdered(events, events[i].key) { RecordIsCorrect(events, i, horizon, end); }
    }
  }

  lemma NoLines(lines: seq<Line>, buys: Buys<int>)
    requires |lines| == 0
    ensures AllReadable(lines) && |EventsOf(lines)| == 0
    ensures buys == map[] ==> Indexed(EventsOf(lines), buys)
  {
  }

  lemma NoRows(rows: seq<Labelled<int>>)
    requires |rows| == 0
    ensures |Outcomes(rows, Some(true))| == 0 && |Outcomes(rows, Some(false))| == 0
  {
  }

  lemma Unread(lines: seq<Line>, i: nat)
    requires i < |lines| && !Readable(lines[i])
    ensures !AllReadable(lines)
  {
  }

  ghost function Outcomes(rows: seq<Labelled<int>>, outcome: Option<bool>): (r: set<nat>)
    ensures |rows| == 0 ==> r == {}
  {
    set k: nat | k < |rows| && rows[k].outcome == outcome
  }

  lemma OneMoreRow(rows: seq<Labelled<int>>, row: Labelled<int>)
    ensures forall outcome: Option<bool> ::
      |Outcomes(rows + [row], outcome)| == |Outcomes(rows, outcome)| + if row.outcome == outcome then 1 else 0
  {
    forall outcome: Option<bool>
      ensures |Outcomes(rows + [row], outcome)| == |Outcomes(rows, outcome)| + if row.outcome == outcome then 1 else 0
    {
      assert Outcomes(rows + [row], outcome) == Outcomes(rows, outcome)
          + if row.outcome == outcome then {|rows|} else {};
    }
  }

  lemma NothingBought(events: seq<Event<int>>, key: int)
    requires |events| == 0
    ensures Purchases(events, key) == []
  {
  }

  // Order matters: with the user's purchases listed at times 1, 9, 2 the generator's search for the
  // event at time 1 misses the purchase at time 2, one tick later.
  lemma UnorderedInputMissesPurchases()
    ensures var events := [Event(0, 1, 7, 3), Event(1, 9, 7, 3), Event(2, 2, 7, 3)];
            && Follows(events, 1, 0, 2)
            && Record(events[0], Purchases(events, 7), 1, 100).outcome == Some(false)
  {
    hide BuyIndices, Purchases;
    var none: seq<Event<int>> := [];
    var one := none + [Event(0, 1, 7, 3)];
    var two := one + [Event(1, 9, 7, 3)];
    var events := two + [Event(2, 2, 7, 3)];
    PurchasesAppend(none, Event(0, 1, 7, 3), 7);
    PurchasesAppend(one, Event(1, 9, 7, 3), 7);
    PurchasesAppend(two, Event(2, 2, 7, 3), 7);
    NothingBought(none, 7);
    assert events == [Event(0, 1, 7, 3), Event(1, 9, 7, 3), Event(2, 2, 7, 3)];
    var a := Times(Purchases(events, 7));
    assert a == [1, 9, 2];
    assert BisectRight(a, 1, 0, 3) == BisectRight(a, 1, 0, 1) == BisectRight(a, 1, 1, 1) == 1;
  }
}
