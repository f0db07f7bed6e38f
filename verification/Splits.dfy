// Temporal splits, embargo gaps and the cohort file.
module Splits {
  import opened Options
  import opened Text
  import opened Labels
  import opened Sets

  const CAMPAIGN_START := 1511539200
  const TRAIN_END := 1512050399
  const EMBARGO_1_END := 1512057599
  const VAL_START := 1512057600
  const VAL_END := 1512136799
  const EMBARGO_2_END := 1512143999
  const TEST_START := 1512144000
  const TEST_END := 1512309599
  const CAMPAIGN_END := 1512316799
  const DEFAULT_HORIZON := 7200

  datatype Split = Train | TrainEmbargo | Validation | ValEmbargo | Test | TailCensored | Ood

  // A group is a split and an hour index.
  datatype Assignment = Assignment(split: Split, hour: int, tail: bool)

  function Hour(sec: int, start: int, last: int): int {
    var h := if (sec - start) / 3600 > 0 then (sec - start) / 3600 else 0;
    if h < last then h else last
  }

  // `ood` stands for the hash test on user identifiers.
  function Assign(ood: int -> bool, user: int, sec: int): Assignment {
    if ood(user) then Assignment(Ood, Hour(sec, CAMPAIGN_START, 215), sec > TEST_END)
    else if sec <= TRAIN_END then Assignment(Train, Hour(sec, CAMPAIGN_START, 141), false)
    else if sec <= EMBARGO_1_END then Assignment(TrainEmbargo, Hour(sec, TRAIN_END + 1, 1), false)
    else if sec <= VAL_END then Assignment(Validation, Hour(sec, VAL_START, 21), false)
    else if sec <= EMBARGO_2_END then Assignment(ValEmbargo, Hour(sec, VAL_END + 1, 1), false)
    else if sec <= TEST_END then Assignment(Test, Hour(sec, TEST_START, 45), false)
    else Assignment(TailCensored, Hour(sec, TEST_END + 1, 1), true)
  }

  predicate InCampaign(sec: int) { CAMPAIGN_START <= sec <= CAMPAIGN_END }

  // Inside the campaign every group is one hour of it: the clamps never merge or split hours, and the
  // boundaries fall on whole hours.
  lemma GroupsAreHours(ood: int -> bool, u: int, v: int, a: int, b: int)
    requires InCampaign(a) && InCampaign(b) && !ood(u) && !ood(v)
    ensures Assign(ood, u, a) == Assign(ood, v, b) <==> (a - CAMPAIGN_START) / 3600 == (b - CAMPAIGN_START) / 3600
  {
    CampaignHour(ood, u, a);
    CampaignHour(ood, v, b);
  }

  // First hour of each split, counted from the campaign start, and its number of hours.
  function FirstHour(s: Split): int {
    match s
    case Train => 0 case TrainEmbargo => 142 case Validation => 144 case ValEmbargo => 166 case Test => 168
    case TailCensored => 214 case Ood => 0
  }

  function Hours(s: Split): int {
    match s
    case Train => 142 case TrainEmbargo => 2 case Validation => 22 case ValEmbargo => 2 case Test => 46
    case TailCensored => 2 case Ood => 216
  }

  lemma CampaignHour(ood: int -> bool, user: int, sec: int)
    requires InCampaign(sec)
    ensures var a := Assign(ood, user, sec);
            && (sec - CAMPAIGN_START) / 3600 == FirstHour(a.split) + a.hour && 0 <= a.hour < Hours(a.split)
            && (a.tail <==> sec > TEST_END)
  {
  }

  // Before the campaign every time falls in the first hour, after it in the last.
  lemma OutsideCampaign(ood: int -> bool, user: int, sec: int)
    requires !InCampaign(sec)
    ensures var a := Assign(ood, user, sec);
            && (sec < 1511539200 ==> a.hour == 0 && !a.tail && a.split == (if ood(user) then Ood else Train))
            && (sec > 1512316799 ==>
                  a == if ood(user) then Assignment(Ood, 215, true) else Assignment(TailCensored, 1, true))
  {
  }

  // ---- Labels across the boundaries ----

  // The record the streaming generator writes for event i.
  function RecordAt(events: seq<Event<int>>, i: nat, horizonSec: int): Labelled<int>
    requires i < |events|
  {
    Record(events[i], Purchases(events, events[i].key), horizonSec * SECOND, CAMPAIGN_END * SECOND)
  }

  function Seconds(ts: int): int { ts / SECOND }

  // The streams share their first n events; everything later happens at or after the given second.
  predicate AgreeBefore(a: seq<Event<int>>, b: seq<Event<int>>, n: nat, sec: int) {
    && n <= |a| && n <= |b| && a[..n] == b[..n]
    && (forall j | n <= j < |a| :: a[j].ts >= sec * SECOND) && (forall j | n <= j < |b| :: b[j].ts >= sec * SECOND)
  }

  lemma WindowsAgree(a: seq<Event<int>>, b: seq<Event<int>>, n: nat, sec: int, i: nat, horizon: int)
    requires AgreeBefore(a, b, n, sec) && i < n && a[i].ts + horizon < sec * SECOND
    ensures SameWindow(a, b, n, i, horizon)
  {
    forall j | 0 <= j < n ensures a[j] == b[j] {
      assert a[..n][j] == b[..n][j];
    }
  }

  // A window that closes before the streams diverge gives the same record.
  lemma RecordsAgree(a: seq<Event<int>>, b: seq<Event<int>>, n: nat, sec: int, i: nat, horizonSec: int)
    requires AgreeBefore(a, b, n, sec) && Ordered(a) && Ordered(b) && i < n
    requires a[i].ts + horizonSec * SECOND < sec * SECOND || a[i].ts + horizonSec * SECOND > CAMPAIGN_END * SECOND
    ensures RecordAt(a, i, horizonSec) == RecordAt(b, i, horizonSec)
  {
    hide Ordered, Purchases, Record, UserOrdered;
    var horizon, end := horizonSec * SECOND, CAMPAIGN_END * SECOND;
    OrderedForUser(a, a[i].key);
    OrderedForUser(b, b[i].key);
    RecordIsCorrect(a, i, horizon, end);
    RecordIsCorrect(b, i, horizon, end);
    assert a[i] == a[..n][i] == b[..n][i] == b[i];
    if a[i].ts + horizon < sec * SECOND {
      WindowsAgree(a, b, n, sec, i, horizon);
      CorrectEverywhere(a, b, n, i, horizon, end, RecordAt(b, i, horizonSec));
      CorrectIsUnique(a, horizon, end, i, RecordAt(a, i, horizonSec), RecordAt(b, i, horizonSec));
    }
  }

  ghost predicate SameWindow(a: seq<Event<int>>, b: seq<Event<int>>, n: nat, i: nat, horizon: int) {
    && i < n <= |a| && n <= |b| && (forall j | 0 <= j < n :: a[j] == b[j])
    && (forall j :: Follows(a, horizon, i, j) <==> Follows(b, horizon, i, j))
    && (forall j | Follows(a, horizon, i, j) :: 0 <= j < n)
  }

  lemma FirstInBoth(a: seq<Event<int>>, b: seq<Event<int>>, n: nat, i: nat, horizon: int, j: int)
    requires SameWindow(a, b, n, i, horizon) && IsFirst(b, horizon, i, j)
    ensures IsFirst(a, horizon, i, j) && 0 <= j < n && a[j] == b[j]
  {
    hide Follows;
    assert Follows(b, horizon, i, j);
    forall k | Follows(a, horizon, i, k) ensures j <= k && a[j].ts <= a[k].ts {
      assert Follows(b, horizon, i, k);
    }
  }

  lemma CorrectEverywhere(a: seq<Event<int>>, b: seq<Event<int>>, n: nat, i: nat, horizon: int, end: int,
                          r: Labelled<int>)
    requires SameWindow(a, b, n, i, horizon) && Correct(b, horizon, end, i, r)
    ensures Correct(a, horizon, end, i, r)
  {
    if r.evidence.Some? {
      var j :| IsFirst(b, horizon, i, j) && r.evidence == Some(b[j].id);
      FirstInBoth(a, b, n, i, horizon, j);
      FirstFollows(a, horizon, i, j);
    }
  }

  lemma FirstFollows(a: seq<Event<int>>, horizon: int, i: nat, j: int)
    requires IsFirst(a, horizon, i, j)
    ensures Follows(a, horizon, i, j)
  {
  }

  // ---- The embargo ----

  // No event at or after `sec` can reach the label of a row whose split is s.
  ghost predicate Protects(horizonSec: int, s: Split, sec: int) {
    forall ood: int -> bool, a: seq<Event<int>>, b: seq<Event<int>>, n: nat, i: nat
      | AgreeBefore(a, b, n, sec) && Ordered(a) && Ordered(b) && i < n && a[i].ts >= 0
        && Assign(ood, a[i].key, Seconds(a[i].ts)).split == s
      :: RecordAt(a, i, horizonSec) == RecordAt(b, i, horizonSec)
  }

  // A row at second `sec` whose window reaches `next`: a purchase at `next` flips its label.
  lemma Interferes(horizonSec: int, s: Split, sec: int, next: int)
    requires 0 <= sec < next <= sec + horizonSec <= CAMPAIGN_END
    requires Assign(_ => false, 7, sec).split == s
    ensures !Protects(horizonSec, s, next)
  {
    hide Record, Purchases, Correct;
    var ood := (_: int) => false;
    var e, buy := Event(0, sec * SECOND, 7, 0), Event(1, next * SECOND, 7, BUY);
    var a, b := [e], [e, buy];
    assert b[..1] == a[..1] && AgreeBefore(a, b, 1, next) && Ordered(a) && Ordered(b);
    WholeSecond(sec);
    Flips(e, buy, horizonSec);
    assert Assign(ood, a[0].key, Seconds(a[0].ts)).split == s;
    assert RecordAt(a, 0, horizonSec) != RecordAt(b, 0, horizonSec);
  }

  lemma WholeSecond(sec: int)
    ensures Seconds(sec * SECOND) == sec
  {
  }

  lemma Flips(e: Event<int>, buy: Event<int>, horizonSec: int)
    requires IsBuy(buy, e.key) && e.behavior != BUY
             && e.ts < buy.ts <= e.ts + horizonSec * SECOND <= CAMPAIGN_END * SECOND
    ensures RecordAt([e], 0, horizonSec).outcome == Some(false)
    ensures RecordAt([e, buy], 0, horizonSec).outcome == Some(true)
  {
    hide Record, Purchases, UserOrdered;
    var horizon, end := horizonSec * SECOND, CAMPAIGN_END * SECOND;
    OrderedForUser([e], e.key);
    OrderedForUser([e, buy], e.key);
    RecordIsCorrect([e], 0, horizon, end);
    RecordIsCorrect([e, buy], 0, horizon, end);
    assert Follows([e, buy], horizon, 0, 1);
  }

  lemma Unaffected(horizonSec: int, s: Split, next: int)
    requires forall ood: int -> bool, user: int, ts: int | ts >= 0 && Assign(ood, user, Seconds(ts)).split == s ::
               ts + horizonSec * SECOND < next * SECOND || ts + horizonSec * SECOND > CAMPAIGN_END * SECOND
    ensures Protects(horizonSec, s, next)
  {
    hide Ordered, RecordAt, Assign;
    forall ood: int -> bool, a: seq<Event<int>>, b: seq<Event<int>>, n: nat, i: nat
      | AgreeBefore(a, b, n, next) && Ordered(a) && Ordered(b) && i < n && a[i].ts >= 0
        && Assign(ood, a[i].key, Seconds(a[i].ts)).split == s
      ensures RecordAt(a, i, horizonSec) == RecordAt(b, i, horizonSec)
    {
      RecordsAgree(a, b, n, next, i, horizonSec);
    }
  }

  // Training labels cannot see the validation period exactly when the horizon is at most the gap of two
  // hours (or so long that every row is censored).
  lemma TrainEmbargoExact(horizonSec: int)
    ensures Protects(horizonSec, Train, VAL_START) <==> horizonSec <= DEFAULT_HORIZON || horizonSec > CAMPAIGN_END
  {
    hide Protects, Hour;
    if DEFAULT_HORIZON < horizonSec <= CAMPAIGN_END {
      Interferes(horizonSec, Train, if VAL_START > horizonSec then VAL_START - horizonSec else 0, VAL_START);
    } else {
      Unaffected(horizonSec, Train, VAL_START);
    }
  }

  // Likewise for validation labels and the test period.
  lemma ValidationEmbargoExact(horizonSec: int)
    ensures Protects(horizonSec, Validation, TEST_START)
            <==> horizonSec <= DEFAULT_HORIZON || horizonSec > CAMPAIGN_END - VAL_START
  {
    hide Protects, Hour;
    if DEFAULT_HORIZON < horizonSec <= CAMPAIGN_END - VAL_START {
      var sec := if TEST_START - VAL_START > horizonSec then TEST_START - horizonSec else VAL_START;
      Interferes(horizonSec, Validation, sec, TEST_START);
    } else {
      Unaffected(horizonSec, Validation, TEST_START);
    }
  }

  // ---- The cohort file ----

  datatype CohortRow = CohortRow(seqno: int, user: int, ts: int, split: Split, hour: int, outcome: Option<bool>,
                                 censored: bool)

  function Emitted(s: Split, evaluatedOnly: bool): bool {
    !(evaluatedOnly && s in {TrainEmbargo, ValEmbargo, TailCensored})
  }

  // A row of the tail loses its label.
  function CohortRowOf(ood: int -> bool, r: Labelled<int>): CohortRow {
    var a := Assign(ood, r.key, Seconds(r.ts));
    CohortRow(r.id, r.key, r.ts, a.split, a.hour, if a.tail then None else r.outcome, a.tail || r.outcome.None?)
  }

  function Cohort(ood: int -> bool, rows: seq<Labelled<int>>, evaluatedOnly: bool): seq<CohortRow> {
    if |rows| == 0 then []
    else
      var row := CohortRowOf(ood, rows[|rows| - 1]);
      Cohort(ood, rows[..|rows| - 1], evaluatedOnly) + if Emitted(row.split, evaluatedOnly) then [row] else []
  }

  function OfSplit(rows: seq<CohortRow>, s: Split): seq<CohortRow> {
    if |rows| == 0 then []
    else OfSplit(rows[..|rows| - 1], s) + if rows[|rows| - 1].split == s then [rows[|rows| - 1]] else []
  }

  lemma OfSplitAppend(rows: seq<CohortRow>, row: CohortRow)
    ensures forall s: Split :: OfSplit(rows + [row], s) == OfSplit(rows, s) + if row.split == s then [row] else []
  {
    assert (rows + [row])[..|rows|] == rows;
  }

  // ---- What the file holds, by seconds ----

  // With the filter on, the two embargo gaps and the tail are left out, but never a held-out user.
  predicate Shown(ood: int -> bool, user: int, sec: int, evaluatedOnly: bool) {
    || !evaluatedOnly || ood(user)
    || !(1512050400 <= sec <= 1512057599 || 1512136800 <= sec <= 1512143999 || sec > 1512309599)
  }

  function ShownRows(ood: int -> bool, rows: seq<Labelled<int>>, evaluatedOnly: bool): seq<Labelled<int>> {
    if |rows| == 0 then []
    else
      var r := rows[|rows| - 1];
      ShownRows(ood, rows[..|rows| - 1], evaluatedOnly)
      + if Shown(ood, r.key, r.ts / 1000000000, evaluatedOnly) then [r] else []
  }

  // A row keeps its identifier, user and time; its label is blanked in the tail, and the censored flag
  // is exactly the missing label.
  predicate Copies(row: CohortRow, r: Labelled<int>) {
    && row.seqno == r.id && row.user == r.key && row.ts == r.ts
    && row.outcome == (if r.ts / 1000000000 > 1512309599 then None else r.outcome)
    && (row.censored <==> row.outcome.None?)
  }

  // The file is the shown rows, in their order.
  lemma {:induction false} CohortShows(ood: int -> bool, rows: seq<Labelled<int>>, evaluatedOnly: bool)
    ensures |Cohort(ood, rows, evaluatedOnly)| == |ShownRows(ood, rows, evaluatedOnly)|
    ensures forall k | 0 <= k < |Cohort(ood, rows, evaluatedOnly)| ::
              Copies(Cohort(ood, rows, evaluatedOnly)[k], ShownRows(ood, rows, evaluatedOnly)[k])
  {
    hide Copies, Shown, CohortRowOf, Emitted;
    if |rows| > 0 {
      CohortShows(ood, rows[..|rows| - 1], evaluatedOnly);
      ShownExactly(ood, rows[|rows| - 1], evaluatedOnly);
    }
  }

  lemma ShownExactly(ood: int -> bool, r: Labelled<int>, evaluatedOnly: bool)
    ensures Emitted(CohortRowOf(ood, r).split, evaluatedOnly) <==> Shown(ood, r.key, r.ts / 1000000000, evaluatedOnly)
    ensures Copies(CohortRowOf(ood, r), r)
  {
    hide Hour;
  }

  // ---- The manifest ----

  ghost function WithOutcome(rows: seq<CohortRow>, outcome: Option<bool>): set<nat> {
    set k: nat | k < |rows| && rows[k].outcome == outcome
  }

  ghost function UsersIn(rows: seq<CohortRow>): set<int> { set k: nat | k < |rows| :: rows[k].user }

  ghost function HoursIn(rows: seq<CohortRow>): set<int> { set k: nat | k < |rows| :: rows[k].hour }

  // The counters the generator keeps for one split.
  datatype Tally = Tally(rows: nat, users: set<int>, negative: nat, positive: nat)

  function TallyAt(tallies: map<Split, Tally>, s: Split): Tally {
    if s in tallies then tallies[s] else Tally(0, {}, 0, 0)
  }

  function Counted(t: Tally, row: CohortRow): Tally {
    Tally(t.rows + 1, t.users + {row.user}, t.negative + (if row.outcome == Some(false) then 1 else 0),
          t.positive + if row.outcome == Some(true) then 1 else 0)
  }

  ghost predicate Tallies(t: Tally, rows: seq<CohortRow>) {
    && t.rows == |rows| && t.users == UsersIn(rows)
    && t.negative == |WithOutcome(rows, Some(false))| && t.positive == |WithOutcome(rows, Some(true))|
  }

  ghost predicate TalliesAll(tallies: map<Split, Tally>, out: seq<CohortRow>) {
    forall s: Split :: Tallies(TallyAt(tallies, s), OfSplit(out, s)) && (s in tallies <==> |OfSplit(out, s)| > 0)
  }

  lemma OneMoreRow(rows: seq<CohortRow>, row: CohortRow)
    ensures UsersIn(rows + [row]) == UsersIn(rows) + {row.user} && HoursIn(rows + [row]) == HoursIn(rows) + {row.hour}
    ensures forall outcome: Option<bool> ::
      |WithOutcome(rows + [row], outcome)| == |WithOutcome(rows, outcome)| + if row.outcome == outcome then 1 else 0
  {
    var next := rows + [row];
    assert forall k: nat | k < |rows| :: next[k] == rows[k];
    assert next[|rows|] == row;
    forall outcome: Option<bool>
      ensures |WithOutcome(next, outcome)| == |WithOutcome(rows, outcome)| + if row.outcome == outcome then 1 else 0
    {
      assert WithOutcome(next, outcome) == WithOutcome(rows, outcome) + if row.outcome == outcome then {|rows|} else {};
    }
  }

  // A row is labelled negative, labelled positive or unlabelled.
  lemma {:induction false} OutcomesPartition(rows: seq<CohortRow>)
    ensures |WithOutcome(rows, Some(false))| + |WithOutcome(rows, Some(true))| + |WithOutcome(rows, None)| == |rows|
  {
    if |rows| > 0 {
      var before := rows[..|rows| - 1];
      var last := rows[|rows| - 1];
      OutcomesPartition(before);
      OneMoreRow(before, last);
      assert rows == before + [last];
      match last.outcome
      case None =>
      case Some(b) => assert last.outcome == if b then Some(true) else Some(false);
    } else {
      assert WithOutcome(rows, Some(false)) == {} && WithOutcome(rows, Some(true)) == {}
          && WithOutcome(rows, None) == {};
    }
  }

  lemma NothingTallied(tallies: map<Split, Tally>, out: seq<CohortRow>)
    requires tallies == map[] && |out| == 0
    ensures TalliesAll(tallies, out) && HoursIn(OfSplit(out, Test)) == {}
  {
    assert UsersIn(out) == {} && WithOutcome(out, Some(false)) == {} && WithOutcome(out, Some(true)) == {};
  }

  lemma CountRow(tallies: map<Split, Tally>, out: seq<CohortRow>, row: CohortRow)
    requires TalliesAll(tallies, out)
    ensures TalliesAll(tallies[row.split := Counted(TallyAt(tallies, row.split), row)], out + [row])
  {
    hide OfSplit, UsersIn, WithOutcome;
    OfSplitAppend(out, row);
    OneMoreRow(OfSplit(out, row.split), row);
    var next := tallies[row.split := Counted(TallyAt(tallies, row.split), row)];
    forall s: Split
      ensures Tallies(TallyAt(next, s), OfSplit(out + [row], s)) && (s in next <==> |OfSplit(out + [row], s)| > 0)
    {
      assert Tallies(TallyAt(tallies, s), OfSplit(out, s));
      if s != row.split { assert OfSplit(out + [row], s) == OfSplit(out, s); }
    }
  }

  datatype Summary = Summary(rows: nat, users: nat, positive: nat, negative: nat, censored: int)

  function SummaryOf(t: Tally): Summary {
    Summary(t.rows, |t.users|, t.positive, t.negative, t.rows - (t.negative + t.positive))
  }

  datatype Manifest = Manifest(emitted: nat, testGroups: nat, testNegative: nat, testPositive: nat,
                               splits: map<Split, Summary>, coldDisjoint: bool, floorMet: bool, noLeak: bool)

  // What the summary of a split says of its rows.
  ghost predicate Summarises(s: Summary, rows: seq<CohortRow>) {
    && s.rows == |rows| && s.users == |UsersIn(rows)| && s.positive == |WithOutcome(rows, Some(true))|
    && s.negative == |WithOutcome(rows, Some(false))| && s.censored == |WithOutcome(rows, None)|
  }

  ghost predicate Describes(m: Manifest, out: seq<CohortRow>) {
    && m.emitted == |out| && m.testGroups == |HoursIn(OfSplit(out, Test))| && (m.floorMet <==> m.testGroups >= 30)
    && m.testNegative == |WithOutcome(OfSplit(out, Test), Some(false))|
    && m.testPositive == |WithOutcome(OfSplit(out, Test), Some(true))|
    && (forall s: Split :: s in m.splits <==> |OfSplit(out, s)| > 0)
    && (forall s: Split | s in m.splits :: Summarises(m.splits[s], OfSplit(out, s)))
  }

  lemma SummariesHold(tallies: map<Split, Tally>, out: seq<CohortRow>, s: Split)
    requires TalliesAll(tallies, out)
    ensures s in tallies <==> |OfSplit(out, s)| > 0
    ensures Summarises(SummaryOf(TallyAt(tallies, s)), OfSplit(out, s))
  {
    hide OfSplit, UsersIn, WithOutcome;
    assert Tallies(TallyAt(tallies, s), OfSplit(out, s));
    OutcomesPartition(OfSplit(out, s));
  }

  // The rows of the splits add up to the file.
  lemma {:induction false} SplitsPartition(out: seq<CohortRow>)
    ensures |OfSplit(out, Train)| + |OfSplit(out, TrainEmbargo)| + |OfSplit(out, Validation)|
          + |OfSplit(out, ValEmbargo)| + |OfSplit(out, Test)| + |OfSplit(out, TailCensored)| + |OfSplit(out, Ood)|
         == |out|
  {
    if |out| > 0 {
      var before := out[..|out| - 1];
      SplitsPartition(before);
      OfSplitAppend(before, out[|out| - 1]);
      assert out == before + [out[|out| - 1]];
    }
  }

  // Splits assigned by the rule: held-out users everywhere, and test hours among the forty-six.
  ghost predicate Assigned(ood: int -> bool, out: seq<CohortRow>) {
    forall k | 0 <= k < |out| ::
      (out[k].split == Ood <==> ood(out[k].user)) && (out[k].split == Test ==> 0 <= out[k].hour < 46)
  }

  lemma {:induction false} FromOut(out: seq<CohortRow>, s: Split, k: nat)
    requires k < |OfSplit(out, s)|
    ensures OfSplit(out, s)[k] in out && OfSplit(out, s)[k].split == s
  {
    var before := out[..|out| - 1];
    if k < |OfSplit(before, s)| { FromOut(before, s, k); }
  }

  lemma ColdAreDisjoint(ood: int -> bool, out: seq<CohortRow>)
    requires Assigned(ood, out)
    ensures var cold := UsersIn(OfSplit(out, Ood));
            cold * UsersIn(OfSplit(out, Train)) == {} && cold * UsersIn(OfSplit(out, Validation)) == {}
  {
    hide OfSplit;
    forall s: Split, k: nat | k < |OfSplit(out, s)| ensures s == Ood <==> ood(OfSplit(out, s)[k].user) {
      FromOut(out, s, k);
    }
  }

  lemma AtMostAllHours(ood: int -> bool, out: seq<CohortRow>)
    requires Assigned(ood, out)
    ensures |HoursIn(OfSplit(out, Test))| <= 46
  {
    hide OfSplit;
    forall k: nat | k < |OfSplit(out, Test)| ensures 0 <= OfSplit(out, Test)[k].hour < 46 { FromOut(out, Test, k); }
    BoundedSize(HoursIn(OfSplit(out, Test)), 46);
  }

  lemma TestHours(out: seq<CohortRow>, row: CohortRow)
    ensures HoursIn(OfSplit(out + [row], Test)) == HoursIn(OfSplit(out, Test))
            + if row.split == Test then {row.hour} else {}
  {
    hide OfSplit, HoursIn;
    OfSplitAppend(out, row);
    if row.split == Test {
      OneMoreRow(OfSplit(out, Test), row);
    } else {
      assert OfSplit(out + [row], Test) == OfSplit(out, Test);
    }
  }

  // The manifest describes the emitted rows split by split; held-out users are disjoint from the
  // training and validation users whatever the hash, and there are never more than the forty-six
  // hourly test groups.
  method GenerateCohort(ood: int -> bool, labels: seq<Labelled<int>>, maxRows: Option<int>, evaluatedOnly: bool)
    returns (out: seq<CohortRow>, manifest: Manifest)
    ensures out == Cohort(ood, Taken(labels, maxRows), evaluatedOnly)
    ensures var shown := ShownRows(ood, Taken(labels, maxRows), evaluatedOnly);
            |out| == |shown| && forall k | 0 <= k < |out| :: Copies(out[k], shown[k])
    ensures Describes(manifest, out) && manifest.testGroups <= 46
    ensures manifest.coldDisjoint && manifest.noLeak
  {
    hide Assign, Cohort, Seconds, TalliesAll, Taken, OfSplit, HoursIn, Assigned, UsersIn, WithOutcome, Describes,
        ManifestOf;
    TakenPrefix(labels, maxRows);
    ghost var taken := Taken(labels, maxRows);
    out := [];
    var tallies: map<Split, Tally>, groups: set<int>, emitted: nat, total := map[], {}, 0, 0;
    CohortUnfolds(ood, taken[..0], evaluatedOnly);
    NothingTallied(tallies, out);
    NoneAssigned(ood, out);
    while More(total, |labels|, maxRows)
      invariant total <= |taken|
      invariant out == Cohort(ood, taken[..total], evaluatedOnly) && emitted == |out|
      invariant TalliesAll(tallies, out) && groups == HoursIn(OfSplit(out, Test)) && Assigned(ood, out)
      decreases |labels| - total
    {
      var r := labels[total];
      assert taken[..total + 1][..total] == taken[..total];
      CohortUnfolds(ood, taken[..total + 1], evaluatedOnly);
      total := total + 1;
      var row := CohortRowOf(ood, r);
      if Emitted(row.split, evaluatedOnly) {
        CountRow(tallies, out, row);
        OneMoreAssigned(ood, out, r);
        TestHours(out, row);
        out, emitted := out + [row], emitted + 1;
        tallies := tallies[row.split := Counted(TallyAt(tallies, row.split), row)];
        if row.split == Test { groups := groups + {row.hour}; }
      }
    }
    assert taken[..total] == taken;
    CohortShows(ood, taken, evaluatedOnly);
    ManifestDescribes(out, tallies, groups, emitted);
    ManifestSeparates(ood, out, tallies, groups, emitted);
    manifest := ManifestOf(tallies, groups, emitted);
  }

  lemma NoneAssigned(ood: int -> bool, out: seq<CohortRow>)
    requires |out| == 0
    ensures Assigned(ood, out)
  {
  }

  lemma OneMoreAssigned(ood: int -> bool, out: seq<CohortRow>, r: Labelled<int>)
    requires Assigned(ood, out)
    ensures Assigned(ood, out + [CohortRowOf(ood, r)])
  {
    OodAndTest(ood, r.key, Seconds(r.ts));
  }

  // The closing part of the generator.
  function ManifestOf(tallies: map<Split, Tally>, groups: set<int>, emitted: nat): Manifest {
    var cold, train := TallyAt(tallies, Ood).users, TallyAt(tallies, Train).users;
    var validation := TallyAt(tallies, Validation).users;
    Manifest(emitted, |groups|, TallyAt(tallies, Test).negative, TallyAt(tallies, Test).positive,
             map s | s in tallies :: SummaryOf(tallies[s]),
             cold * train == {} && cold * validation == {}, |groups| >= 30, cold * (train + validation) == {})
  }

  lemma ManifestDescribes(out: seq<CohortRow>, tallies: map<Split, Tally>, groups: set<int>, emitted: nat)
    requires TalliesAll(tallies, out) && groups == HoursIn(OfSplit(out, Test)) && emitted == |out|
    ensures Describes(ManifestOf(tallies, groups, emitted), out)
  {
    hide OfSplit, HoursIn, UsersIn, WithOutcome, TalliesAll, Tallies, Summarises, SummaryOf;
    TalliedAt(tallies, out, Test);
    forall s: Split
      ensures s in tallies <==> |OfSplit(out, s)| > 0
      ensures Summarises(SummaryOf(TallyAt(tallies, s)), OfSplit(out, s))
    {
      SummariesHold(tallies, out, s);
    }
  }

  lemma ManifestSeparates(ood: int -> bool, out: seq<CohortRow>, tallies: map<Split, Tally>, groups: set<int>,
                          emitted: nat)
    requires TalliesAll(tallies, out) && groups == HoursIn(OfSplit(out, Test)) && Assigned(ood, out)
    ensures var m := ManifestOf(tallies, groups, emitted); m.testGroups <= 46 && m.coldDisjoint && m.noLeak
  {
    hide OfSplit, HoursIn, UsersIn, WithOutcome, Assigned, TalliesAll, TallyAt;
    TalliedAt(tallies, out, Ood);
    TalliedAt(tallies, out, Train);
    TalliedAt(tallies, out, Validation);
    ColdAreDisjoint(ood, out);
    AtMostAllHours(ood, out);
    var cold, train := TallyAt(tallies, Ood).users, TallyAt(tallies, Train).users;
    var validation := TallyAt(tallies, Validation).users;
    assert cold * (train + validation) == cold * train + cold * validation;
  }

  lemma TalliedAt(tallies: map<Split, Tally>, out: seq<CohortRow>, s: Split)
    requires TalliesAll(tallies, out)
    ensures Tallies(TallyAt(tallies, s), OfSplit(out, s))
    ensures TallyAt(tallies, s).negative == |WithOutcome(OfSplit(out, s), Some(false))|
    ensures TallyAt(tallies, s).positive == |WithOutcome(OfSplit(out, s), Some(true))|
    ensures TallyAt(tallies, s).users == UsersIn(OfSplit(out, s))
  {
  }

  lemma CohortUnfolds(ood: int -> bool, rows: seq<Labelled<int>>, evaluatedOnly: bool)
    ensures |rows| == 0 ==> Cohort(ood, rows, evaluatedOnly) == []
    ensures |rows| > 0 ==>
      var row := CohortRowOf(ood, rows[|rows| - 1]);
      Cohort(ood, rows, evaluatedOnly)
      == Cohort(ood, rows[..|rows| - 1], evaluatedOnly) + if Emitted(row.split, evaluatedOnly) then [row] else []
  {
  }

  lemma OodAndTest(ood: int -> bool, user: int, sec: int)
    ensures var a := Assign(ood, user, sec); (a.split == Ood <==> ood(user)) && (a.split == Test ==> 0 <= a.hour < 46)
  {
  }

  // Under the default horizon and campaign end, blanking the tail changes nothing: those rows are
  // already censored. Rows on whole seconds are censored exactly when they are in the tail.
  lemma TailIsAlreadyCensored(ood: int -> bool, events: seq<Event<int>>, i: nat, r: Labelled<int>)
    requires i < |events| && Sound(events, DEFAULT_HORIZON * SECOND, CAMPAIGN_END * SECOND, i, r)
    ensures CohortRowOf(ood, r).outcome == r.outcome
    ensures r.ts == Seconds(r.ts) * SECOND ==> (CohortRowOf(ood, r).outcome.None? <==> Seconds(r.ts) > TEST_END)
  {
  }

  // ---- The training file does not depend on later periods ----

  function LabelAll(events: seq<Event<int>>, horizonSec: int): seq<Labelled<int>> {
    seq(|events|, i requires 0 <= i < |events| => RecordAt(events, i, horizonSec))
  }

  // The training rows of a cohort file.
  function TrainFile(ood: int -> bool, rows: seq<Labelled<int>>, evaluatedOnly: bool): seq<CohortRow> {
    OfSplit(Cohort(ood, rows, evaluatedOnly), Train)
  }

  lemma TrainFileUnfolds(ood: int -> bool, rows: seq<Labelled<int>>, r: Labelled<int>, evaluatedOnly: bool)
    ensures TrainFile(ood, rows + [r], evaluatedOnly)
         == TrainFile(ood, rows, evaluatedOnly)
             + if CohortRowOf(ood, r).split == Train then [CohortRowOf(ood, r)] else []
  {
    hide Assign, Cohort;
    var row, before := CohortRowOf(ood, r), Cohort(ood, rows, evaluatedOnly);
    assert (rows + [r])[..|rows|] == rows;
    CohortUnfolds(ood, rows + [r], evaluatedOnly);
    assert (before + [row])[..|before|] == before;
    assert before + [] == before;
  }

  lemma {:induction false} LaterRowsNotTraining(ood: int -> bool, rows: seq<Labelled<int>>, n: nat, evaluatedOnly: bool)
    requires n <= |rows| && forall k | n <= k < |rows| :: CohortRowOf(ood, rows[k]).split != Train
    ensures TrainFile(ood, rows, evaluatedOnly) == TrainFile(ood, rows[..n], evaluatedOnly)
  {
    hide TrainFile, CohortRowOf;
    if n < |rows| {
      var before := rows[..|rows| - 1];
      assert rows == before + [rows[|rows| - 1]];
      LaterRowsNotTraining(ood, before, n, evaluatedOnly);
      assert before[..n] == rows[..n];
      TrainFileUnfolds(ood, before, rows[|rows| - 1], evaluatedOnly);
    } else {
      assert rows[..n] == rows;
    }
  }

  lemma {:induction false} SameTrainingRows(ood: int -> bool, x: seq<Labelled<int>>, y: seq<Labelled<int>>,
                                            evaluatedOnly: bool)
    requires |x| == |y|
    requires forall k | 0 <= k < |x| ::
      x[k] == y[k] || (CohortRowOf(ood, x[k]).split != Train && CohortRowOf(ood, y[k]).split != Train)
    ensures TrainFile(ood, x, evaluatedOnly) == TrainFile(ood, y, evaluatedOnly)
  {
    hide TrainFile, CohortRowOf;
    if |x| > 0 {
      var m := |x| - 1;
      SameTrainingRows(ood, x[..m], y[..m], evaluatedOnly);
      TrainFileUnfolds(ood, x[..m], x[m], evaluatedOnly);
      TrainFileUnfolds(ood, y[..m], y[m], evaluatedOnly);
      assert x == x[..m] + [x[m]] && y == y[..m] + [y[m]];
    }
  }

  // Two time-ordered streams that agree before validation starts give the same training file: labels,
  // groups and all, for every horizon of at most two hours and every choice of held-out users.
  lemma TrainFileIgnoresLaterPeriods(ood: int -> bool, a: seq<Event<int>>, b: seq<Event<int>>, n: nat, horizonSec: int,
                                     evaluatedOnly: bool)
    requires AgreeBefore(a, b, n, VAL_START) && Ordered(a) && Ordered(b) && horizonSec <= DEFAULT_HORIZON
    ensures TrainFile(ood, LabelAll(a, horizonSec), evaluatedOnly)
            == TrainFile(ood, LabelAll(b, horizonSec), evaluatedOnly)
  {
    hide TrainFile, Ordered, RecordAt, Hour;
    var x, y := LabelAll(a, horizonSec), LabelAll(b, horizonSec);
    forall k | 0 <= k < n
      ensures x[k] == y[k] || (CohortRowOf(ood, x[k]).split != Train && CohortRowOf(ood, y[k]).split != Train)
    {
      assert a[k] == a[..n][k] == b[..n][k] == b[k];
      RecordStamps(a, k, horizonSec);
      RecordStamps(b, k, horizonSec);
      if Seconds(a[k].ts) <= TRAIN_END { RecordsAgree(a, b, n, VAL_START, k, horizonSec); }
    }
    forall k | n <= k < |x| ensures CohortRowOf(ood, x[k]).split != Train { RecordStamps(a, k, horizonSec); }
    forall k | n <= k < |y| ensures CohortRowOf(ood, y[k]).split != Train { RecordStamps(b, k, horizonSec); }
    LaterRowsNotTraining(ood, x, n, evaluatedOnly);
    LaterRowsNotTraining(ood, y, n, evaluatedOnly);
    SameTrainingRows(ood, x[..n], y[..n], evaluatedOnly);
  }

  lemma RecordStamps(events: seq<Event<int>>, i: nat, horizonSec: int)
    requires i < |events|
    ensures RecordAt(events, i, horizonSec).ts == events[i].ts && RecordAt(events, i, horizonSec).key == events[i].key
  {
  }
}
