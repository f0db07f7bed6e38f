// What a line of the raw input means, column by column, and what the canonicalizer makes of it.
module RawLines {
  import opened Options
  import opened Text
  import opened Records
  import C = Canonicalizer

  datatype Behavior = Pv | Fav | Cart | Buy

  datatype Raw = Raw(user: nat, item: nat, category: nat, behavior: Behavior, ts: nat)

  function Name(b: Behavior): string {
    match b case Pv => "pv" case Fav => "fav" case Cart => "cart" case Buy => "buy"
  }

  // Ties are broken in this order.
  function Rank(b: Behavior): nat {
    match b case Pv => 0 case Fav => 1 case Cart => 2 case Buy => 3
  }

  // What the engine calls it.
  function Code(b: Behavior): nat {
    match b case Pv => 0 case Cart => 1 case Fav => 2 case Buy => 3
  }

  function CellsOf(r: Raw): seq<string> {
    [Decimal(r.user), Decimal(r.item), Decimal(r.category), Name(r.behavior), Decimal(r.ts)]
  }

  function LineOf(r: Raw): string { Join(CellsOf(r), ',') }

  predicate IsNewline(c: char) { c == '\r' || c == '\n' }

  predicate IsEnd(end: string) { forall k | 0 <= k < |end| :: IsNewline(end[k]) }

  // The line has something on it before its end.
  predicate Solid(text: string) { |text| > 0 && !IsNewline(text[|text| - 1]) }

  lemma {:induction false} EndStripped(text: string, end: string)
    requires Solid(text) && IsEnd(end)
    ensures C.StripNewlines(text + end) == text
  {
    if |end| > 0 {
      EndStripped(text, end[..|end| - 1]);
      assert (text + end)[..|text + end| - 1] == text + end[..|end| - 1];
    } else {
      assert text + end == text;
    }
  }

  // ---- Any line ----

  // The cells a line must have.
  predicate WellFormed(toInt: IntParser, cells: seq<string>) {
    && |cells| == 5 && "" !in cells
    && toInt(cells[0]).Some? && toInt(cells[1]).Some? && toInt(cells[2]).Some? && toInt(cells[4]).Some?
    && toInt(cells[0]).value >= 0 && toInt(cells[1]).value >= 0 && toInt(cells[2]).value >= 0
    && IsBehavior(cells[3])
  }

  predicate IsBehavior(name: string) { name == "pv" || name == "fav" || name == "cart" || name == "buy" }

  lemma KnownBehaviors(name: string)
    ensures name in C.BEHAVIORS <==> IsBehavior(name)
  {
  }

  lemma NameKnown(b: Behavior)
    ensures IsBehavior(Name(b)) && |Name(b)| > 0
  {
  }

  // A line is rejected exactly when its cells are not well formed, and each column goes where it belongs.
  lemma LineParses(toInt: IntParser, cells: seq<string>, end: string)
    requires |cells| > 0 && (forall x | x in cells :: ',' !in x) && Solid(Join(cells, ',')) && IsEnd(end)
    ensures var row := C.ParseRow(toInt, Join(cells, ',') + end);
            && (row.Some? <==> WellFormed(toInt, cells))
            && (row.Some? ==> row.value.user == toInt(cells[0]).value && row.value.item == toInt(cells[1]).value
                              && row.value.category == toInt(cells[2]).value && row.value.behavior == cells[3]
                              && row.value.ts == toInt(cells[4]).value)
  {
    hide Split, Join, C.BEHAVIORS, C.StripNewlines, IsBehavior;
    EndStripped(Join(cells, ','), end);
    SplitJoin(cells, ',');
    if |cells| == 5 { KnownBehaviors(cells[3]); }
  }

  // ---- Lines of decimal numerals ----

  lemma CellsHaveNoComma(r: Raw)
    ensures forall x | x in CellsOf(r) :: ',' !in x
  {
    NumeralHasNo(r.user, ',');
    NumeralHasNo(r.item, ',');
    NumeralHasNo(r.category, ',');
    NumeralHasNo(r.ts, ',');
  }

  lemma {:induction false} JoinEnds(cells: seq<string>, c: char)
    requires |cells| > 0 && |cells[|cells| - 1]| > 0
    ensures var text, last := Join(cells, c), cells[|cells| - 1]; |text| > 0 && text[|text| - 1] == last[|last| - 1]
  {
    if |cells| > 1 { JoinEnds(cells[1..], c); }
  }

  lemma RawLineParses(toInt: IntParser, r: Raw, end: string)
    requires IsEnd(end)
    ensures C.ParseRow(toInt, LineOf(r) + end) == Some(C.Row(r.user, r.item, r.category, Name(r.behavior), r.ts))
  {
    hide Join, Decimal, C.ParseRow, IsBehavior, Name;
    NameKnown(r.behavior);
    CellsHaveNoComma(r);
    JoinEnds(CellsOf(r), ',');
    NumeralHasNo(r.ts, '\r');
    NumeralHasNo(r.ts, '\n');
    assert CellsOf(r)[4] == Decimal(r.ts);
    LineParses(toInt, CellsOf(r), end);
  }

  function RecordFor(r: Raw): Record {
    Record(r.ts, r.user, r.item, r.category, Rank(r.behavior), Code(r.behavior))
  }

  lemma RawRecord(r: Raw)
    ensures C.RecordOf(C.Row(r.user, r.item, r.category, Name(r.behavior), r.ts)) == RecordFor(r)
  {
  }

  // ---- Whole inputs ----

  // Nine days, in seconds, from the start of the campaign.
  lemma DefaultWindow()
    ensures C.DEFAULT_WINDOW.start == 1511539200 && C.DEFAULT_WINDOW.end == 1511539200 + 9 * 24 * 3600 - 1
  {
  }

  predicate InWindow(w: C.Window, r: Raw) { w.start <= r.ts <= w.end }

  // The records of the rows whose second lies in the window, in input order.
  function Kept(w: C.Window, rows: seq<Raw>): seq<Record> {
    if |rows| == 0 then []
    else Kept(w, rows[..|rows| - 1]) + if InWindow(w, rows[|rows| - 1]) then [RecordFor(rows[|rows| - 1])] else []
  }

  predicate Written(rows: seq<Raw>, lines: seq<string>, ends: seq<string>) {
    |lines| == |rows| == |ends| && forall i | 0 <= i < |rows| :: IsEnd(ends[i]) && lines[i] == LineOf(rows[i]) + ends[i]
  }

  ghost function Before(w: C.Window, rows: seq<Raw>): set<nat> { set i: nat | i < |rows| && rows[i].ts < w.start }

  ghost function After(w: C.Window, rows: seq<Raw>): set<nat> {
    set i: nat | i < |rows| && rows[i].ts > w.end && rows[i].ts >= w.start
  }

  lemma {:induction false} LinesMean(toInt: IntParser, w: C.Window, rows: seq<Raw>, lines: seq<string>,
                                     ends: seq<string>)
    requires Written(rows, lines, ends)
    ensures C.Parses(toInt, lines) && C.Candidates(toInt, w, lines) == Kept(w, rows)
    ensures C.CountPlace(toInt, w, lines, C.Negative) == 0
    ensures C.CountPlace(toInt, w, lines, C.Early) == |Before(w, rows)|
    ensures C.CountPlace(toInt, w, lines, C.Late) == |After(w, rows)|
  {
    hide C.ParseRow, LineOf, C.RecordOf, RecordFor;
    if |rows| > 0 {
      hide C.Candidates, C.CountPlace, C.Parses;
      var n := |rows| - 1;
      LinesMean(toInt, w, rows[..n], lines[..n], ends[..n]);
      RawLineParses(toInt, rows[n], ends[n]);
      RawRecord(rows[n]);
      assert lines == lines[..n] + [lines[n]];
      C.OneMoreLine(toInt, w, lines[..n], lines[n]);
      OneMoreRow(w, rows, n);
    } else {
      assert Before(w, rows) == {} && After(w, rows) == {};
    }
  }

  lemma OneMoreRow(w: C.Window, rows: seq<Raw>, n: nat)
    requires n + 1 == |rows|
    ensures |Before(w, rows)| == |Before(w, rows[..n])| + if rows[n].ts < w.start then 1 else 0
    ensures |After(w, rows)| == |After(w, rows[..n])| + if rows[n].ts > w.end && rows[n].ts >= w.start then 1 else 0
  {
    assert Before(w, rows) == Before(w, rows[..n]) + if rows[n].ts < w.start then {n} else {};
    assert After(w, rows) == After(w, rows[..n]) + if rows[n].ts > w.end && rows[n].ts >= w.start then {n} else {};
  }

  // The canonical file of raw rows: their in-window records, and a ledger that counts what is left out.
  lemma RawFile(toInt: IntParser, w: C.Window, rows: seq<Raw>, lines: seq<string>, ends: seq<string>, out: C.Output)
    requires Written(rows, lines, ends) && C.Parses(toInt, lines) && C.IsCanonicalization(toInt, w, lines, out)
    ensures out.text == C.PrintFile(Canonical(Kept(w, rows)))
    ensures out.accounting.rawRows == |rows| && out.accounting.negative == 0
    ensures out.accounting.early == |Before(w, rows)| && out.accounting.late == |After(w, rows)|
    ensures out.accounting.candidates == |Kept(w, rows)| && out.accounting.emitted == |Canonical(Kept(w, rows))|
  {
    hide C.PrintFile, Canonical, C.Candidates, C.CountPlace, C.Parses;
    LinesMean(toInt, w, rows, lines, ends);
  }

  // ---- One row ----

  function CodeText(b: Behavior): string {
    match b case Pv => "0" case Cart => "1" case Fav => "2" case Buy => "3"
  }

  lemma CodePrints(b: Behavior)
    ensures Decimal(Code(b)) == CodeText(b)
  {
    assert Digit(0) == '0' && Digit(1) == '1' && Digit(2) == '2' && Digit(3) == '3';
  }

  // A single in-window row becomes row 0 of the file: nanoseconds, user, item, category and code.
  lemma OneRowFile(toInt: IntParser, w: C.Window, r: Raw, end: string, out: C.Output)
    requires InWindow(w, r) && IsEnd(end) && C.Parses(toInt, [LineOf(r) + end])
    requires C.IsCanonicalization(toInt, w, [LineOf(r) + end], out)
    ensures out.text == HEADER + "\n"
                        + Join(["0", Decimal(r.ts * 1000000000), Decimal(r.user), Decimal(r.item), Decimal(r.category),
                                CodeText(r.behavior)], ',')
                        + "\n"
  {
    hide C.PrintFile, C.Parses, C.IsCanonicalization, LineOf, Join, HEADER;
    RawFile(toInt, w, [r], [LineOf(r) + end], [end], out);
    var xs := Kept(w, [r]);
    OneKept(w, r);
    OnePrinted(xs, r);
  }

  lemma OneKept(w: C.Window, r: Raw)
    requires InWindow(w, r)
    ensures Canonical(Kept(w, [r])) == [RecordFor(r)]
  {
    assert [r][..0] == [];
    var xs := Kept(w, [r]);
    assert xs == [RecordFor(r)] && xs[..0] == [];
  }

  lemma OnePrinted(xs: seq<Record>, r: Raw)
    requires Canonical(xs) == [RecordFor(r)]
    ensures C.PrintFile(Canonical(xs))
         == HEADER + "\n"
            + Join(["0", Decimal(r.ts * 1000000000), Decimal(r.user), Decimal(r.item), Decimal(r.category),
                    CodeText(r.behavior)], ',')
            + "\n"
  {
    hide Join, HEADER, Decimal, Canonical;
    var x := RecordFor(r);
    CodePrints(Pv);
    CodePrints(r.behavior);
    var cells: seq<nat> := [0, x.ts * 1000000000, x.user, x.item, x.category, x.code];
    assert C.Numerals(cells) == ["0", Decimal(r.ts * 1000000000), Decimal(r.user), Decimal(r.item), Decimal(r.category),
                                 CodeText(r.behavior)];
    assert [x][..0] == [];
    assert C.PrintRows(0, [x]) == C.PrintRow(0, x) + "\n";
  }
}
