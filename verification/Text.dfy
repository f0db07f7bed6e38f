// Delimited text and decimal numerals.
module Text {
  import opened Options

  function FirstAt(s: string, c: char, start: nat): (i: nat)
    requires start <= |s|
    ensures start <= i <= |s| && (i < |s| ==> s[i] == c) && forall k | start <= k < i :: s[k] != c
    decreases |s| - start
  {
    if start == |s| || s[start] == c then start else FirstAt(s, c, start + 1)
  }

  // What str.split(c) yields: always at least one cell.
  function Split(s: string, c: char): (cells: seq<string>)
    ensures |cells| > 0
  {
    if |s| == 0 then [""]
    else
      var rest := Split(s[1..], c);
      if s[0] == c then [""] + rest else [[s[0]] + rest[0]] + rest[1..]
  }

  function Join(cells: seq<string>, c: char): string {
    if |cells| == 0 then "" else if |cells| == 1 then cells[0] else cells[0] + [c] + Join(cells[1..], c)
  }

  lemma {:induction false} SplitFirst(cell: string, c: char, rest: string)
    requires c !in cell
    ensures Split(cell + [c] + rest, c) == [cell] + Split(rest, c)
  {
    if |cell| == 0 {
      assert (cell + [c] + rest)[1..] == rest;
    } else {
      SplitFirst(cell[1..], c, rest);
      assert (cell + [c] + rest)[1..] == cell[1..] + [c] + rest;
      assert [cell[0]] + cell[1..] == cell;
      assert ([cell[1..]] + Split(rest, c))[1..] == Split(rest, c);
    }
  }

  lemma {:induction false} SplitOne(cell: string, c: char)
    requires c !in cell
    ensures Split(cell, c) == [cell]
  {
    if |cell| > 0 {
      SplitOne(cell[1..], c);
      assert [cell[0]] + cell[1..] == cell;
    }
  }

  // Splitting undoes joining cells that do not contain the delimiter.
  lemma {:induction false} SplitJoin(cells: seq<string>, c: char)
    requires |cells| > 0 && forall x | x in cells :: c !in x
    ensures Split(Join(cells, c), c) == cells
  {
    if |cells| == 1 {
      SplitOne(cells[0], c);
    } else {
      SplitJoin(cells[1..], c);
      SplitFirst(cells[0], c, Join(cells[1..], c));
    }
  }

  lemma {:induction false} JoinHasNo(cells: seq<string>, c: char, d: char)
    requires c != d && forall x | x in cells :: d !in x
    ensures d !in Join(cells, c)
  {
    if |cells| > 1 { JoinHasNo(cells[1..], c, d); }
  }

  // ---- The canonical event file ----

  const COLUMNS := ["seq", "event_ts_ns", "key", "item_id", "category_id", "behavior_code"]

  const HEADER := Join(COLUMNS, ',')

  lemma HeaderText()
    ensures HEADER == "seq" + ([','] + ("event_ts_ns" + ([','] + ("key" + ([','] + ("item_id" + ([',']
                      + ("category_id" + ([','] + "behavior_code")))))))))
  {
    hide Join;
    var c1 := ["behavior_code"];
    var c2, c3 := ["category_id"] + c1, ["item_id"] + (["category_id"] + c1);
    var c4, c5 := ["key"] + c3, ["event_ts_ns"] + (["key"] + c3);
    assert COLUMNS == ["seq"] + c5;
    JoinOne("behavior_code", ',');
    JoinNext("category_id", c1, ',');
    JoinNext("item_id", c2, ',');
    JoinNext("key", c3, ',');
    JoinNext("event_ts_ns", c4, ',');
    JoinNext("seq", c5, ',');
  }

  lemma JoinNext(a: string, rest: seq<string>, c: char)
    requires |rest| > 0
    ensures Join([a] + rest, c) == a + ([c] + Join(rest, c))
  {
    assert ([a] + rest)[1..] == rest;
    assert a + [c] + Join(rest, c) == a + ([c] + Join(rest, c));
  }

  lemma JoinOne(a: string, c: char)
    ensures Join([a], c) == a
  {
  }

  lemma HeaderIsOneLine()
    ensures '\n' !in HEADER && '\r' !in HEADER
  {
    hide Join;
    forall x | x in COLUMNS ensures '\n' !in x && '\r' !in x {
      assert forall k | 0 <= k < |COLUMNS| :: '\n' !in COLUMNS[k] && '\r' !in COLUMNS[k];
    }
    JoinHasNo(COLUMNS, ',', '\n');
    JoinHasNo(COLUMNS, ',', '\r');
  }

  // ---- Row limits ----

  // The loop test of a reader: another line, and the limit not reached.
  predicate More(n: nat, count: nat, maxRows: Option<int>) { n < count && (maxRows.None? || n < maxRows.value) }

  // The lines read before the limit stops the loop.
  function Taken<T>(lines: seq<T>, maxRows: Option<int>): seq<T> {
    if maxRows.None? || maxRows.value >= |lines| then lines
    else if maxRows.value < 0 then []
    else lines[..maxRows.value]
  }

  lemma TakenPrefix<T>(lines: seq<T>, maxRows: Option<int>)
    ensures Taken(lines, maxRows) <= lines
    ensures forall n: nat | n <= |Taken(lines, maxRows)| :: More(n, |lines|, maxRows) <==> n < |Taken(lines, maxRows)|
  {
  }

  // ---- Decimal numerals ----

  predicate IsDigit(c: char) { '0' <= c <= '9' }

  predicate AllDigits(s: string) { forall k | 0 <= k < |s| :: IsDigit(s[k]) }

  function Value(s: string): nat
    requires AllDigits(s)
  {
    if |s| == 0 then 0 else Value(s[..|s| - 1]) * 10 + (s[|s| - 1] - '0') as nat
  }

  function Digit(n: nat): (c: char)
    requires n < 10
    ensures IsDigit(c) && (c - '0') as nat == n
  {
    '0' + n as char
  }

  // A numeral is nonempty, all digits, and denotes its number.
  function Decimal(n: nat): (s: string)
    ensures |s| > 0 && AllDigits(s) && Value(s) == n
  {
    if n < 10 then
      assert [Digit(n)][..0] == "";
      [Digit(n)]
    else
      var s := Decimal(n / 10) + [Digit(n % 10)];
      assert s[..|s| - 1] == Decimal(n / 10);
      s
  }

  // Any parser that reads back decimal numerals may stand for Python's int().
  ghost predicate ReadsDecimals(f: string -> Option<int>) { forall n: nat :: f(Decimal(n)) == Some(n) }

  type IntParser = f: string -> Option<int> | ReadsDecimals(f)
    witness (s: string) => if |s| > 0 && AllDigits(s) then Some(Value(s)) else None

  lemma NumeralHasNo(n: nat, c: char)
    requires !IsDigit(c)
    ensures c !in Decimal(n)
  {
  }
}
