// The replay reader does not care how lines end: with or without a carriage return, and with or without
// a newline after the last one.
module LineEnds {
  import opened Options
  import opened Text
  import opened Records
  import C = Canonicalizer
  import opened Replay
  import T = RoundTrip

  // A line that is not empty and holds no line end of its own.
  predicate Plain(line: string) { '\n' !in line && |line| > 0 && line[|line| - 1] != '\r' }

  predicate AllPlain(lines: seq<string>) { forall k | 0 <= k < |lines| :: Plain(lines[k]) }

  // The lines from k on; `cr` says which carry a carriage return, `closed` whether the last has a newline.
  function Stream(lines: seq<string>, cr: nat -> bool, closed: bool, k: nat): string
    requires k <= |lines|
    decreases |lines| - k
  {
    if k == |lines| then ""
    else lines[k] + (if cr(k) then "\r" else "") + (if closed || k + 1 < |lines| then "\n" else "")
         + Stream(lines, cr, closed, k + 1)
  }

  lemma LineRead(lines: seq<string>, cr: nat -> bool, closed: bool, k: nat)
    requires k < |lines| && AllPlain(lines)
    ensures var line := GetLine(Stream(lines, cr, closed, k));
            line.Some? && StripCr(line.value.0) == lines[k] && line.value.1 == Stream(lines, cr, closed, k + 1)
  {
    var text := lines[k] + if cr(k) then "\r" else "";
    var end := if closed || k + 1 < |lines| then "\n" else "";
    var rest := Stream(lines, cr, closed, k + 1);
    var input := Stream(lines, cr, closed, k);
    assert input == text + end + rest;
    assert '\n' !in text;
    if end == "" {
      assert rest == "" && input == text;
      NoNewline(input);
    } else {
      T.FirstLine(text, rest);
    }
    assert StripCr(text) == lines[k];
  }

  lemma NoNewline(input: string)
    requires |input| > 0 && '\n' !in input
    ensures GetLine(input) == Some((input, ""))
  {
    assert input[..|input|] == input;
  }

  function Never(): nat -> bool { (k: nat) => false }

  lemma {:induction false} SameRemaining(s: Reader, lines: seq<string>, cr: nat -> bool, closed: bool, k: nat)
    requires k <= |lines| && AllPlain(lines)
    ensures Remaining(s.(input := Stream(lines, cr, closed, k)))
         == Remaining(s.(input := Stream(lines, Never(), true, k)))
    decreases |lines| - k
  {
    hide GetLine, StripCr, Stream, EventOf, Split, AllPlain;
    var a, b := s.(input := Stream(lines, cr, closed, k)), s.(input := Stream(lines, Never(), true, k));
    if k < |lines| {
      LineRead(lines, cr, closed, k);
      LineRead(lines, Never(), true, k);
      var next := NextOf(a).1;
      assert NextOf(b).1 == next.(input := Stream(lines, Never(), true, k + 1));
      SameRemaining(next, lines, cr, closed, k + 1);
    } else {
      StreamEnds(lines, cr, closed);
      StreamEnds(lines, Never(), true);
    }
  }

  lemma StreamEnds(lines: seq<string>, cr: nat -> bool, closed: bool)
    ensures Stream(lines, cr, closed, |lines|) == ""
  {
  }

  // Whatever the line ends, a stream reads as it would with plain newlines, header included.
  lemma LineEndsDoNotMatter(lines: seq<string>, cr: nat -> bool, closed: bool)
    requires AllPlain(lines)
    ensures Replayed(Stream(lines, cr, closed, 0)) == Replayed(Stream(lines, Never(), true, 0))
  {
    hide GetLine, StripCr, Stream, AllPlain, Remaining, HEADER;
    if |lines| > 0 {
      LineRead(lines, cr, closed, 0);
      LineRead(lines, Never(), true, 0);
      SameRemaining(Reader("", 0, 0, 1, false), lines, cr, closed, 1);
    } else {
      StreamEnds(lines, cr, closed);
      StreamEnds(lines, Never(), true);
    }
  }

  // ---- Canonical files ----

  function FileLines(xs: seq<Record>): seq<string> {
    [HEADER] + seq(|xs|, k requires 0 <= k < |xs| => C.PrintRow(k, xs[k]))
  }

  lemma {:induction false} RowsStream(xs: seq<Record>, k: nat)
    requires k <= |xs|
    ensures Stream(FileLines(xs), Never(), true, k + 1) == T.RowsFrom(k, xs)
    decreases |xs| - k
  {
    hide C.PrintRow, HEADER;
    if k < |xs| {
      RowsStream(xs, k + 1);
      assert FileLines(xs)[k + 1] == C.PrintRow(k, xs[k]);
      assert C.PrintRow(k, xs[k]) + "" + "\n" == C.PrintRow(k, xs[k]) + "\n";
    }
  }

  lemma FileStream(xs: seq<Record>)
    ensures Stream(FileLines(xs), Never(), true, 0) == C.PrintFile(xs)
  {
    hide C.PrintRow, HEADER, FileLines;
    RowsStream(xs, 0);
    T.RowsFromSplit(0, xs);
    assert xs[..0] == [];
    HeaderFirst(xs);
    assert HEADER + "" + "\n" == HEADER + "\n";
  }

  lemma HeaderFirst(xs: seq<Record>)
    ensures |FileLines(xs)| == |xs| + 1 && FileLines(xs)[0] == HEADER
  {
  }

  lemma LinesArePlain(xs: seq<Record>)
    ensures AllPlain(FileLines(xs))
  {
    hide C.PrintRow, HEADER;
    forall k | 0 <= k < |FileLines(xs)| ensures Plain(FileLines(xs)[k]) {
      if k == 0 { HeaderIsPlain(); } else { RowIsPlain(k - 1, xs[k - 1]); }
    }
  }

  lemma HeaderIsPlain()
    ensures Plain(HEADER)
  {
    HeaderIsOneLine();
    HeaderText();
  }

  lemma RowIsPlain(k: nat, x: Record)
    ensures Plain(C.PrintRow(k, x))
  {
    hide Join, Decimal;
    var cells := T.RowCells(k, x);
    T.PrintHasNo(cells, ',', '\n');
    T.PrintHasNo(cells, ',', '\r');
    NotEmpty(C.Numerals(cells), ',');
  }

  lemma NotEmpty(cells: seq<string>, c: char)
    requires |cells| > 1
    ensures |Join(cells, c)| > 0
  {
  }

  // A canonical file rewritten with other line ends, or cut before its last newline, reads back to the
  // same events.
  lemma RewrittenFileReadsBack(xs: seq<Record>, cr: nat -> bool, closed: bool)
    ensures Replayed(Stream(FileLines(xs), cr, closed, 0)) == Replayed(C.PrintFile(xs))
  {
    hide Replayed, C.PrintFile, FileLines, AllPlain, Stream;
    LinesArePlain(xs);
    LineEndsDoNotMatter(FileLines(xs), cr, closed);
    FileStream(xs);
  }
}
