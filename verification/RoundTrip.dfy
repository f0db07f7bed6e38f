// What the canonicalizer prints, the replay reader reads back.
module RoundTrip {
  import opened Bits
  import opened Options
  import opened Text
  import opened Records
  import opened Features
  import C = Canonicalizer
  import R = Replay

  // ---- One row ----

  function RowCells(k: nat, x: Record): seq<nat> { [k, x.ts * 1000000000, x.user, x.item, x.category, x.code] }

  // Every printed number fits the reader's 64 bits.
  predicate Fits(k: nat, x: Record) { forall n | n in RowCells(k, x) :: n < WORD }

  function EventOf(k: nat, x: Record): RawEvent
    requires Fits(k, x)
  {
    Fitting(k, x);
    RawEvent(k, x.ts * 1000000000, x.user, x.item, x.category, x.code)
  }

  lemma Fitting(k: nat, x: Record)
    ensures Fits(k, x) <==>
      k < WORD && x.ts * 1000000000 < WORD && x.user < WORD && x.item < WORD && x.category < WORD && x.code < WORD
  {
    var c := RowCells(k, x);
    assert c[0] in c && c[1] in c && c[2] in c && c[3] in c && c[4] in c && c[5] in c;
  }

  lemma NumeralIsUnsigned(n: nat)
    ensures R.UnsignedInteger(Decimal(n)) == if n < WORD then Some(n) else None
  {
    hide Decimal;
  }

  lemma PrintHasNo(cells: seq<nat>, c: char, d: char)
    requires !IsDigit(d) && c != d
    ensures d !in C.PrintCells(cells, c)
  {
    hide Join;
    forall x | x in C.Numerals(cells) ensures d !in x {
      var i :| 0 <= i < |cells| && x == Decimal(cells[i]);
      NumeralHasNo(cells[i], d);
    }
    JoinHasNo(C.Numerals(cells), c, d);
  }

  // A printed row parses to its event exactly when all its numbers fit.
  lemma RowReadsBack(k: nat, x: Record)
    requires Legit(x)
    ensures R.EventOf(Split(R.StripCr(C.PrintRow(k, x)), ',')) == if Fits(k, x) then Some(EventOf(k, x)) else None
  {
    hide Split, Join, Decimal, R.UnsignedInteger, C.PrintCells;
    var cells := RowCells(k, x);
    PrintHasNo(cells, ',', '\r');
    C.NumeralsReadBack(Reader(), cells, ',');
    var strings := C.Numerals(cells);
    assert Split(R.StripCr(C.PrintRow(k, x)), ',') == strings;
    forall i | 0 <= i < 6 ensures R.UnsignedInteger(strings[i]) == if cells[i] < WORD then Some(cells[i]) else None {
      NumeralIsUnsigned(cells[i]);
    }
    Fitting(k, x);
  }

  function Reader(): IntParser { (s: string) => if |s| > 0 && AllDigits(s) then Some(Value(s)) else None }

  // ---- The whole file ----

  // Rows k and above, front to back.
  function RowsFrom(k: nat, xs: seq<Record>): string
    requires k <= |xs|
    decreases |xs| - k
  {
    if k == |xs| then "" else C.PrintRow(k, xs[k]) + "\n" + RowsFrom(k + 1, xs)
  }

  lemma {:induction false} RowsFromSplit(k: nat, xs: seq<Record>)
    requires k <= |xs|
    ensures C.PrintRows(0, xs) == C.PrintRows(0, xs[..k]) + RowsFrom(k, xs)
    decreases |xs| - k
  {
    hide C.PrintRow;
    if k < |xs| {
      RowsFromSplit(k + 1, xs);
      assert xs[..k + 1][..k] == xs[..k];
    } else {
      assert xs[..k] == xs;
    }
  }

  lemma FirstLine(line: string, rest: string)
    requires '\n' !in line
    ensures R.GetLine(line + "\n" + rest) == Some((line, rest))
  {
    var input := line + "\n" + rest;
    assert input[|line|] == '\n';
    assert forall i | 0 <= i < |line| :: input[i] == line[i];
    assert input[..|line|] == line && input[|line| + 1..] == rest;
  }

  predicate AllFit(k: nat, xs: seq<Record>) { forall i | k <= i < |xs| :: Fits(i, xs[i]) }

  function EventsFrom(k: nat, xs: seq<Record>): seq<RawEvent>
    requires k <= |xs| && AllFit(k, xs)
  {
    seq(|xs| - k, i requires 0 <= i < |xs| - k => EventOf(k + i, xs[k + i]))
  }

  // The reader stands at row k of the file, having just read row k - 1.
  predicate AtRow(s: R.Reader, k: nat, xs: seq<Record>)
    requires k <= |xs|
  {
    && s.input == RowsFrom(k, xs) && s.seen == (k > 0)
    && (k > 0 ==> s.previousSeq == k - 1 && s.previousTs == xs[k - 1].ts * 1000000000)
  }

  lemma {:induction false} RowsReadBack(s: R.Reader, k: nat, xs: seq<Record>)
    requires Increasing(xs) && AllLegit(xs) && k <= |xs| && AtRow(s, k, xs)
    ensures R.Remaining(s) == if AllFit(k, xs) then Some(EventsFrom(k, xs)) else None
    decreases |xs| - k
  {
    hide C.PrintRow, R.EventOf, Split, R.StripCr, Legit, Fits, R.GetLine, EventOf;
    if k < |xs| {
      RowHasNoNewline(k, xs[k]);
      FirstLine(C.PrintRow(k, xs[k]), RowsFrom(k + 1, xs));
      RowReadsBack(k, xs[k]);
      TimesIncrease(k, xs);
      if Fits(k, xs[k]) {
        FitRow(k, xs[k]);
        RowsReadBack(R.NextOf(s).1, k + 1, xs);
        if AllFit(k, xs) {
          assert EventsFrom(k, xs) == [EventOf(k, xs[k])] + EventsFrom(k + 1, xs);
        }
      }
    }
  }

  lemma FitRow(k: nat, x: Record)
    requires Fits(k, x)
    ensures EventOf(k, x).seqno == k && EventOf(k, x).ts == x.ts * 1000000000
  {
  }

  lemma TimesIncrease(k: nat, xs: seq<Record>)
    requires Increasing(xs) && 0 <= k < |xs|
    ensures k > 0 ==> xs[k - 1].ts <= xs[k].ts
  {
    assert k > 0 ==> Before(xs[k - 1], xs[k]);
  }

  lemma RowHasNoNewline(k: nat, x: Record)
    ensures '\n' !in C.PrintRow(k, x)
  {
    PrintHasNo(RowCells(k, x), ',', '\n');
  }

  // Reading a printed canonical file yields its records numbered from zero when every number fits 64
  // bits, and fails otherwise; the order, width and behavior checks never trip.
  lemma FileReadsBack(xs: seq<Record>)
    requires Increasing(xs) && AllLegit(xs)
    ensures R.Replayed(C.PrintFile(xs)) == if AllFit(0, xs) then Some(EventsFrom(0, xs)) else None
  {
    hide C.PrintRow, R.Remaining, R.GetLine, HEADER;
    HeaderIsOneLine();
    FirstLine(HEADER, C.PrintRows(0, xs));
    RowsFromSplit(0, xs);
    assert xs[..0] == [];
    assert RowsFrom(0, xs) == C.PrintRows(0, xs);
    RowsReadBack(R.Reader(C.PrintRows(0, xs), 0, 0, 1, false), 0, xs);
  }

  // ---- From raw lines to replayed events ----

  ghost predicate SmallIdentifiers(xs: seq<Record>) {
    |xs| <= WORD && forall x | x in xs :: x.user < WORD && x.item < WORD && x.category < WORD
  }

  // In the default campaign window every nanosecond timestamp fits, so only identifiers can be too
  // large: the file of a canonicalization always reads back when they are below 2^64.
  lemma CanonicalFileReadsBack(toInt: IntParser, lines: seq<string>, out: C.Output)
    requires C.Parses(toInt, lines) && C.IsCanonicalization(toInt, C.DEFAULT_WINDOW, lines, out)
    requires SmallIdentifiers(Canonical(C.Candidates(toInt, C.DEFAULT_WINDOW, lines)))
    ensures var xs := Canonical(C.Candidates(toInt, C.DEFAULT_WINDOW, lines));
            AllFit(0, xs) && R.Replayed(out.text) == Some(EventsFrom(0, xs))
  {
    hide C.PrintFile, C.ParseRow, R.Replayed, Canonical, Decimal;
    var candidates := C.Candidates(toInt, C.DEFAULT_WINDOW, lines);
    var xs := Canonical(candidates);
    C.CandidatesLegit(toInt, C.DEFAULT_WINDOW, lines);
    CanonicalMeans(candidates);
    forall i | 0 <= i < |xs| ensures Fits(i, xs[i]) {
      assert xs[i] in xs;
      CandidatesInWindow(toInt, C.DEFAULT_WINDOW, lines, xs[i]);
      assert Legit(xs[i]);
      Fitting(i, xs[i]);
    }
    FileReadsBack(xs);
  }

  lemma CandidatesInWindow(toInt: IntParser, w: C.Window, lines: seq<string>, x: Record)
    requires C.Parses(toInt, lines) && x in C.Candidates(toInt, w, lines)
    ensures w.start <= x.ts <= w.end
  {
    hide C.ParseRow, C.Candidates;
    C.CandidatesAre(toInt, w, lines, x);
  }
}
