// The external-sort canonicalizer: parse, filter, spill sorted runs, merge, drop duplicates, number.
module Canonicalizer {
  import opened Options
  import opened Text
  import opened Records

  // ---- One input line ----

  datatype Row = Row(user: nat, item: nat, category: nat, behavior: string, ts: int)

  const BEHAVIORS := {"pv", "fav", "cart", "buy"}

  // Tie-breaking rank of a behavior.
  function OrderOf(behavior: string): nat {
    if behavior == "pv" then 0 else if behavior == "fav" then 1 else if behavior == "cart" then 2 else 3
  }

  // The engine's code of a behavior.
  function EngineCode(behavior: string): nat {
    if behavior == "pv" then 0 else if behavior == "cart" then 1 else if behavior == "fav" then 2 else 3
  }

  function StripNewlines(s: string): string {
    if |s| > 0 && (s[|s| - 1] == '\r' || s[|s| - 1] == '\n') then StripNewlines(s[..|s| - 1]) else s
  }

  // None stands for the ValueError raised on a malformed line.
  function ParseRow(toInt: IntParser, line: string): Option<Row> {
    var parts := Split(StripNewlines(line), ',');
    if |parts| != 5 || "" in parts then None
    else
      var user, item, category, ts := toInt(parts[0]), toInt(parts[1]), toInt(parts[2]), toInt(parts[4]);
      if user.None? || item.None? || category.None? || ts.None? then None
      else if user.value < 0 || item.value < 0 || category.value < 0 then None
      else if parts[3] !in BEHAVIORS then None
      else Some(Row(user.value, item.value, category.value, parts[3], ts.value))
  }

  datatype Place = Negative | Early | Late | InWindow

  datatype Window = Window(start: int, end: int)

  const DEFAULT_WINDOW := Window(1511539200, 1512316799)

  function PlaceOf(w: Window, ts: int): Place {
    if ts < 0 then Negative else if ts < w.start then Early else if ts > w.end then Late else InWindow
  }

  function RecordOf(row: Row): Record
    requires row.ts >= 0
  {
    Record(row.ts, row.user, row.item, row.category, OrderOf(row.behavior), EngineCode(row.behavior))
  }

  // ---- Specification ----

  predicate Parses(toInt: IntParser, lines: seq<string>) {
    forall i | 0 <= i < |lines| :: ParseRow(toInt, lines[i]).Some?
  }

  // The in-window records of the lines, in input order.
  function Candidates(toInt: IntParser, w: Window, lines: seq<string>): (r: seq<Record>)
    requires Parses(toInt, lines)
  {
    if |lines| == 0 then [] else
    var row := ParseRow(toInt, lines[|lines| - 1]).value;
    Candidates(toInt, w, lines[..|lines| - 1])
    + if PlaceOf(w, row.ts) == InWindow then [RecordOf(row)] else []
  }

  function CountPlace(toInt: IntParser, w: Window, lines: seq<string>, p: Place): nat
    requires Parses(toInt, lines)
  {
    if |lines| == 0 then 0 else
    CountPlace(toInt, w, lines[..|lines| - 1], p)
    + if PlaceOf(w, ParseRow(toInt, lines[|lines| - 1]).value.ts) == p then 1 else 0
  }

  datatype Accounting = Accounting(rawRows: nat, negative: nat, early: nat, late: nat, outliers: nat,
                                   candidates: nat, duplicates: nat, emitted: nat, chunks: nat)

  datatype Output = Output(text: string, accounting: Accounting)

  function PrintCells(cells: seq<nat>, c: char): string { Join(Numerals(cells), c) }

  function Numerals(cells: seq<nat>): (r: seq<string>)
    ensures |r| == |cells|
  {
    seq(|cells|, i requires 0 <= i < |cells| => Decimal(cells[i]))
  }

  function PrintRow(seqno: nat, r: Record): string {
    PrintCells([seqno, r.ts * 1000000000, r.user, r.item, r.category, r.code], ',')
  }

  // The rows of a canonical list, numbered from `first`.
  function PrintRows(first: nat, xs: seq<Record>): string {
    if |xs| == 0 then "" else PrintRows(first, xs[..|xs| - 1]) + PrintRow(first + |xs| - 1, xs[|xs| - 1]) + "\n"
  }

  function PrintFile(xs: seq<Record>): string { HEADER + "\n" + PrintRows(0, xs) }

  // ---- Spilled runs ----

  function Cells(r: Record): seq<nat> { [r.ts, r.user, r.item, r.category, r.order, r.code] }

  function SpillLine(r: Record): string { PrintCells(Cells(r), '\t') }

  // One temporary file: a line per record of the run.
  datatype RunFile = RunFile(lines: seq<string>)

  function WriteRun(run: seq<Record>): RunFile {
    RunFile(seq(|run|, i requires 0 <= i < |run| => SpillLine(run[i])))
  }

  // None stands for a line that does not hold six integers.
  function ReadLine(toInt: IntParser, line: string): Option<Record> {
    var p := Split(line, '\t');
    if |p| != 6 then None else
    var n := seq(6, i requires 0 <= i < 6 => toInt(p[i]));
    if exists i | 0 <= i < 6 :: n[i].None? || n[i].value < 0 then None
    else Some(Record(n[0].value, n[1].value, n[2].value, n[3].value, n[4].value, n[5].value))
  }

  lemma NumeralsReadBack(toInt: IntParser, cells: seq<nat>, c: char)
    requires |cells| > 0 && !IsDigit(c)
    ensures Split(PrintCells(cells, c), c) == Numerals(cells)
    ensures forall i | 0 <= i < |cells| :: toInt(Numerals(cells)[i]) == Some(cells[i])
  {
    forall x | x in Numerals(cells) ensures c !in x {
      var i :| 0 <= i < |cells| && x == Decimal(cells[i]);
      NumeralHasNo(cells[i], c);
    }
    SplitJoin(Numerals(cells), c);
  }

  // Spilling a record and reading the line back is the identity.
  lemma SpillReadsBack(toInt: IntParser, r: Record)
    ensures ReadLine(toInt, SpillLine(r)) == Some(r)
  {
    hide Split, Join, Decimal;
    NumeralsReadBack(toInt, Cells(r), '\t');
  }

  // ---- Phase 1: stream, filter, spill sorted runs ----

  ghost predicate Spilled(files: seq<RunFile>, runs: seq<seq<Record>>) {
    |files| == |runs| && forall k | 0 <= k < |runs| :: files[k] == WriteRun(runs[k])
  }

  // What phase 1 leaves behind: sorted runs that hold exactly the candidates read so far.
  ghost predicate Partitioned(toInt: IntParser, w: Window, lines: seq<string>, runs: seq<seq<Record>>,
                              chunk: seq<Record>)
    requires Parses(toInt, lines)
  {
    AllSorted(runs) && Contents(runs) + multiset(chunk) == multiset(Candidates(toInt, w, lines))
  }

  // Number of chunks for n candidates: a size of zero or less spills every record on its own.
  function ChunkLength(size: int): (r: nat)
    ensures r > 0
  {
    if size < 1 then 1 else size
  }

  function Filled(chunks: nat, size: nat): nat { chunks * size }

  // n records make this many chunks of the given size, the last one possibly partial.
  predicate ChunksFor(n: nat, size: nat, chunks: nat) {
    n <= Filled(chunks, size) && (chunks > 0 ==> Filled(chunks - 1, size) < n)
  }

  lemma OneMoreChunk(chunks: nat, size: nat)
    ensures Filled(0, size) == 0 && Filled(chunks + 1, size) == Filled(chunks, size) + size
  {
  }

  ghost predicate Tallied(toInt: IntParser, w: Window, lines: seq<string>, a: Accounting)
    requires Parses(toInt, lines)
  {
    && a.rawRows == |lines|
    && a.negative == CountPlace(toInt, w, lines, Negative)
    && a.early == CountPlace(toInt, w, lines, Early)
    && a.late == CountPlace(toInt, w, lines, Late)
    && a.candidates == CountPlace(toInt, w, lines, InWindow) == |Candidates(toInt, w, lines)|
    && a.outliers == a.negative + a.early + a.late
    && a.rawRows == a.outliers + a.candidates
  }

  // One more line: what it adds to the candidates and to each count.
  lemma OneMoreLine(toInt: IntParser, w: Window, lines: seq<string>, line: string)
    requires Parses(toInt, lines) && ParseRow(toInt, line).Some?
    ensures Parses(toInt, lines + [line])
    ensures var row := ParseRow(toInt, line).value; var place := PlaceOf(w, row.ts);
            && Candidates(toInt, w, lines + [line])
               == Candidates(toInt, w, lines) + (if place == InWindow then [RecordOf(row)] else [])
            && forall p ::
                 CountPlace(toInt, w, lines + [line], p) == CountPlace(toInt, w, lines, p) + if place == p then 1 else 0
  {
    hide ParseRow, RecordOf;
    assert (lines + [line])[..|lines|] == lines;
  }

  lemma RecordIsLegit(row: Row)
    requires row.ts >= 0
    ensures Legit(RecordOf(row))
  {
  }

  lemma {:induction false} CandidatesLegit(toInt: IntParser, w: Window, lines: seq<string>)
    requires Parses(toInt, lines)
    ensures AllLegit(Candidates(toInt, w, lines))
  {
    hide ParseRow, RecordOf;
    if |lines| > 0 {
      CandidatesLegit(toInt, w, lines[..|lines| - 1]);
      var row := ParseRow(toInt, lines[|lines| - 1]).value;
      if PlaceOf(w, row.ts) == InWindow { RecordIsLegit(row); }
    }
  }

  lemma NothingRead(toInt: IntParser, w: Window, lines: seq<string>, runs: seq<seq<Record>>, chunk: seq<Record>,
                    acc: Accounting)
    requires |lines| == |runs| == |chunk| == 0
    requires acc.rawRows == acc.negative == acc.early == acc.late == acc.outliers == acc.candidates == 0
    ensures AllLegit(chunk) && Partitioned(toInt, w, lines, runs, chunk) && Tallied(toInt, w, lines, acc)
  {
  }

  // Sorting the chunk into a run of its own keeps everything read so far.
  lemma SpillKeeps(toInt: IntParser, w: Window, lines: seq<string>, runs: seq<seq<Record>>, chunk: seq<Record>)
    requires Parses(toInt, lines) && Partitioned(toInt, w, lines, runs, chunk) && AllLegit(chunk)
    ensures Partitioned(toInt, w, lines, runs + [Sorted(chunk)], [])
  {
    hide Sorted, Legit, Nondecreasing, ParseRow;
    SortedSorts(chunk);
    assert (runs + [Sorted(chunk)])[..|runs|] == runs;
  }

  // What reading one line of the given place adds to the ledger.
  function Count(acc: Accounting, p: Place): Accounting {
    match p
    case Negative => acc.(rawRows := acc.rawRows + 1, negative := acc.negative + 1, outliers := acc.outliers + 1)
    case Early => acc.(rawRows := acc.rawRows + 1, early := acc.early + 1, outliers := acc.outliers + 1)
    case Late => acc.(rawRows := acc.rawRows + 1, late := acc.late + 1, outliers := acc.outliers + 1)
    case InWindow => acc.(rawRows := acc.rawRows + 1, candidates := acc.candidates + 1)
  }

  lemma LineCounted(toInt: IntParser, w: Window, lines: seq<string>, line: string, acc: Accounting)
    requires Parses(toInt, lines) && ParseRow(toInt, line).Some? && Tallied(toInt, w, lines, acc)
    ensures Parses(toInt, lines + [line])
    ensures Tallied(toInt, w, lines + [line], Count(acc, PlaceOf(w, ParseRow(toInt, line).value.ts)))
  {
    hide ParseRow, PlaceOf, RecordOf, Candidates, CountPlace;
    OneMoreLine(toInt, w, lines, line);
  }

  lemma LineKept(toInt: IntParser, w: Window, lines: seq<string>, line: string, runs: seq<seq<Record>>,
                 chunk: seq<Record>)
    requires Parses(toInt, lines) && ParseRow(toInt, line).Some? && Partitioned(toInt, w, lines, runs, chunk)
             && AllLegit(chunk)
    ensures Parses(toInt, lines + [line])
    ensures var row := ParseRow(toInt, line).value;
            if PlaceOf(w, row.ts) == InWindow
            then row.ts >= 0 && AllLegit(chunk + [RecordOf(row)])
                && Partitioned(toInt, w, lines + [line], runs, chunk + [RecordOf(row)])
            else Partitioned(toInt, w, lines + [line], runs, chunk)
  {
    hide ParseRow, RecordOf, Candidates, CountPlace, Contents, Legit;
    OneMoreLine(toInt, w, lines, line);
    var row := ParseRow(toInt, line).value;
    if PlaceOf(w, row.ts) == InWindow { RecordIsLegit(row); }
  }

  method Partition(toInt: IntParser, w: Window, lines: seq<string>, chunkSize: int, maxRows: Option<int>)
    returns (files: Option<seq<RunFile>>, acc: Accounting, ghost runs: seq<seq<Record>>)
    ensures files.Some? <==> Parses(toInt, Taken(lines, maxRows))
    ensures files.Some? ==> Spilled(files.value, runs) && Partitioned(toInt, w, Taken(lines, maxRows), runs, [])
    ensures files.Some? ==> Tallied(toInt, w, Taken(lines, maxRows), acc)
    ensures files.Some? ==> acc.chunks == |runs| && ChunksFor(acc.candidates, ChunkLength(chunkSize), acc.chunks)
    ensures files.Some? ==> acc.duplicates == acc.emitted == 0
  {
    hide ParseRow, PlaceOf, RecordOf, Sorted, AllLegit, Partitioned, Tallied, Filled, WriteRun, Decimal, ReadsDecimals;
    acc := Accounting(0, 0, 0, 0, 0, 0, 0, 0, 0);
    var chunk: seq<Record>, spilled: seq<RunFile> := [], [];
    runs := [];
    var i := 0;
    ghost var size := ChunkLength(chunkSize);
    ghost var taken := [];
    OneMoreChunk(0, size);
    NothingRead(toInt, w, taken, runs, chunk, acc);
    while i < |lines| && !(maxRows.Some? && acc.rawRows >= maxRows.value)
      invariant 0 <= i == acc.rawRows <= |Taken(lines, maxRows)| && taken == lines[..i] && Parses(toInt, taken)
      invariant Spilled(spilled, runs) && Partitioned(toInt, w, taken, runs, chunk) && AllLegit(chunk)
      invariant Tallied(toInt, w, taken, acc) && acc.duplicates == acc.emitted == 0
      invariant acc.chunks == |runs| && |chunk| < size && acc.candidates == Filled(acc.chunks, size) + |chunk|
    {
      var row := ParseRow(toInt, lines[i]);
      if row.None? {
        assert Taken(lines, maxRows)[i] == lines[i];
        return None, acc, runs;
      }
      LineCounted(toInt, w, taken, lines[i], acc);
      LineKept(toInt, w, taken, lines[i], runs, chunk);
      taken := taken + [lines[i]];
      var place := PlaceOf(w, row.value.ts);
      acc := Count(acc, place);
      if place == InWindow {
        chunk := chunk + [RecordOf(row.value)];
        if |chunk| >= chunkSize {
          SpillKeeps(toInt, w, taken, runs, chunk);
          OneMoreChunk(acc.chunks, size);
          spilled := spilled + [WriteRun(Sorted(chunk))];
          runs := runs + [Sorted(chunk)];
          ChunkCounted(toInt, w, taken, acc);
          acc := acc.(chunks := acc.chunks + 1);
          chunk := [];
        }
      }
      i := i + 1;
    }
    assert taken == Taken(lines, maxRows);
    OneMoreChunk(acc.chunks, size);
    if acc.chunks > 0 { OneMoreChunk(acc.chunks - 1, size); }
    if |chunk| > 0 {
      SpillKeeps(toInt, w, taken, runs, chunk);
      spilled := spilled + [WriteRun(Sorted(chunk))];
      runs := runs + [Sorted(chunk)];
      ChunkCounted(toInt, w, taken, acc);
      acc := acc.(chunks := acc.chunks + 1);
    }
    files := Some(spilled);
  }

  lemma ChunkCounted(toInt: IntParser, w: Window, lines: seq<string>, acc: Accounting)
    requires Parses(toInt, lines) && Tallied(toInt, w, lines, acc)
    ensures Tallied(toInt, w, lines, acc.(chunks := acc.chunks + 1))
  {
    hide ParseRow, Candidates, CountPlace;
  }

  // ---- Phase 2: merge, drop duplicates, number, print ----

  // Reading a run file back yields the run that was written.
  method ReadRun(toInt: IntParser, file: RunFile, ghost written: seq<Record>) returns (run: seq<Record>)
    requires file == WriteRun(written)
    ensures run == written
  {
    hide ReadLine, SpillLine, ReadsDecimals, Decimal;
    run := [];
    var i := 0;
    while i < |file.lines|
      invariant 0 <= i <= |file.lines| == |written| && run == written[..i]
    {
      SpillReadsBack(toInt, written[i]);
      run := run + [ReadLine(toInt, file.lines[i]).value];
      i := i + 1;
    }
  }

  method ReadRuns(toInt: IntParser, files: seq<RunFile>, ghost written: seq<seq<Record>>)
      returns (runs: seq<seq<Record>>)
    requires Spilled(files, written)
    ensures runs == written
  {
    hide WriteRun;
    runs := [];
    var k := 0;
    while k < |files|
      invariant 0 <= k <= |files| && runs == written[..k]
    {
      var run := ReadRun(toInt, files[k], written[k]);
      runs := runs + [run];
      k := k + 1;
    }
  }

  // Printing one canonical row after another, skipping any row with the previous key.
  method Emit(merged: seq<Record>, acc0: Accounting) returns (text: string, acc: Accounting)
    requires Nondecreasing(merged) && AllLegit(merged) && acc0.duplicates == acc0.emitted == 0
    ensures text == PrintFile(Canonical(merged))
    ensures |Canonical(merged)| <= |merged|
    ensures acc == acc0.(emitted := |Canonical(merged)|, duplicates := |merged| - |Canonical(merged)|)
  {
    hide Before, Legit, PrintRow, PrintRows, Canonical, HEADER, SameKey;
    acc, text := acc0, HEADER + "\n";
    var seqno: nat, previous: Option<Record> := 0, None;
    ghost var kept: seq<Record> := [];
    NoRows(kept);
    var k := 0;
    while k < |merged|
      invariant 0 <= k <= |merged| && Increasing(kept)
      invariant forall x :: x in kept <==> x in merged[..k]
      invariant k == 0 ==> previous.None? && kept == []
      invariant k > 0 ==> previous == Some(merged[k - 1]) && |kept| > 0 && kept[|kept| - 1] == merged[k - 1]
      invariant text == HEADER + "\n" + PrintRows(0, kept) && seqno == |kept|
      invariant |kept| <= k && acc == acc0.(emitted := |kept|, duplicates := k - |kept|)
    {
      var record := merged[k];
      assert merged[..k + 1] == merged[..k] + [record];
      if previous.Some? && SameKey(record, previous.value) {
        KeyDetermines(record, previous.value);
        acc := acc.(duplicates := acc.duplicates + 1);
      } else {
        if k > 0 { NextIsLater(kept, merged, k); }
        text := text + PrintRow(seqno, record) + "\n";
        OneMoreRow(kept, record);
        kept := kept + [record];
        seqno := seqno + 1;
        acc := acc.(emitted := acc.emitted + 1);
      }
      previous := Some(record);
      k := k + 1;
    }
    assert merged[..k] == merged;
    CanonicalMeans(merged);
    IncreasingUnique(kept, Canonical(merged));
  }

  lemma NextIsLater(kept: seq<Record>, merged: seq<Record>, k: nat)
    requires 0 < k < |merged| && Nondecreasing(merged) && Increasing(kept) && |kept| > 0
    requires kept[|kept| - 1] == merged[k - 1] && !SameKey(merged[k], merged[k - 1])
    ensures Increasing(kept + [merged[k]])
  {
    hide Before;
    var last := merged[k - 1];
    BeforeTotal(merged[k], last);
    forall i | 0 <= i < |kept| ensures Before(kept[i], merged[k]) {
      if i < |kept| - 1 { BothBefore(kept[i], last, merged[k]); }
    }
  }

  lemma NoRows(kept: seq<Record>)
    requires |kept| == 0
    ensures PrintRows(0, kept) == ""
  {
  }

  lemma OneMoreRow(kept: seq<Record>, record: Record)
    ensures PrintRows(0, kept + [record]) == PrintRows(0, kept) + PrintRow(|kept|, record) + "\n"
  {
    hide PrintRow;
    assert (kept + [record])[..|kept|] == kept;
  }

  method Canonicalize(toInt: IntParser, w: Window, lines: seq<string>, chunkSize: int, maxRows: Option<int>)
    returns (r: Option<Output>)
    ensures r.Some? <==> Parses(toInt, Taken(lines, maxRows))
    ensures r.Some? ==> IsCanonicalization(toInt, w, Taken(lines, maxRows), r.value)
    ensures r.Some? ==> ChunksFor(r.value.accounting.candidates, ChunkLength(chunkSize), r.value.accounting.chunks)
  {
    hide PrintFile, ChunksFor, Canonical;
    var files, acc, runs := Partition(toInt, w, lines, chunkSize, maxRows);
    if files.None? { return None; }
    ghost var candidates := Candidates(toInt, w, Taken(lines, maxRows));
    CandidatesLegit(toInt, w, Taken(lines, maxRows));
    var read := ReadRuns(toInt, files.value, runs);
    var merged := Merge(read);
    SameMembers(merged, candidates);
    CanonicalInvariant(candidates, merged);
    var text, accounting := Emit(merged, acc);
    r := Some(Output(text, accounting));
  }

  // The output is the printed canonical list of the in-window records, with an exact ledger.
  ghost predicate IsCanonicalization(toInt: IntParser, w: Window, taken: seq<string>, out: Output)
    requires Parses(toInt, taken)
  {
    var a, canonical := out.accounting, Canonical(Candidates(toInt, w, taken));
    && out.text == PrintFile(canonical)
    && Tallied(toInt, w, taken, a)
    && a.emitted == |canonical| && a.rawRows == a.emitted + a.outliers + a.duplicates
  }

  // ---- Independence of chunking and of input order ----

  // What a line contributes, if it is in the window.
  ghost predicate Yields(toInt: IntParser, w: Window, line: string, r: Record) {
    var row := ParseRow(toInt, line);
    row.Some? && PlaceOf(w, row.value.ts) == InWindow && r == RecordOf(row.value)
  }

  lemma {:induction false} CandidatesAre(toInt: IntParser, w: Window, lines: seq<string>, r: Record)
    requires Parses(toInt, lines)
    ensures r in Candidates(toInt, w, lines) <==> exists line | line in lines :: Yields(toInt, w, line, r)
  {
    hide ParseRow, RecordOf, PlaceOf;
    if |lines| > 0 {
      var before, last := lines[..|lines| - 1], lines[|lines| - 1];
      CandidatesAre(toInt, w, before, r);
      assert lines == before + [last];
      assert r in Candidates(toInt, w, lines) <==> r in Candidates(toInt, w, before) || Yields(toInt, w, last, r);
    }
  }

  function Without(lines: seq<string>, i: nat): (r: seq<string>)
    requires i < |lines|
    ensures |r| == |lines| - 1
  {
    lines[..i] + lines[i + 1..]
  }

  lemma {:induction false} CountRemoved(toInt: IntParser, w: Window, lines: seq<string>, i: nat, p: Place)
    requires Parses(toInt, lines) && i < |lines|
    ensures Parses(toInt, Without(lines, i))
    ensures CountPlace(toInt, w, lines, p) == CountPlace(toInt, w, Without(lines, i), p)
                                              + if PlaceOf(w, ParseRow(toInt, lines[i]).value.ts) == p then 1 else 0
  {
    hide ParseRow, PlaceOf;
    var n, rest := |lines| - 1, Without(lines, i);
    if i < n {
      CountRemoved(toInt, w, lines[..n], i, p);
      assert rest[..n - 1] == Without(lines[..n], i);
    } else {
      assert rest == lines[..n];
    }
  }

  lemma {:induction false} CountPermuted(toInt: IntParser, w: Window, a: seq<string>, b: seq<string>, p: Place)
    requires Parses(toInt, a) && Parses(toInt, b) && multiset(a) == multiset(b)
    ensures CountPlace(toInt, w, a, p) == CountPlace(toInt, w, b, p)
    decreases |a|
  {
    hide ParseRow, PlaceOf, Parses;
    SameLength(a, b);
    if |a| > 0 {
      hide CountPlace, Without;
      var j := FindLine(b, a);
      CountRemoved(toInt, w, a, 0, p);
      CountRemoved(toInt, w, b, j, p);
      RemoveSame(a, 0);
      RemoveSame(b, j);
      CountPermuted(toInt, w, Without(a, 0), Without(b, j), p);
    }
  }

  lemma SameLength(a: seq<string>, b: seq<string>)
    requires multiset(a) == multiset(b)
    ensures |a| == |b|
  {
    assert |a| == |multiset(a)| == |multiset(b)| == |b|;
  }

  // The first line of a, somewhere in b.
  lemma FindLine(b: seq<string>, a: seq<string>) returns (j: nat)
    requires multiset(a) == multiset(b) && |a| > 0
    ensures j < |b| && b[j] == a[0]
  {
    assert a[0] in multiset(b);
    j :| 0 <= j < |b| && b[j] == a[0];
  }

  lemma RemoveSame(a: seq<string>, i: nat)
    requires i < |a|
    ensures multiset(Without(a, i)) == multiset(a) - multiset{a[i]}
  {
    assert a == a[..i] + [a[i]] + a[i + 1..];
  }

  // Two runs over the same lines in any order, with any chunk sizes, print the same file and, but for
  // the number of chunks, the same ledger.
  lemma OutputIsInvariant(toInt: IntParser, w: Window, a: seq<string>, b: seq<string>, left: Output, right: Output)
    requires multiset(a) == multiset(b) && Parses(toInt, a) && Parses(toInt, b)
    requires IsCanonicalization(toInt, w, a, left) && IsCanonicalization(toInt, w, b, right)
    ensures left.text == right.text
    ensures left.accounting.(chunks := 0) == right.accounting.(chunks := 0)
  {
    hide PrintFile, Canonical, ParseRow, CountPlace, Candidates;
    CandidatesLegit(toInt, w, a);
    forall r ensures r in Candidates(toInt, w, a) <==> r in Candidates(toInt, w, b) {
      CandidatesAre(toInt, w, a, r);
      CandidatesAre(toInt, w, b, r);
      assert forall line :: line in a <==> line in multiset(a);
      assert forall line :: line in b <==> line in multiset(b);
    }
    CanonicalInvariant(Candidates(toInt, w, a), Candidates(toInt, w, b));
    CountPermuted(toInt, w, a, b, Negative);
    CountPermuted(toInt, w, a, b, Early);
    CountPermuted(toInt, w, a, b, Late);
    CountPermuted(toInt, w, a, b, InWindow);
    assert |a| == |multiset(a)| == |multiset(b)| == |b|;
  }
}
