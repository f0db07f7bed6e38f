// The replay reader: header, lines, cells, unsigned integers, ordering checks.
module Replay {
  import opened Bits
  import opened Options
  import opened Text
  import opened Features

  // ---- Lines and cells ----

  // std::getline on the unread part of a stream: the line and what follows it.
  function GetLine(input: string): (r: Option<(string, string)>)
    ensures r.Some? ==> |r.value.1| < |input|
  {
    if |input| == 0 then None
    else
      var i := FirstAt(input, '\n', 0);
      Some((input[..i], if i < |input| then input[i + 1..] else ""))
  }

  function StripCr(line: string): string {
    if |line| > 0 && line[|line| - 1] == '\r' then line[..|line| - 1] else line
  }

  method CsvCells(line: string) returns (cells: seq<string>)
    ensures cells == Split(line, ',')
  {
    hide Split;
    cells := [];
    var start := 0;
    assert line[0..] == line;
    while true
      invariant 0 <= start <= |line|
      invariant cells + Split(line[start..], ',') == Split(line, ',')
      decreases |line| - start
    {
      var comma := FirstAt(line, ',', start);
      CellAt(line, start, comma);
      cells := cells + [line[start..comma]];
      if comma == |line| { return; }
      assert cells + Split(line[comma + 1..], ',') == Split(line, ',');
      start := comma + 1;
    }
  }

  lemma CellAt(line: string, start: nat, comma: nat)
    requires start <= comma <= |line| && ',' !in line[start..comma] && (comma < |line| ==> line[comma] == ',')
    ensures Split(line[start..], ',')
         == [line[start..comma]] + if comma < |line| then Split(line[comma + 1..], ',') else []
  {
    if comma < |line| {
      assert line[start..] == line[start..comma] + [','] + line[comma + 1..];
      SplitFirst(line[start..comma], ',', line[comma + 1..]);
    } else {
      assert line[start..] == line[start..comma];
      SplitOne(line[start..comma], ',');
    }
  }

  // None stands for a thrown exception: not all digits, or beyond 64 bits.
  function UnsignedInteger(value: string): Option<Word> {
    if |value| == 0 || !AllDigits(value) || Value(value) >= WORD then None else Some(Value(value))
  }

  // Leading zeros are read, and nothing but digits is.
  lemma LeadingZero(value: string)
    ensures |value| > 0 ==> UnsignedInteger("0" + value) == UnsignedInteger(value)
    ensures (exists k | 0 <= k < |value| :: !IsDigit(value[k])) ==> UnsignedInteger(value).None?
    ensures UnsignedInteger("").None?
  {
    if |value| > 0 {
      var padded := "0" + value;
      assert forall k | 0 <= k < |value| :: padded[k + 1] == value[k];
      if AllDigits(padded) {
        forall k | 0 <= k < |value| ensures IsDigit(value[k]) { assert IsDigit(padded[k + 1]); }
      }
      if AllDigits(value) { ZeroAdds(value); }
    }
  }

  lemma {:induction false} ZeroAdds(value: string)
    requires AllDigits(value)
    ensures AllDigits("0" + value) && Value("0" + value) == Value(value)
  {
    var padded := "0" + value;
    assert forall k | 0 <= k < |padded| :: IsDigit(padded[k]);
    if |value| > 0 {
      ZeroAdds(value[..|value| - 1]);
      assert padded[..|padded| - 1] == "0" + value[..|value| - 1];
    } else {
      assert padded[..0] == "";
    }
  }

  // ---- Events ----

  function EventOf(cells: seq<string>): Option<RawEvent> {
    if |cells| != 6 then None
    else
      var n := seq(6, i requires 0 <= i < 6 => UnsignedInteger(cells[i]));
      if n[5].None? || n[5].value > 3 then None
      else if n[0].None? || n[1].None? || n[2].None? || n[3].None? || n[4].None? then None
      else Some(RawEvent(n[0].value, n[1].value, n[2].value, n[3].value, n[4].value, n[5].value))
  }

  datatype Reader = Reader(input: string, previousSeq: Word, previousTs: Word, row: nat, seen: bool)

  datatype Next = Failed | End | Yielded(event: RawEvent)

  // One call of next().
  function NextOf(s: Reader): (Next, Reader) {
    var line := GetLine(s.input);
    if line.None? then (End, s)
    else
      var advanced := s.(input := line.value.1, row := s.row + 1);
      var event := EventOf(Split(StripCr(line.value.0), ','));
      if event.None? then (Failed, advanced)
      else if s.seen && (event.value.seqno <= s.previousSeq || event.value.ts < s.previousTs) then (Failed, advanced)
      else (Yielded(event.value),
            advanced.(previousSeq := event.value.seqno, previousTs := event.value.ts, seen := true))
  }

  // None stands for the exceptions of the constructor.
  function Opened(stream: string): Option<Reader> {
    var header := GetLine(stream);
    if header.None? || StripCr(header.value.0) != HEADER then None
    else Some(Reader(header.value.1, 0, 0, 1, false))
  }

  class ReplayReader {
    var input: string
    var previousSeq: Word
    var previousTs: Word
    var row: nat
    var seen: bool

    constructor (rest: string)
      ensures State() == Reader(rest, 0, 0, 1, false)
    {
      input, previousSeq, previousTs, row, seen := rest, 0, 0, 1, false;
    }

    function State(): Reader reads this { Reader(input, previousSeq, previousTs, row, seen) }

    static method Open(stream: string) returns (r: Option<ReplayReader>)
      ensures r.Some? <==> Opened(stream).Some?
      ensures r.Some? ==> fresh(r.value) && r.value.State() == Opened(stream).value
    {
      var header := GetLine(stream);
      if header.None? { return None; }
      if StripCr(header.value.0) != HEADER { return None; }
      var reader := new ReplayReader(header.value.1);
      r := Some(reader);
    }

    method ReadNext() returns (r: Next)
      modifies this
      ensures (r, State()) == NextOf(old(State()))
    {
      hide EventOf, GetLine, Split;
      var line := GetLine(input);
      if line.None? { return End; }
      input, row := line.value.1, row + 1;
      var cells := CsvCells(StripCr(line.value.0));
      var event := EventOf(cells);
      if event.None? { return Failed; }
      if seen && (event.value.seqno <= previousSeq || event.value.ts < previousTs) { return Failed; }
      previousSeq, previousTs, seen := event.value.seqno, event.value.ts, true;
      r := Yielded(event.value);
    }
  }

  // ---- Reading to the end ----

  // The events successive calls yield; None when one of them throws.
  function Remaining(s: Reader): Option<seq<RawEvent>>
    decreases |s.input|
  {
    var (next, s') := NextOf(s);
    match next
    case Failed => None
    case End => Some([])
    case Yielded(event) =>
      if |s'.input| >= |s.input| then None
      else
        var rest := Remaining(s');
        if rest.None? then None else Some([event] + rest.value)
  }

  function Replayed(stream: string): Option<seq<RawEvent>> {
    var reader := Opened(stream);
    if reader.None? then None else Remaining(reader.value)
  }

  // ---- What an accepted stream guarantees ----

  predicate OrderedEvents(events: seq<RawEvent>) {
    && (forall i | 0 < i < |events| :: events[i - 1].seqno < events[i].seqno && events[i - 1].ts <= events[i].ts)
    && forall i | 0 <= i < |events| :: events[i].behavior <= 3
  }

  lemma {:induction false} RemainingOrdered(s: Reader)
    requires Remaining(s).Some?
    ensures var events := Remaining(s).value;
            && OrderedEvents(events)
            && (s.seen && |events| > 0 ==> s.previousSeq < events[0].seqno && s.previousTs <= events[0].ts)
    decreases |s.input|
  {
    hide GetLine, EventOf, Split;
    var (next, s') := NextOf(s);
    if next.Yielded? {
      BehaviorKnown(Split(StripCr(GetLine(s.input).value.0), ','));
      RemainingOrdered(s');
    }
  }

  lemma BehaviorKnown(cells: seq<string>)
    ensures EventOf(cells).Some? ==> EventOf(cells).value.behavior <= 3
  {
    hide UnsignedInteger;
  }

  // Every stream read without an exception has strictly increasing identifiers, non-decreasing times
  // and known behaviors.
  lemma AcceptedIsOrdered(stream: string)
    ensures Replayed(stream).Some? ==> OrderedEvents(Replayed(stream).value)
  {
    if Replayed(stream).Some? {
      RemainingOrdered(Opened(stream).value);
    }
  }
}
