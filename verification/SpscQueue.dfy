// The ring buffer as an object, one call at a time: a bounded first-in first-out queue of slots - 1 items.
module SpscQueue {
  import opened Bits
  import opened Options

  // Position n slots or fewer past the start, wrapped once.
  function Wrap(n: nat, slots: nat): int { if n < slots then n else n - slots }

  class SPSCQueue<T(0)> {
    const slots: nat
    const buffer: array<T>
    var write: nat
    var read: nat
    var closed: bool
    ghost var contents: seq<T>

    ghost predicate Valid()
      reads this, buffer
    {
      && IsPowerOfTwo(slots) && 2 <= slots <= WORD && buffer.Length == slots
      && read < slots && |contents| < slots && write == Wrap(read + |contents|, slots)
      && forall i | 0 <= i < |contents| :: buffer[Wrap(read + i, slots)] == contents[i]
    }

    constructor (slots: nat)
      requires IsPowerOfTwo(slots) && 2 <= slots <= WORD
      ensures Valid() && fresh(buffer) && this.slots == slots && contents == [] && !closed
    {
      this.slots := slots;
      buffer := new T[slots];
      write, read, closed := 0, 0, false;
      contents := [];
    }

    // None stands for the exception on a slot count that is not a representable power of two.
    static method Make(n: nat, limit: nat) returns (r: Option<SPSCQueue<T>>)
      requires limit <= WORD
      ensures r.Some? <==> 2 <= n <= limit && IsPowerOfTwo(n)
      ensures r.Some? ==>
        fresh(r.value) && fresh(r.value.buffer) && r.value.Valid() && r.value.slots == n && r.value.contents == []
    {
      if n < 2 { return None; }
      PowerOfTwoTest(n);
      if And(n, n - 1) != 0 || n > limit { return None; }
      var q := new SPSCQueue<T>(n);
      r := Some(q);
    }

    method TryPush(v: T) returns (ok: bool)
      requires Valid()
      modifies this, buffer
      ensures Valid() && closed == old(closed)
      ensures ok <==> !old(closed) && |old(contents)| < slots - 1
      ensures contents == if ok then old(contents) + [v] else old(contents)
    {
      if closed { return false; }
      MaskSuccessor(write, slots);
      var next := And(write + 1, slots - 1);
      if next == read { return false; }
      buffer[write] := v;
      write := next;
      contents := contents + [v];
      ok := true;
    }

    method TryPop() returns (r: Option<T>)
      requires Valid()
      modifies this
      ensures Valid() && closed == old(closed)
      ensures r.None? <==> old(contents) == []
      ensures r.Some? ==> [r.value] + contents == old(contents)
      ensures r.None? ==> contents == old(contents)
    {
      if read == write { return None; }
      MaskSuccessor(read, slots);
      r := Some(buffer[read]);
      read := And(read + 1, slots - 1);
      contents := contents[1..];
    }

    method Close()
      requires Valid()
      modifies this`closed
      ensures Valid() && closed && contents == old(contents)
    {
      closed := true;
    }

    method ClosedAndEmpty() returns (r: bool)
      requires Valid()
      ensures r <==> closed && contents == []
    {
      r := closed && read == write;
    }

    // The exact share of usable slots in use.
    method Occupancy() returns (share: real)
      requires Valid()
      ensures share == |contents| as real / (slots - 1) as real && 0.0 <= share <= 1.0
    {
      MaskedDifference(write, read, slots);
      var used := And((write - read) % WORD, slots - 1);
      ShareBounds(used, slots - 1);
      share := used as real / (slots - 1) as real;
    }
  }

  lemma ShareBounds(n: nat, d: nat)
    requires n <= d && d > 0
    ensures 0.0 <= n as real / d as real <= 1.0
  {
  }
}
