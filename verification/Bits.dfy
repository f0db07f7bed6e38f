// Bit masks over unbounded naturals: the queue's index arithmetic is written with `&`,
// so the model keeps `&` and proves what it means for power-of-two sizes.
module Bits {

  const WORD := 0x1_0000_0000_0000_0000

  function Power(n: nat): nat { if n == 0 then 1 else 2 * Power(n - 1) }

  // Words have sixty-four bits.
  lemma WordWidth()
    ensures WORD == Power(64)
  {
    PowerByte(0);
    PowerByte(8);
    PowerByte(16);
    PowerByte(24);
    PowerByte(32);
    PowerByte(40);
    PowerByte(48);
    PowerByte(56);
  }

  lemma PowerByte(n: nat)
    ensures Power(n + 8) == 256 * Power(n)
  {
    assert Power(n + 2) == 2 * Power(n + 1) == 4 * Power(n);
    assert Power(n + 4) == 2 * Power(n + 3) == 4 * Power(n + 2);
    assert Power(n + 6) == 2 * Power(n + 5) == 4 * Power(n + 4);
    assert Power(n + 8) == 2 * Power(n + 7) == 4 * Power(n + 6);
  }

  // Bitwise conjunction of two unsigned integers.
  function And(a: nat, b: nat): nat
    decreases a
  {
    if a == 0 || b == 0 then 0
    else (if a % 2 == 1 && b % 2 == 1 then 1 else 0) + 2 * And(a / 2, b / 2)
  }

  predicate IsPowerOfTwo(n: nat) {
    n == 1 || (n > 1 && n % 2 == 0 && IsPowerOfTwo(n / 2))
  }

  // `n & (n - 1)` is zero exactly for the powers of two.
  lemma {:induction false} PowerOfTwoTest(n: nat)
    requires n > 0
    ensures And(n, n - 1) == 0 <==> IsPowerOfTwo(n)
  {
    if n > 1 {
      PowerOfTwoTest(n / 2);
      if n % 2 == 0 {
        assert (n - 1) / 2 == n / 2 - 1;
      } else {
        AndSelf(n / 2);
        assert (n - 1) / 2 == n / 2;
      }
    }
  }

  lemma {:induction false} AndSelf(n: nat)
    ensures And(n, n) == n
  {
    if n > 0 {
      AndSelf(n / 2);
    }
  }

  // Masking with `n - 1` is reduction modulo n when n is a power of two.
  lemma {:induction false} MaskIsModulo(x: nat, n: nat)
    requires IsPowerOfTwo(n)
    ensures And(x, n - 1) == x % n
    decreases n
  {
    if n > 1 {
      var h := n / 2;
      MaskIsModulo(x / 2, h);
      assert (n - 1) / 2 == h - 1 && (n - 1) % 2 == 1;
      HalveModulo(x, h);
      if x == 0 { } else if h - 1 == 0 { } else { }
    }
  }

  lemma HalveModulo(x: nat, h: nat)
    requires h > 0
    ensures x % (2 * h) == x % 2 + 2 * ((x / 2) % h)
  {
    var y := x / 2;
    var q, r := y / h, y % h;
    assert x == 2 * y + x % 2 && y == q * h + r;
    assert x == q * (2 * h) + (x % 2 + 2 * r);
    ModuloUnique(x, 2 * h, q, x % 2 + 2 * r);
  }

  lemma AtLeastOneFactor(k: int, n: nat)
    requires k >= 1
    ensures k * n >= n
  {
    assert k * n == n + (k - 1) * n;
  }

  lemma ModuloUnique(x: nat, n: nat, q: int, r: nat)
    requires n > 0 && r < n && x == q * n + r
    ensures x % n == r
  {
    QuotientUnique(n, x / n, x % n, q, r);
  }

  lemma QuotientUnique(n: nat, q: int, r: nat, q': int, r': nat)
    requires r < n && r' < n && q * n + r == q' * n + r'
    ensures r == r'
  {
    if q > q' {
      assert (q - q') * n == q * n - q' * n;
      AtLeastOneFactor(q - q', n);
    } else if q < q' {
      assert (q' - q) * n == q' * n - q * n;
      AtLeastOneFactor(q' - q, n);
    }
  }

  // An index one past the last slot wraps to zero.
  lemma MaskSuccessor(x: nat, n: nat)
    requires IsPowerOfTwo(n) && x < n
    ensures And(x + 1, n - 1) == if x + 1 == n then 0 else x + 1
  {
    MaskIsModulo(x + 1, n);
    ModuloUnique(x + 1, n, if x + 1 == n then 1 else 0, if x + 1 == n then 0 else x + 1);
  }

  lemma {:induction false} PowerDividesWord(n: nat, bound: nat)
    requires IsPowerOfTwo(n) && IsPowerOfTwo(bound) && n <= bound
    ensures bound % n == 0
    decreases n
  {
    if n > 1 {
      PowerDividesWord(n / 2, bound / 2);
      HalveModulo(bound, n / 2);
    }
  }

  lemma {:induction false} PowersMultiply(a: nat, b: nat)
    requires IsPowerOfTwo(a) && IsPowerOfTwo(b)
    ensures IsPowerOfTwo(a * b)
    decreases a
  {
    if a > 1 {
      PowersMultiply(a / 2, b);
      Doubled(a, a / 2, b);
    }
  }

  lemma Doubled(a: nat, h: nat, b: nat)
    requires a == 2 * h && h > 0 && b > 0
    ensures (a * b) % 2 == 0 && (a * b) / 2 == h * b && a * b > 1
  {
    assert a * b == 2 * (h * b);
  }

  lemma WordIsPowerOfTwo()
    ensures IsPowerOfTwo(WORD)
  {
    assert IsPowerOfTwo(0x100);
    PowersMultiply(0x100, 0x100);
    PowersMultiply(0x1_0000, 0x1_0000);
    PowersMultiply(0x1_0000_0000, 0x1_0000_0000);
  }

  // The unsigned difference of two indices wraps modulo the word size, and the mask undoes it.
  lemma MaskedDifference(write: nat, read: nat, n: nat)
    requires IsPowerOfTwo(n) && n <= WORD && write < n && read < n
    ensures And((write - read) % WORD, n - 1) == if read <= write then write - read else write - read + n
  {
    hide And, IsPowerOfTwo;
    var d: nat := if read <= write then write - read else WORD + write - read;
    WrapsOnce(write, read);
    MaskIsModulo(d, n);
    if read <= write {
      ModuloUnique(d, n, 0, write - read);
    } else {
      WordIsPowerOfTwo();
      PowerDividesWord(n, WORD);
      DividesExactly(WORD, n);
      WrapModulo(n, WORD / n, write + n - read);
    }
  }

  lemma WrapsOnce(write: nat, read: nat)
    requires write < WORD && read < WORD
    ensures (write - read) % WORD == if read <= write then write - read else WORD + write - read
  {
  }

  lemma DividesExactly(x: nat, n: nat)
    requires n > 0 && x % n == 0
    ensures (x / n) * n == x
  {
  }

  lemma WrapModulo(n: nat, k: nat, r: nat)
    requires 0 < r < n && k * n == WORD
    ensures (WORD + r - n) % n == r
  {
    assert (k - 1) * n == k * n - n;
    ModuloUnique(WORD + r - n, n, k - 1, r);
  }
}
