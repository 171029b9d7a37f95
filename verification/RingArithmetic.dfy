/** Power-of-two ring indexing on 64-bit unsigned words. */
module RingArithmetic {

  const WORD: nat := 0x1_0000_0000_0000_0000
  const HALF_WORD: nat := 0x8000_0000_0000_0000

  function Pow2(k: nat): (r: nat)
    ensures 1 <= r
  {
    if k == 0 then 1 else 2 * Pow2(k - 1)
  }

  ghost predicate IsPow2(n: nat)
  {
    exists k: nat :: n == Pow2(k)
  }

  lemma {:induction false} Pow2Grows(j: nat, k: nat)
    requires j < k
    ensures 2 * Pow2(j) <= Pow2(k)
  {
    if j < k - 1 {
      Pow2Grows(j, k - 1);
    }
  }

  lemma Pow2OfWord()
    ensures Pow2(63) == HALF_WORD && Pow2(64) == WORD
  {
    assert Pow2(1) == 2 && Pow2(2) == 4;
    Pow2Square(2, 4);
    Pow2Square(4, 16);
    Pow2Square(8, 256);
    Pow2Square(16, 0x1_0000);
    Pow2Square(32, 0x1_0000_0000);
  }

  lemma Pow2Square(k: nat, v: nat)
    requires Pow2(k) == v
    ensures Pow2(k + k) == v * v
  {
    Pow2Product(k, k);
  }

  // ---------------------------------------------------------------------
  // Masks
  // ---------------------------------------------------------------------

  /** Bitwise "and" of two unsigned numbers. */
  function BitAnd(a: nat, b: nat): (r: nat)
    ensures r <= a && r <= b
  {
    if a == 0 || b == 0 then 0 else (a % 2) * (b % 2) + 2 * BitAnd(a / 2, b / 2)
  }

  /** Masking with 2^k - 1 is the remainder modulo 2^k. */
  lemma {:induction false} MaskIsRemainder(x: nat, k: nat)
    ensures BitAnd(x, Pow2(k) - 1) == x % Pow2(k)
  {
    if k == 0 {
    } else if x == 0 {
      SmallRemainder(x, Pow2(k));
    } else {
      var half := Pow2(k - 1);
      MaskIsRemainder(x / 2, k - 1);
      HalvesOfMask(half);
      RemainderOfHalf(x, half);
      assert BitAnd(x, 2 * half - 1) == x % 2 + 2 * BitAnd(x / 2, half - 1);
    }
  }

  lemma HalvesOfMask(half: nat)
    requires 0 < half
    ensures (2 * half - 1) / 2 == half - 1 && (2 * half - 1) % 2 == 1
  {
  }

  lemma SmallRemainder(x: nat, n: nat)
    requires x < n
    ensures x % n == x
  {
  }

  lemma {:induction false} MultipleAtLeast(d: nat, n: nat)
    requires 1 <= d
    ensures n <= d * n
  {
    if d > 1 {
      MultipleAtLeast(d - 1, n);
      assert d * n == (d - 1) * n + n;
    }
  }

  lemma DivisionUnique(n: nat, q: nat, r: nat, d: nat, r': nat)
    requires r < n && r' < n && q * n + r == (q + d) * n + r'
    ensures r == r'
  {
    assert (q + d) * n == q * n + d * n;
    if d >= 1 {
      MultipleAtLeast(d, n);
    }
  }

  lemma RemainderUnique(x: nat, n: nat, q: nat, r: nat)
    requires r < n && x == q * n + r
    ensures x % n == r
  {
    var q', r' := x / n, x % n;
    assert x == q' * n + r';
    if q <= q' {
      DivisionUnique(n, q, r, q' - q, r');
    } else {
      DivisionUnique(n, q', r', q - q', r);
    }
  }

  lemma RemainderOfHalf(x: nat, half: nat)
    requires 0 < half
    ensures x % (2 * half) == x % 2 + 2 * ((x / 2) % half)
  {
    var h := x / 2;
    var q, r := h / half, h % half;
    assert h == q * half + r;
    assert x == q * (2 * half) + (x % 2 + 2 * r);
    RemainderUnique(x, 2 * half, q, x % 2 + 2 * r);
  }

  /** `&` with the mask folds any index below twice the capacity back into the ring. */
  lemma MaskFolds(x: nat, capacity: nat)
    requires IsPow2(capacity) && x < 2 * capacity
    ensures BitAnd(x, capacity - 1) == if x < capacity then x else x - capacity
  {
    var k: nat :| capacity == Pow2(k);
    MaskIsRemainder(x, k);
    if x < capacity {
      RemainderUnique(x, capacity, 0, x);
    } else {
      RemainderUnique(x, capacity, 1, x - capacity);
    }
  }

  /** Subtraction of two words; it wraps below zero. */
  function SubWord(a: nat, b: nat): (r: nat)
    requires a < WORD && b < WORD
    ensures r < WORD
  {
    if a >= b then a - b else a + WORD - b
  }

  /** The masked difference of two ring indices is their distance around the ring, also when the
      64-bit subtraction wrapped. */
  lemma MaskedDifference(head: nat, tail: nat, capacity: nat)
    requires IsPow2(capacity) && capacity <= HALF_WORD && head < capacity && tail < capacity
    ensures BitAnd(SubWord(head, tail), capacity - 1) == if head >= tail then head - tail else head + capacity - tail
  {
    hide BitAnd, Pow2;
    var k: nat :| capacity == Pow2(k);
    SmallExponent(k);
    MaskIsRemainder(SubWord(head, tail), k);
    if head >= tail {
      RemainderUnique(head - tail, capacity, 0, head - tail);
    } else {
      WordIsMultiple(k);
      WrappedRemainder(head + capacity - tail, capacity, Pow2(64 - k));
    }
  }

  lemma WrappedRemainder(r: nat, capacity: nat, turns: nat)
    requires 1 <= turns && turns * capacity == WORD && r < capacity
    ensures (r + WORD - capacity) % capacity == r
  {
    assert (turns - 1) * capacity == turns * capacity - capacity;
    RemainderUnique(r + WORD - capacity, capacity, turns - 1, r);
  }

  lemma SmallExponent(k: nat)
    requires Pow2(k) <= HALF_WORD
    ensures k <= 63
  {
    Pow2OfWord();
    if k > 63 {
      Pow2Grows(63, k);
    }
  }

  lemma WordIsMultiple(k: nat)
    requires k <= 63
    ensures Pow2(64 - k) * Pow2(k) == WORD
  {
    Pow2OfWord();
    Pow2Product(64 - k, k);
  }

  lemma {:induction false} Pow2Product(j: nat, k: nat)
    ensures Pow2(j) * Pow2(k) == Pow2(j + k)
  {
    if k > 0 {
      Pow2Product(j, k - 1);
      assert Pow2(j) * (2 * Pow2(k - 1)) == 2 * (Pow2(j) * Pow2(k - 1));
    }
  }

  // ---------------------------------------------------------------------
  // The least power of two
  // ---------------------------------------------------------------------

  /** `<<= 1` on a word. */
  function ShiftLeft(x: nat): nat
    requires x < WORD
  {
    if 2 * x < WORD then 2 * x else 2 * x - WORD
  }

  /** The least power of two that is at least `value`. Beyond 2^63 the loop cannot end: see
      `DoublingLoopEnds`. */
  method NextPowerOfTwo(value: nat) returns (result: nat)
    requires value <= HALF_WORD
    ensures IsPow2(result) && value <= result <= HALF_WORD
    ensures forall k: nat :: value <= Pow2(k) ==> result <= Pow2(k)
  {
    result := 1;
    ghost var n := 0;
    Pow2OfWord();
    while result < value
      invariant n <= 63 && result == Pow2(n) && result <= HALF_WORD
      invariant forall k: nat :: k < n ==> Pow2(k) < value
      decreases HALF_WORD - result
    {
      if n >= 63 {
        assert false;
      }
      Pow2Grows(n, 63);
      result := ShiftLeft(result);
      n := n + 1;
    }
    forall k: nat | value <= Pow2(k)
      ensures result <= Pow2(k)
    {
      if n < k {
        Pow2Grows(n, k);
      }
    }
  }

  /** The loop variable after `n` doublings. */
  function Doubled(n: nat): (r: nat)
    ensures r < WORD
  {
    if n == 0 then 1 else ShiftLeft(Doubled(n - 1))
  }

  lemma {:induction false} DoubledIs(n: nat)
    ensures Doubled(n) == if n <= 63 then Pow2(n) else 0
  {
    Pow2OfWord();
    if n > 0 {
      DoubledIs(n - 1);
      if n - 1 < 63 {
        Pow2Grows(n - 1, 63);
      }
    }
  }

  /** The doubling loop reaches its bound exactly for arguments up to 2^63; past that the word
      overflows to zero and stays there. */
  lemma DoublingLoopEnds(value: nat)
    requires value < WORD
    ensures (exists n: nat :: value <= Doubled(n)) <==> value <= HALF_WORD
  {
    Pow2OfWord();
    DoubledIs(63);
    forall n: nat | value <= Doubled(n)
      ensures value <= HALF_WORD
    {
      DoubledIs(n);
      if n < 63 {
        Pow2Grows(n, 63);
      }
    }
  }

  lemma QuotientUnique(n: nat, d: nat, q: nat, r: nat)
    requires r < d && n == q * d + r
    ensures n / d == q && n % d == r
  {
    RemainderUnique(n, d, q, r);
    assert n == (n / d) * d + r;
    assert (n / d) * d == q * d;
  }

}
