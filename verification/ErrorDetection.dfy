/** What each checksum detects, for byte strings of any length. A "covered string" is the part
    of a frame from the ID byte to the checksum byte; it `Verifies` when the two agree. */
module ErrorDetection {
  import opened Checksums

  // ---------------------------------------------------------------------
  // Every change confined to one byte
  // ---------------------------------------------------------------------

  lemma XorInjective(a: byte, b: byte, c: byte)
    requires Xor(a, b) == Xor(a, c)
    ensures b == c
  {
    SameBits(ToBits(a) ^ ToBits(b), ToBits(a) ^ ToBits(c));
    assert ToBits(b) == ToBits(c);
    BitsRoundTrip(b);
    BitsRoundTrip(c);
  }

  /** The CRC lookup is a permutation of the bytes. */
  lemma LookupInjective(a: byte, b: byte)
    requires FromBits(CrcEntry(ToBits(a))) == FromBits(CrcEntry(ToBits(b)))
    ensures a == b
  {
    SameBits(CrcEntry(ToBits(a)), CrcEntry(ToBits(b)));
    BitsRoundTrip(a);
    BitsRoundTrip(b);
  }

  /** Every algorithm but "none" keeps both of its inputs apart. */
  lemma UpdateInjective(algo: Algo, c: byte, d: byte, a: byte, b: byte)
    requires algo != NoChecksum
    requires Update(algo, c, a) == Update(algo, d, b)
    ensures c == d ==> a == b
    ensures a == b ==> c == d
  {
    match algo
    case Sum8 =>
    case Xor8 =>
      XorStep(c, d, a, b);
    case Crc8 =>
      LookupInjective(Xor(c, a), Xor(d, b));
      XorStep(c, d, a, b);
  }

  lemma XorStep(c: byte, d: byte, a: byte, b: byte)
    requires Xor(c, a) == Xor(d, b)
    ensures c == d ==> a == b
    ensures a == b ==> c == d
  {
    if c == d {
      XorInjective(c, a, b);
    }
    if a == b {
      XorInjective(a, c, d);
    }
  }

  ghost predicate DifferOnlyAt(u: seq<byte>, v: seq<byte>, k: nat)
  {
    |u| == |v| && k < |u| && u[k] != v[k] && forall i | 0 <= i < |u| && i != k :: u[i] == v[i]
  }

  lemma {:induction false} OneByteChangesChecksum(algo: Algo, u: seq<byte>, v: seq<byte>, k: nat)
    requires algo != NoChecksum && DifferOnlyAt(u, v, k)
    ensures Checksum(algo, u) != Checksum(algo, v)
  {
    var n := |u| - 1;
    if Checksum(algo, u) == Checksum(algo, v) {
      assert k == n ==> u[..n] == v[..n];
      UpdateInjective(algo, Checksum(algo, u[..n]), Checksum(algo, v[..n]), u[n], v[n]);
      if k != n {
        OneByteChangesChecksum(algo, u[..n], v[..n], k);
      }
    }
  }

  /** A valid covered string stops verifying when any one of its bytes, the checksum included,
      is replaced by another. */
  lemma OneByteChangeIsDetected(algo: Algo, u: seq<byte>, v: seq<byte>, k: nat)
    requires algo != NoChecksum && Verifies(algo, u) && DifferOnlyAt(u, v, k)
    ensures !Verifies(algo, v)
  {
    var n := |u| - 1;
    if k == n {
      assert u[..n] == v[..n];
    } else {
      OneByteChangesChecksum(algo, u[..n], v[..n], k);
    }
  }

  // ---------------------------------------------------------------------
  // XOR8 and CRC8 are linear: exactly which error patterns go unseen
  // ---------------------------------------------------------------------

  predicate Linear(algo: Algo) { algo == Xor8 || algo == Crc8 }

  function XorSeq(u: seq<byte>, e: seq<byte>): (r: seq<byte>)
    requires |u| == |e|
    ensures |r| == |u|
  {
    seq(|u|, i requires 0 <= i < |u| => Xor(u[i], e[i]))
  }

  lemma XorBits(a: byte, b: byte)
    ensures ToBits(Xor(a, b)) == ToBits(a) ^ ToBits(b)
  {
    BitsOfByte(ToBits(a) ^ ToBits(b));
  }

  lemma XorInterchange(a: byte, b: byte, c: byte, d: byte)
    ensures Xor(Xor(a, b), Xor(c, d)) == Xor(Xor(a, c), Xor(b, d))
  {
    XorBits(a, b);
    XorBits(c, d);
    XorBits(a, c);
    XorBits(b, d);
  }

  /** What a step adds to the shifted byte. */
  function Feedback(x: bv8): bv8
  {
    if x & 0x80 != 0 then 0x31 else 0
  }

  lemma PolyStepIs(x: bv8)
    ensures PolyStep(x) == (x << 1) ^ Feedback(x)
  {
  }

  lemma FeedbackXor(x: bv8, y: bv8)
    ensures Feedback(x ^ y) == Feedback(x) ^ Feedback(y)
  {
  }

  lemma PolyStepXor(x: bv8, y: bv8, z: bv8)
    requires z == x ^ y
    ensures PolyStep(z) == PolyStep(x) ^ PolyStep(y)
  {
    hide *;
    PolyStepIs(x);
    PolyStepIs(y);
    PolyStepIs(z);
    FeedbackXor(x, y);
  }

  lemma {:induction false} PolyStepsXor(x: bv8, y: bv8, z: bv8, n: nat)
    requires z == x ^ y
    ensures PolySteps(z, n) == PolySteps(x, n) ^ PolySteps(y, n)
  {
    hide PolyStep;
    if n > 0 {
      PolyStepsXor(x, y, z, n - 1);
      PolyStepXor(PolySteps(x, n - 1), PolySteps(y, n - 1), PolySteps(z, n - 1));
    }
  }

  lemma CrcEntryXor(x: bv8, y: bv8)
    ensures CrcEntry(x ^ y) == CrcEntry(x) ^ CrcEntry(y)
  {
    hide *;
    PolyStepsXor(x, y, x ^ y, 8);
    EightSteps(x);
    EightSteps(y);
    EightSteps(x ^ y);
  }

  lemma CrcLookupXor(a: byte, b: byte)
    ensures FromBits(CrcEntry(ToBits(Xor(a, b))))
         == Xor(FromBits(CrcEntry(ToBits(a))), FromBits(CrcEntry(ToBits(b))))
  {
    hide ToBits, CrcEntry;
    XorBits(a, b);
    CrcEntryXor(ToBits(a), ToBits(b));
    BitsOfByte(CrcEntry(ToBits(a)));
    BitsOfByte(CrcEntry(ToBits(b)));
  }

  lemma UpdateLinear(algo: Algo, c: byte, d: byte, a: byte, b: byte)
    requires Linear(algo)
    ensures Update(algo, Xor(c, d), Xor(a, b)) == Xor(Update(algo, c, a), Update(algo, d, b))
  {
    hide CrcEntry, Xor, ToBits;
    XorInterchange(c, d, a, b);
    CrcLookupXor(Xor(c, a), Xor(d, b));
  }

  lemma {:induction false} ChecksumLinear(algo: Algo, u: seq<byte>, e: seq<byte>)
    requires Linear(algo) && |u| == |e|
    ensures Checksum(algo, XorSeq(u, e)) == Xor(Checksum(algo, u), Checksum(algo, e))
  {
    var n := |u| - 1;
    if u == [] {
      XorZero(0);
    } else {
      ChecksumLinear(algo, u[..n], e[..n]);
      assert XorSeq(u, e)[..n] == XorSeq(u[..n], e[..n]);
      UpdateLinear(algo, Checksum(algo, u[..n]), Checksum(algo, e[..n]), u[n], e[n]);
    }
  }

  lemma XorZero(a: byte)
    ensures Xor(0, a) == a
  {
    BitsRoundTrip(a);
    assert ToBits(0) ^ ToBits(a) == ToBits(a);
  }

  /** An error pattern goes undetected exactly when it is itself a valid covered string,
      whatever string it hits. */
  lemma UndetectedErrors(algo: Algo, u: seq<byte>, e: seq<byte>)
    requires Linear(algo) && |u| == |e| && Verifies(algo, u)
    ensures Verifies(algo, XorSeq(u, e)) <==> Verifies(algo, e)
  {
    var n := |u| - 1;
    ChecksumLinear(algo, u[..n], e[..n]);
    assert XorSeq(u, e)[..n] == XorSeq(u[..n], e[..n]);
    if Verifies(algo, XorSeq(u, e)) {
      XorInjective(u[n], e[n], Checksum(algo, e[..n]));
    }
  }

  // ---------------------------------------------------------------------
  // Odd numbers of bit flips
  // ---------------------------------------------------------------------

  function BitAt(x: bv8, mask: bv8): nat
  {
    if x & mask != 0 then 1 else 0
  }

  /** The number of one bits. */
  function Ones(x: bv8): nat
  {
    BitAt(x, 0x01) + BitAt(x, 0x02) + BitAt(x, 0x04) + BitAt(x, 0x08)
    + BitAt(x, 0x10) + BitAt(x, 0x20) + BitAt(x, 0x40) + BitAt(x, 0x80)
  }

  function Weight(b: byte): nat
  {
    Ones(ToBits(b))
  }

  function TotalOnes(u: seq<byte>): nat
  {
    if u == [] then 0 else TotalOnes(u[..|u| - 1]) + Weight(u[|u| - 1])
  }

  /** The number of bit positions in which two strings differ. */
  function BitDistance(u: seq<byte>, v: seq<byte>): nat
    requires |u| == |v|
  {
    TotalOnes(XorSeq(u, v))
  }

  lemma NoOnes()
    ensures Weight(0) == 0
  {
  }

  lemma BitXor(x: bv8, y: bv8, m: bv8)
    requires m == 0x01 || m == 0x02 || m == 0x04 || m == 0x08 || m == 0x10 || m == 0x20 || m == 0x40 || m == 0x80
    ensures BitAt(x ^ y, m) + 2 * BitAt(x & y, m) == BitAt(x, m) + BitAt(y, m)
  {
  }

  lemma OnesXor(x: bv8, y: bv8)
    ensures Ones(x ^ y) + 2 * Ones(x & y) == Ones(x) + Ones(y)
  {
    hide BitAt;
    BitXor(x, y, 0x01);
    BitXor(x, y, 0x02);
    BitXor(x, y, 0x04);
    BitXor(x, y, 0x08);
    BitXor(x, y, 0x10);
    BitXor(x, y, 0x20);
    BitXor(x, y, 0x40);
    BitXor(x, y, 0x80);
  }

  lemma XorParity(x: bv8, y: bv8)
    ensures Ones(x ^ y) % 2 == (Ones(x) + Ones(y)) % 2
  {
    hide *;
    OnesXor(x, y);
  }

  lemma PolyStepParity(x: bv8)
    ensures Ones(PolyStep(x)) % 2 == Ones(x) % 2
  {
  }

  lemma {:induction false} PolyStepsParity(x: bv8, n: nat)
    ensures Ones(PolySteps(x, n)) % 2 == Ones(x) % 2
  {
    hide Ones, PolyStep;
    if n > 0 {
      PolyStepsParity(x, n - 1);
      PolyStepParity(PolySteps(x, n - 1));
    }
  }

  /** The CRC lookup keeps the parity of the number of one bits. */
  lemma CrcEntryParity(x: bv8)
    ensures Ones(CrcEntry(x)) % 2 == Ones(x) % 2
  {
    hide *;
    PolyStepsParity(x, 8);
    EightSteps(x);
  }

  lemma WeightOfXor(a: byte, b: byte)
    ensures Weight(Xor(a, b)) % 2 == (Weight(a) + Weight(b)) % 2
  {
    hide Ones, ToBits, Xor;
    XorBits(a, b);
    XorParity(ToBits(a), ToBits(b));
  }

  lemma UpdateParity(algo: Algo, c: byte, b: byte)
    requires Linear(algo)
    ensures Weight(Update(algo, c, b)) % 2 == (Weight(c) + Weight(b)) % 2
  {
    hide Ones, CrcEntry, ToBits, Xor;
    WeightOfXor(c, b);
    if algo == Crc8 {
      var x := ToBits(Xor(c, b));
      CrcEntryParity(x);
      BitsOfByte(CrcEntry(x));
    }
  }

  lemma {:induction false} ChecksumParity(algo: Algo, u: seq<byte>)
    requires Linear(algo)
    ensures Weight(Checksum(algo, u)) % 2 == TotalOnes(u) % 2
  {
    hide Weight, Update;
    if u == [] {
      NoOnes();
    } else {
      var n := |u| - 1;
      ChecksumParity(algo, u[..n]);
      UpdateParity(algo, Checksum(algo, u[..n]), u[n]);
    }
  }

  lemma ValidStringsAreEven(algo: Algo, u: seq<byte>)
    requires Linear(algo) && Verifies(algo, u)
    ensures TotalOnes(u) % 2 == 0
  {
    hide Weight, Update;
    ChecksumParity(algo, u[..|u| - 1]);
  }

  lemma {:induction false} DistanceParity(u: seq<byte>, v: seq<byte>)
    requires |u| == |v|
    ensures BitDistance(u, v) % 2 == (TotalOnes(u) + TotalOnes(v)) % 2
  {
    hide Weight, Xor;
    if u != [] {
      var n := |u| - 1;
      DistanceParity(u[..n], v[..n]);
      assert XorSeq(u, v)[..n] == XorSeq(u[..n], v[..n]);
      WeightOfXor(u[n], v[n]);
    }
  }

  /** XOR8 and CRC8 detect every odd number of bit flips, wherever they fall. */
  lemma OddFlipsAreDetected(algo: Algo, u: seq<byte>, v: seq<byte>)
    requires Linear(algo) && Verifies(algo, u)
    requires |u| == |v| && BitDistance(u, v) % 2 == 1
    ensures !Verifies(algo, v)
  {
    DistanceParity(u, v);
    ValidStringsAreEven(algo, u);
    if Verifies(algo, v) {
      ValidStringsAreEven(algo, v);
    }
  }

  lemma SmallBytes()
    ensures Weight(0) == 0 && Weight(1) == 1 && Weight(2) == 1
    ensures Xor(2, 0) == 2 && Xor(0, 1) == 1 && Xor(2, 2) == 0
  {
    assert ToBits(1) == ToBits(0) + 1;
    assert ToBits(2) == ToBits(1) + 1;
  }

  lemma SumAppend(s: seq<byte>, b: byte)
    ensures Checksum(Sum8, s + [b]) == (Checksum(Sum8, s) + b) % 256
    ensures TotalOnes(s + [b]) == TotalOnes(s) + Weight(b)
  {
    hide Weight, Xor, CrcEntry;
    assert (s + [b])[..|s|] == s;
  }

  lemma SnocSums(a: byte, b: byte, c: byte)
    requires a + b + c < 256
    ensures Checksum(Sum8, [a, b, c]) == a + b + c
    ensures TotalOnes([a, b, c, 0]) == Weight(a) + Weight(b) + Weight(c) + Weight(0)
  {
    hide *;
    assert [] + [a] == [a] && [a] + [b] == [a, b] && [a, b] + [c] == [a, b, c] && [a, b, c] + [0] == [a, b, c, 0];
    NothingSums();
    SumAppend([], a);
    assert Checksum(Sum8, [a]) == a;
    SumAppend([a], b);
    assert Checksum(Sum8, [a, b]) == a + b;
    SumAppend([a, b], c);
    SumAppend([a, b, c], 0);
  }

  lemma NothingSums()
    ensures Checksum(Sum8, []) == 0 && TotalOnes([]) == 0
  {
  }

  /** SUM8 does not: three flips turn 2, 0, 0 into 0, 1, 1 and leave the sum at 2. */
  lemma SumMissesThreeFlips()
    ensures var u, v: seq<byte> := [2, 0, 0, 2], [0, 1, 1, 2];
            Verifies(Sum8, u) && Verifies(Sum8, v) && BitDistance(u, v) == 3
  {
    hide Weight, Xor, Checksum, TotalOnes;
    var u: seq<byte>, v: seq<byte> := [2, 0, 0, 2], [0, 1, 1, 2];
    assert u[..3] == [2, 0, 0] && v[..3] == [0, 1, 1];
    SnocSums(2, 0, 0);
    SnocSums(0, 1, 1);
    SnocSums(2, 1, 1);
    SmallBytes();
    assert XorSeq(u, v) == [2, 1, 1, 0];
  }

  // ---------------------------------------------------------------------
  // The values
  // ---------------------------------------------------------------------

  /** The table by the bits of the index: the remainders of x^8 to x^15 modulo x^8 + x^5 + x^4 + 1. */
  lemma CrcByBits(x: bv8)
    ensures CrcEntry(x) ==
            (if x & 0x01 != 0 then 0x31 else 0) ^ (if x & 0x02 != 0 then 0x62 else 0)
            ^ (if x & 0x04 != 0 then 0xC4 else 0) ^ (if x & 0x08 != 0 then 0xB9 else 0)
            ^ (if x & 0x10 != 0 then 0x43 else 0) ^ (if x & 0x20 != 0 then 0x86 else 0)
            ^ (if x & 0x40 != 0 then 0x3D else 0) ^ (if x & 0x80 != 0 then 0x7A else 0)
  {
  }

  function Total(s: seq<byte>): nat
  {
    if s == [] then 0 else Total(s[..|s| - 1]) + s[|s| - 1]
  }

  lemma {:induction false} SumIsTotal(s: seq<byte>)
    ensures Checksum(Sum8, s) == Total(s) % 256
  {
    hide Checksum;
    NothingSums();
    if s != [] {
      var n := |s| - 1;
      SumIsTotal(s[..n]);
      SumAppend(s[..n], s[n]);
      assert s[..n] + [s[n]] == s;
    }
  }
}
