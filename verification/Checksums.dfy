/** Bytes and the four one-byte checksums of the wire format.

    A `byte` is a number; only the XOR and CRC updates look at its bits, through
    `ToBits` and `FromBits`, so that the layers above never meet a bit-vector. */
module Checksums {

  type byte = x: int | 0 <= x < 256

  datatype Algo = NoChecksum | Sum8 | Xor8 | Crc8

  /** The bit pattern of a byte. */
  function ToBits(n: byte): bv8
  {
    if n == 0 then 0 else ToBits(n - 1) + 1
  }

  /** The byte with a given bit pattern. */
  function FromBits(x: bv8): byte
  {
    (if x & 0x80 != 0 then 128 else 0) + (if x & 0x40 != 0 then 64 else 0)
    + (if x & 0x20 != 0 then 32 else 0) + (if x & 0x10 != 0 then 16 else 0)
    + (if x & 0x08 != 0 then 8 else 0) + (if x & 0x04 != 0 then 4 else 0)
    + (if x & 0x02 != 0 then 2 else 0) + (if x & 0x01 != 0 then 1 else 0)
  }

  lemma SuccessorBits(x: bv8)
    requires FromBits(x) < 255
    ensures FromBits(x + 1) == FromBits(x) + 1
  {
  }

  lemma {:induction false} BitsRoundTrip(n: byte)
    ensures FromBits(ToBits(n)) == n
  {
    if n > 0 {
      BitsRoundTrip(n - 1);
      SuccessorBits(ToBits(n - 1));
    }
  }

  lemma SameBits(x: bv8, y: bv8)
    requires FromBits(x) == FromBits(y)
    ensures x == y
  {
  }

  lemma BitsOfByte(x: bv8)
    ensures ToBits(FromBits(x)) == x
  {
    BitsRoundTrip(FromBits(x));
    SameBits(ToBits(FromBits(x)), x);
  }

  function Xor(a: byte, b: byte): byte
  {
    FromBits(ToBits(a) ^ ToBits(b))
  }

  // ---------------------------------------------------------------------
  // The CRC table
  // ---------------------------------------------------------------------

  /** One step of division by x^8 + x^5 + x^4 + 1, kept to eight bits. */
  function PolyStep(x: bv8): bv8
  {
    if x & 0x80 != 0 then (x << 1) ^ 0x31 else x << 1
  }

  function PolySteps(x: bv8, n: nat): bv8
  {
    if n == 0 then x else PolyStep(PolySteps(x, n - 1))
  }

  function CrcEntry(x: bv8): bv8
  {
    PolyStep(PolyStep(PolyStep(PolyStep(PolyStep(PolyStep(PolyStep(PolyStep(x))))))))
  }

  lemma EightSteps(x: bv8)
    ensures PolySteps(x, 8) == CrcEntry(x)
  {
    var two := PolyStep(PolyStep(x));
    assert PolySteps(x, 1) == PolyStep(x);
    assert PolySteps(x, 2) == two;
    assert PolySteps(x, 3) == PolyStep(two);
    assert PolySteps(x, 4) == PolyStep(PolyStep(two));
    assert PolySteps(x, 5) == PolyStep(PolyStep(PolyStep(two)));
    assert PolySteps(x, 6) == PolyStep(PolyStep(PolyStep(PolyStep(two))));
  }

  /** Shifting without a mask changes the low byte exactly as the masked step does. */
  lemma WideStep(crc: bv32, low: bv8)
    requires crc & 0xFF == low as bv32
    ensures (if crc & 0x80 != 0 then (crc << 1) ^ 0x31 else crc << 1) & 0xFF == PolyStep(low) as bv32
  {
  }

  /** The generator's inner loop: the running value is never masked until it is stored. It
      starts below 2^8 and is shifted eight times, so 32 bits hold it exactly. */
  method GenerateCrc8Entry(i: bv8) returns (entry: bv8)
    ensures entry == CrcEntry(i)
  {
    var crc: bv32 := i as bv32;
    for j := 0 to 8
      invariant crc & 0xFF == PolySteps(i, j) as bv32
    {
      WideStep(crc, PolySteps(i, j));
      if crc & 0x80 != 0 {
        crc := (crc << 1) ^ 0x31;
      } else {
        crc := crc << 1;
      }
    }
    EightSteps(i);
    entry := (crc & 0xFF) as bv8;
  }

  method GenerateCrc8Table() returns (table: seq<byte>)
    ensures |table| == 256
    ensures forall i: byte :: table[i] == FromBits(CrcEntry(ToBits(i)))
  {
    table := [];
    var bits: bv8 := 0;
    for i := 0 to 256
      invariant |table| == i
      invariant i < 256 ==> bits == ToBits(i)
      invariant forall k: byte :: k < i ==> table[k] == FromBits(CrcEntry(ToBits(k)))
    {
      var entry := GenerateCrc8Entry(bits);
      table := table + [FromBits(entry)];
      bits := bits + 1;
    }
  }

  // ---------------------------------------------------------------------
  // Checksums of byte strings
  // ---------------------------------------------------------------------

  function Update(algo: Algo, current: byte, b: byte): byte
  {
    match algo
    case NoChecksum => 0
    case Sum8 => (current + b) % 256
    case Xor8 => Xor(current, b)
    case Crc8 => FromBits(CrcEntry(ToBits(Xor(current, b))))
  }

  function Checksum(algo: Algo, s: seq<byte>): byte
  {
    if s == [] then 0 else Update(algo, Checksum(algo, s[..|s| - 1]), s[|s| - 1])
  }

  lemma ChecksumAppend(algo: Algo, s: seq<byte>, b: byte)
    ensures Checksum(algo, s + [b]) == Update(algo, Checksum(algo, s), b)
  {
    assert (s + [b])[..|s|] == s;
  }

  method CalculateChecksum(algo: Algo, data: seq<byte>) returns (checksum: byte)
    ensures checksum == Checksum(algo, data)
  {
    checksum := 0;
    for i := 0 to |data|
      invariant checksum == Checksum(algo, data[..i])
    {
      ChecksumAppend(algo, data[..i], data[i]);
      assert data[..i + 1] == data[..i] + [data[i]];
      checksum := Update(algo, checksum, data[i]);
    }
    assert data[..|data|] == data;
  }

  /** A byte string whose last byte is the checksum of the others: the part of a frame
      from its ID byte on. Without a checksum algorithm the last byte is not looked at. */
  predicate Verifies(algo: Algo, u: seq<byte>)
  {
    |u| > 0 && (algo == NoChecksum || u[|u| - 1] == Checksum(algo, u[..|u| - 1]))
  }
}
