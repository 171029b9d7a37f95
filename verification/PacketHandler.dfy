/** The ring-buffer packet handler and the feeding loop that drains it when it fills up, proved
    against the pure parser of `StreamParser`. */
module PacketHandling {
  import opened Checksums
  import opened Wire
  import opened StreamParser
  import opened RingArithmetic

  const COUNTER_RANGE: nat := 0x1_0000_0000

  /** `++` on a uint32. */
  function CountUp(counter: nat): nat
  {
    if counter + 1 == COUNTER_RANGE then 0 else counter + 1
  }

  function CountUpBy(counter: nat, n: nat): nat
  {
    if n == 0 then counter else CountUp(CountUpBy(counter, n - 1))
  }

  lemma {:induction false} CountUpByAdds(counter: nat, m: nat, n: nat)
    ensures CountUpBy(CountUpBy(counter, m), n) == CountUpBy(counter, m + n)
  {
    if n > 0 {
      CountUpByAdds(counter, m, n - 1);
    }
  }

  /** Counting wraps modulo 2^32. */
  lemma {:induction false} CountUpByWraps(counter: nat, n: nat)
    requires counter < COUNTER_RANGE
    ensures CountUpBy(counter, n) == (counter + n) % COUNTER_RANGE
  {
    if n > 0 {
      CountUpByWraps(counter, n - 1);
    }
  }

  // ---------------------------------------------------------------------
  // The ring as a sequence
  // ---------------------------------------------------------------------

  /** Position `i` steps after `start` in a ring of `n` cells. */
  function Around(n: nat, start: nat, i: nat): nat
  {
    if start + i < n then start + i else start + i - n
  }

  /** The `count` bytes that follow `start` around the ring. */
  function Window(ring: seq<byte>, start: nat, count: nat): (s: seq<byte>)
    requires start < |ring| && count <= |ring|
    ensures |s| == count
    ensures forall i | 0 <= i < count :: s[i] == ring[Around(|ring|, start, i)]
  {
    seq(count, i requires 0 <= i < count => ring[Around(|ring|, start, i)])
  }

  lemma WindowSlice(ring: seq<byte>, start: nat, count: nat, from: nat, n: nat)
    requires start < |ring| && from + n <= count < |ring|
    ensures Window(ring, Around(|ring|, start, from), n) == Window(ring, start, count)[from..from + n]
  {
  }

  lemma WindowGrow(ring: seq<byte>, start: nat, count: nat)
    requires start < |ring| && count < |ring|
    ensures Window(ring, start, count + 1) == Window(ring, start, count) + [ring[Around(|ring|, start, count)]]
  {
  }

  class PacketHandler {
    const protocol: Protocol
    const ring: array<byte>
    const capacity: nat
    const mask: nat
    var head: nat
    var tail: nat
    var overflowCount: nat
    var checksumErrorCount: nat
    var rxPacketCount: nat

    ghost predicate Valid()
      reads this
    {
      && IsPow2(capacity) && capacity <= HALF_WORD && mask == capacity - 1
      && ring.Length == capacity
      && head < capacity && tail < capacity
      && overflowCount < COUNTER_RANGE && checksumErrorCount < COUNTER_RANGE && rxPacketCount < COUNTER_RANGE
    }

    ghost function Count(): nat
      requires Valid()
      reads this
    {
      if head >= tail then head - tail else head + capacity - tail
    }

    /** The buffered bytes, oldest first. */
    ghost function Contents(): (s: seq<byte>)
      requires Valid()
      reads this, ring
      ensures |s| == Count()
    {
      Window(ring[..], tail, Count())
    }

    /** The ring holds at least `bufferSize` bytes, in the least power of two of cells that can. */
    constructor (protocol: Protocol, bufferSize: nat)
      requires bufferSize + 1 <= HALF_WORD
      ensures Valid() && fresh(ring) && this.protocol == protocol && Contents() == []
      ensures bufferSize <= capacity - 1
      ensures forall k: nat :: bufferSize < Pow2(k) ==> capacity <= Pow2(k)
      ensures overflowCount == 0 && checksumErrorCount == 0 && rxPacketCount == 0
    {
      var n := NextPowerOfTwo(bufferSize + 1);
      this.protocol := protocol;
      capacity := n;
      mask := n - 1;
      ring := new byte[n](_ => 0);
      head, tail := 0, 0;
      overflowCount, checksumErrorCount, rxPacketCount := 0, 0, 0;
    }

    /** A ring index, masked back into range. */
    function Index(x: nat): (i: nat)
      requires Valid() && x < 2 * capacity
      reads this
      ensures i == if x < capacity then x else x - capacity
    {
      MaskFolds(x, capacity);
      BitAnd(x, mask)
    }

    /** The `i`-th buffered byte. */
    function ByteAt(i: nat): (b: byte)
      requires Valid() && i < |Contents()|
      reads this, ring
      ensures b == Contents()[i]
    {
      ring[Index(tail + i)]
    }

    function DataAvailable(): (n: nat)
      requires Valid()
      reads this
      ensures n == Count() && n < capacity
    {
      MaskedDifference(head, tail, capacity);
      BitAnd(SubWord(head, tail), mask)
    }

    method Reset()
      requires Valid()
      modifies this`head, this`tail
      ensures Valid() && Contents() == []
    {
      head, tail := 0, 0;
    }

    /** Refuses the byte exactly when the ring holds `capacity - 1` bytes. */
    method TryPushByte(b: byte) returns (pushed: bool)
      requires Valid()
      modifies this`head, ring
      ensures Valid()
      ensures pushed <==> old(|Contents()|) < capacity - 1
      ensures Contents() == if pushed then old(Contents()) + [b] else old(Contents())
    {
      var nextHead := Index(head + 1);
      if nextHead == tail {
        return false;
      }
      ring[head] := b;
      head := nextHead;
      pushed := true;
    }

    method RecordOverflow()
      requires Valid()
      modifies this`overflowCount
      ensures Valid() && overflowCount == CountUp(old(overflowCount)) && Contents() == old(Contents())
    {
      overflowCount := CountUp(overflowCount);
    }

    /** Plain feeding: the ring takes a prefix of the data, the rest is dropped and counted. */
    method FeedData(data: seq<byte>) returns (dropped: nat)
      requires Valid()
      modifies this`head, this`overflowCount, ring
      ensures Valid()
      ensures var room := capacity - 1 - old(|Contents()|);
              var taken := if |data| <= room then |data| else room;
              && Contents() == old(Contents()) + data[..taken]
              && dropped == |data| - taken
              && overflowCount == CountUpBy(old(overflowCount), dropped)
    {
      dropped := 0;
      ghost var start := Contents();
      ghost var room := capacity - 1 - |start|;
      for i := 0 to |data|
        invariant Valid()
        invariant var taken := if i <= room then i else room;
                  && Contents() == start + data[..taken]
                  && dropped == i - taken
                  && overflowCount == CountUpBy(old(overflowCount), dropped)
      {
        var pushed := TryPushByte(data[i]);
        if !pushed {
          dropped := dropped + 1;
          overflowCount := CountUp(overflowCount);
        } else {
          assert data[..i + 1] == data[..i] + [data[i]];
        }
      }
    }

    method ChecksumFromRing(start: nat, count: nat) returns (checksum: byte)
      requires Valid() && start < capacity && count < capacity
      ensures checksum == Checksum(protocol.algo, Window(ring[..], start, count))
    {
      checksum := 0;
      for i := 0 to count
        invariant checksum == Checksum(protocol.algo, Window(ring[..], start, i))
      {
        WindowGrow(ring[..], start, i);
        ChecksumAppend(protocol.algo, Window(ring[..], start, i), ring[Index(start + i)]);
        checksum := Update(protocol.algo, checksum, ring[Index(start + i)]);
      }
    }

    method CopyFromRing(start: nat, count: nat) returns (payload: seq<byte>)
      requires Valid() && start < capacity && count < capacity
      ensures payload == Window(ring[..], start, count)
    {
      payload := [];
      for i := 0 to count
        invariant payload == Window(ring[..], start, i)
      {
        WindowGrow(ring[..], start, i);
        payload := payload + [ring[Index(start + i)]];
      }
    }

    /** Dropping `n` bytes from the front of the ring. */
    method Consume(n: nat)
      requires Valid() && n <= |Contents()|
      modifies this`tail
      ensures Valid() && Contents() == old(Contents())[n..]
    {
      tail := Index(tail + n);
    }

    /** The tests the parsing loop makes on the bytes at the tail. */
    method JudgeTail() returns (verdict: Verdict)
      requires Valid() && OVERHEAD <= |Contents()|
      ensures verdict == Judge(protocol, capacity, Contents())
    {
      hide Window, Checksum, BitAnd, Pow2, ExpectedSize;
      ghost var s := Contents();
      var b1 := ByteAt(0);
      var b2 := ByteAt(1);
      if b1 != protocol.header1 || b2 != protocol.header2 {
        return Skip;
      }

      var idByte := ByteAt(2);
      var lenByte := ByteAt(3);
      var totalLen := 2 + 1 + 1 + lenByte + 1;
      if totalLen > capacity - 1 {
        return Skip;
      }
      if lenByte > protocol.maxPayload {
        return Skip;
      }
      var expectedLen := ExpectedSize(protocol, idByte);
      if expectedLen == 0 || lenByte != expectedLen {
        return Skip;
      }
      if DataAvailable() < totalLen {
        return Wait;
      }
      if protocol.algo != NoChecksum {
        var calculated := ChecksumFromRing(Index(tail + 2), 2 + lenByte);
        WindowSlice(ring[..], tail, |s|, 2, 2 + lenByte);
        var received := ByteAt(totalLen - 1);
        if calculated != received {
          return BadChecksum;
        }
      }
      return Accept(totalLen);
    }

    /** The packet of the accepted frame at the tail. */
    method TakePacket() returns (packet: Packet)
      requires Valid() && OVERHEAD <= |Contents()| && Contents()[3] + OVERHEAD <= |Contents()|
      ensures packet == HeadPacket(Contents())
    {
      ghost var s := Contents();
      var idByte := ByteAt(2);
      var lenByte := ByteAt(3);
      var payload := CopyFromRing(Index(tail + 4), lenByte);
      WindowSlice(ring[..], tail, |s|, 4, lenByte);
      packet := Packet(idByte, payload);
    }

    /** One call of the parsing routine. */
    method ParsePacket() returns (packet: Option<Packet>)
      requires Valid()
      modifies this`tail, this`checksumErrorCount, this`rxPacketCount
      ensures Valid()
      ensures var next := ParseOne(protocol, capacity, old(Contents()));
              && packet == next.packet
              && Contents() == next.rest
              && checksumErrorCount == CountUpBy(old(checksumErrorCount), next.errors)
              && rxPacketCount == CountUpBy(old(rxPacketCount), if next.packet.Some? then 1 else 0)
    {
      hide Judge, HeadPacket, Window, Around, ParseOne, Pow2, BitAnd;
      ghost var errors: nat := 0;
      ghost var start := Contents();
      while DataAvailable() >= OVERHEAD
        invariant Valid()
        invariant rxPacketCount == old(rxPacketCount)
        invariant checksumErrorCount == CountUpBy(old(checksumErrorCount), errors)
        invariant var now, all := ParseOne(protocol, capacity, Contents()), ParseOne(protocol, capacity, start);
                  all == now.(errors := errors + now.errors)
        decreases |Contents()|
      {
        ParseOneStep(protocol, capacity, Contents());
        var verdict := JudgeTail();
        match verdict {
          case Skip =>
            Consume(1);
          case BadChecksum =>
            checksumErrorCount := CountUp(checksumErrorCount);
            errors := errors + 1;
            Consume(1);
          case Wait =>
            return None;
          case Accept(total) =>
            var pkt := TakePacket();
            Consume(total);
            rxPacketCount := CountUp(rxPacketCount);
            return Some(pkt);
        }
      }
      ParseOneStep(protocol, capacity, Contents());
      packet := None;
    }
  }

  // ---------------------------------------------------------------------
  // Feeding with recovery
  // ---------------------------------------------------------------------

  lemma SmallRing(capacity: nat)
    requires IsPow2(capacity) && capacity < 8
    ensures capacity <= 4
  {
    var k: nat :| capacity == Pow2(k);
    assert Pow2(2) == 4 && Pow2(3) == 8;
    if k > 3 {
      Pow2Grows(3, k);
    }
  }

  /** Parses until nothing is delivered. */
  method Drain(handler: PacketHandler) returns (packets: seq<Packet>)
    requires handler.Valid()
    modifies handler`tail, handler`checksumErrorCount, handler`rxPacketCount
    ensures handler.Valid()
    ensures var all := Parse(handler.protocol, handler.capacity, old(handler.Contents()));
            && packets == all.packets
            && handler.Contents() == all.rest
            && handler.checksumErrorCount == CountUpBy(old(handler.checksumErrorCount), all.errors)
            && handler.rxPacketCount == CountUpBy(old(handler.rxPacketCount), |all.packets|)
  {
    hide Parse, ParseOne, Window;
    var p, capacity := handler.protocol, handler.capacity;
    ghost var errors: nat := 0;
    packets := [];
    OneThenAll(p, capacity, handler.Contents());
    var packet := handler.ParsePacket();
    errors := ParseOne(p, capacity, old(handler.Contents())).errors;
    while packet.Some?
      invariant handler.Valid()
      invariant var all, now := Parse(p, capacity, old(handler.Contents())), Parse(p, capacity, handler.Contents());
                if packet.Some? then
                  all == Parsed(packets + [packet.value] + now.packets, now.rest, errors + now.errors)
                else
                  all == Parsed(packets, handler.Contents(), errors)
      invariant handler.checksumErrorCount == CountUpBy(old(handler.checksumErrorCount), errors)
      invariant handler.rxPacketCount
             == CountUpBy(old(handler.rxPacketCount), |packets| + if packet.Some? then 1 else 0)
      decreases packet.Some?, |handler.Contents()|
    {
      packets := packets + [packet.value];
      OneThenAll(p, capacity, handler.Contents());
      ghost var more := ParseOne(p, capacity, handler.Contents()).errors;
      CountUpByAdds(old(handler.checksumErrorCount), errors, more);
      CountUpByAdds(old(handler.rxPacketCount), |packets|, 1);
      packet := handler.ParsePacket();
      errors := errors + more;
    }
  }

  /** One byte of input: push it, drain a full ring first, reset one that draining cannot help. */
  method FeedByte(handler: PacketHandler, b: byte) returns (packets: seq<Packet>, dropped: nat, ghost errors: nat)
    requires handler.Valid()
    modifies handler, handler.ring
    ensures handler.Valid()
    ensures 8 <= handler.capacity ==>
              && dropped == 0
              && handler.overflowCount == old(handler.overflowCount)
              && StandsFor(handler.protocol, handler.capacity, old(handler.Contents()) + [b], packets,
                  handler.Contents(), errors)
              && handler.checksumErrorCount == CountUpBy(old(handler.checksumErrorCount), errors)
              && handler.rxPacketCount == CountUpBy(old(handler.rxPacketCount), |packets|)
    ensures handler.capacity < 8 ==>
              && packets == []
              && (dropped > 0 <==> old(|handler.Contents()|) == handler.capacity - 1)
              && old(|handler.Contents()|) + 1 == |handler.Contents()| + dropped
  {
    hide Parse, Window;
    var p, capacity := handler.protocol, handler.capacity;
    ghost var start := handler.Contents();
    packets, dropped, errors := [], 0, 0;
    StandsForItself(p, capacity, start + [b]);
    var pushed := handler.TryPushByte(b);
    if pushed {
      return;
    }

    errors := Parse(p, capacity, start).errors;
    ParsedStandsFor(p, capacity, start, [b]);
    packets := Drain(handler);
    var drainedAny := packets != [];
    if 8 <= capacity {
      ParsingMakesRoom(p, capacity, start);
    } else {
      SmallRing(capacity);
      ParseNothing(p, capacity, start);
    }
    pushed := handler.TryPushByte(b);
    if pushed {
      return;
    }

    handler.RecordOverflow();
    if !drainedAny {
      dropped := dropped + handler.DataAvailable();
      handler.Reset();
    }
    pushed := handler.TryPushByte(b);
    if !pushed {
      dropped := dropped + 1;
    }
  }

  lemma ParseNothing(p: Protocol, capacity: nat, s: seq<byte>)
    requires |s| < OVERHEAD
    ensures Parse(p, capacity, s) == Parsed([], s, 0)
  {
  }

  /** Feeds received bytes one by one; a full ring is drained first, and reset if draining gave
      nothing and left no room. The packets handed to the consumer are returned in order.

      With eight or more cells nothing is ever dropped, no overflow is recorded, and packets,
      remaining bytes and counters are those of one parse of the buffered bytes followed by the
      input. With fewer cells no packet fits: bytes are lost exactly when buffered bytes and
      input together exceed what the ring holds, and every byte is either kept or counted. */
  method FeedDataWithRecovery(handler: PacketHandler, data: seq<byte>) returns (delivered: seq<Packet>, dropped: nat)
    requires handler.Valid()
    modifies handler, handler.ring
    ensures handler.Valid()
    ensures 8 <= handler.capacity ==>
              var all := Parse(handler.protocol, handler.capacity, old(handler.Contents()) + data);
              && dropped == 0
              && delivered == all.packets
              && handler.Contents() == all.rest
              && handler.overflowCount == old(handler.overflowCount)
              && handler.checksumErrorCount == CountUpBy(old(handler.checksumErrorCount), all.errors)
              && handler.rxPacketCount == CountUpBy(old(handler.rxPacketCount), |all.packets|)
    ensures handler.capacity < 8 ==>
              && delivered == []
              && (dropped > 0 <==> old(|handler.Contents()|) + |data| >= handler.capacity)
              && old(|handler.Contents()|) + |data| == |handler.Contents()| + dropped
  {
    hide Parse, Window, StandsFor;
    var p, capacity := handler.protocol, handler.capacity;
    ghost var start := handler.Contents();
    ghost var errors: nat := 0;
    delivered, dropped := [], 0;
    StandsForItself(p, capacity, start);
    assert start + data[..0] == start;
    for i := 0 to |data|
      invariant handler.Valid()
      invariant 8 <= capacity ==>
                  && dropped == 0
                  && handler.overflowCount == old(handler.overflowCount)
                  && StandsFor(p, capacity, start + data[..i], delivered, handler.Contents(), errors)
                  && handler.checksumErrorCount == CountUpBy(old(handler.checksumErrorCount), errors)
                  && handler.rxPacketCount == CountUpBy(old(handler.rxPacketCount), |delivered|)
      invariant capacity < 8 ==>
                  && delivered == []
                  && (dropped > 0 <==> |start| + i >= capacity)
                  && |start| + i == |handler.Contents()| + dropped
    {
      ghost var kept := handler.Contents();
      var packets, lost; ghost var more;
      packets, lost, more := FeedByte(handler, data[i]);
      if 8 <= capacity {
        StandsForMore(p, capacity, start + data[..i], delivered, kept, errors, [data[i]], packets,
            handler.Contents(), more);
        assert start + data[..i + 1] == start + data[..i] + [data[i]];
        CountUpByAdds(old(handler.checksumErrorCount), errors, more);
        CountUpByAdds(old(handler.rxPacketCount), |delivered|, |packets|);
      }
      delivered := delivered + packets;
      dropped := dropped + lost;
      errors := errors + more;
    }
    assert start + data[..|data|] == start + data;

    ghost var kept := handler.Contents();
    var packets := Drain(handler);
    if 8 <= capacity {
      StandsForFinally(p, capacity, start + data, delivered, kept, errors);
      var last := Parse(p, capacity, kept);
      CountUpByAdds(old(handler.checksumErrorCount), errors, last.errors);
      CountUpByAdds(old(handler.rxPacketCount), |delivered|, |last.packets|);
    } else {
      SmallRing(capacity);
      ParseNothing(p, capacity, kept);
    }
    delivered := delivered + packets;
  }
}
