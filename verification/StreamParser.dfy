/** The receiving parser as a pure function of the bytes buffered so far: slide over the stream
    one byte at a time, deliver a frame where one stands, stop where a candidate is incomplete.
    `capacity` is the size of the ring that will hold the bytes; it holds `capacity - 1`. */
module StreamParser {
  import opened Checksums
  import opened Wire

  datatype Option<+T> = None | Some(value: T)

  datatype Verdict = Skip | BadChecksum | Wait | Accept(total: nat)

  /** What the parser does with the first byte of `s`. */
  function Judge(p: Protocol, capacity: nat, s: seq<byte>): (v: Verdict)
    requires OVERHEAD <= |s|
    ensures v.Accept? ==> OVERHEAD <= v.total <= |s| && v.total == s[3] + OVERHEAD
  {
    var total := s[3] + OVERHEAD;
    if s[0] != p.header1 || s[1] != p.header2 then Skip
    else if total > capacity - 1 then Skip
    else if s[3] > p.maxPayload then Skip
    else if ExpectedSize(p, s[2]) == 0 || s[3] != ExpectedSize(p, s[2]) then Skip
    else if |s| < total then Wait
    else if p.algo != NoChecksum && Checksum(p.algo, s[2..total - 1]) != s[total - 1] then BadChecksum
    else Accept(total)
  }

  /** The packet of an accepted frame at the head of `s`. */
  function HeadPacket(s: seq<byte>): Packet
    requires OVERHEAD <= |s| && s[3] + OVERHEAD <= |s|
  {
    Packet(s[2], s[4..4 + s[3]])
  }

  datatype Parsed = Parsed(packets: seq<Packet>, rest: seq<byte>, errors: nat)

  /** Everything that can be delivered from `s`, what stays buffered, and the number of
      candidates rejected for their checksum. */
  function Parse(p: Protocol, capacity: nat, s: seq<byte>): (r: Parsed)
    ensures |r.rest| <= |s|
  {
    if |s| < OVERHEAD then Parsed([], s, 0)
    else match Judge(p, capacity, s)
      case Skip => Parse(p, capacity, s[1..])
      case BadChecksum =>
        var r := Parse(p, capacity, s[1..]);
        r.(errors := r.errors + 1)
      case Wait => Parsed([], s, 0)
      case Accept(total) =>
        var r := Parse(p, capacity, s[total..]);
        r.(packets := [HeadPacket(s)] + r.packets)
  }

  /** How far a decided candidate moves the parser. */
  function Advance(v: Verdict): nat
  {
    if v.Accept? then v.total else 1
  }

  /** The parse of a stream whose first byte is decided, from the parse of what follows. */
  lemma ParseStep(p: Protocol, capacity: nat, s: seq<byte>)
    requires OVERHEAD <= |s| && Judge(p, capacity, s) != Wait
    ensures Advance(Judge(p, capacity, s)) <= |s|
    ensures var v := Judge(p, capacity, s);
            var r := Parse(p, capacity, s[Advance(v)..]);
            Parse(p, capacity, s) == Parsed(
              (if v.Accept? then [HeadPacket(s)] else []) + r.packets, r.rest,
              r.errors + if v.BadChecksum? then 1 else 0)
  {
    hide Judge, HeadPacket;
  }

  datatype Next = Next(packet: Option<Packet>, rest: seq<byte>, errors: nat)

  /** One call of the parsing routine: up to and including the first delivered packet. */
  function ParseOne(p: Protocol, capacity: nat, s: seq<byte>): (r: Next)
    ensures |r.rest| <= |s|
    ensures r.packet.Some? ==> |r.rest| < |s|
  {
    if |s| < OVERHEAD then Next(None, s, 0)
    else match Judge(p, capacity, s)
      case Skip => ParseOne(p, capacity, s[1..])
      case BadChecksum =>
        var r := ParseOne(p, capacity, s[1..]);
        r.(errors := r.errors + 1)
      case Wait => Next(None, s, 0)
      case Accept(total) => Next(Some(HeadPacket(s)), s[total..], 0)
  }

  lemma ParseOneStep(p: Protocol, capacity: nat, s: seq<byte>)
    ensures |s| < OVERHEAD ==> ParseOne(p, capacity, s) == Next(None, s, 0)
    ensures OVERHEAD <= |s| ==>
              match Judge(p, capacity, s)
              case Skip => ParseOne(p, capacity, s) == ParseOne(p, capacity, s[1..])
              case BadChecksum =>
                var r := ParseOne(p, capacity, s[1..]);
                ParseOne(p, capacity, s) == r.(errors := r.errors + 1)
              case Wait => ParseOne(p, capacity, s) == Next(None, s, 0)
              case Accept(total) => ParseOne(p, capacity, s) == Next(Some(HeadPacket(s)), s[total..], 0)
  {
    hide Judge, HeadPacket;
  }

  /** Calling the routine until it delivers nothing is the whole parse. */
  lemma {:induction false} OneThenAll(p: Protocol, capacity: nat, s: seq<byte>)
    ensures var one, all := ParseOne(p, capacity, s), Parse(p, capacity, s);
            if one.packet.Some? then
              var after := Parse(p, capacity, one.rest);
              all == Parsed([one.packet.value] + after.packets, after.rest, one.errors + after.errors)
            else
              all == Parsed([], one.rest, one.errors)
  {
    if OVERHEAD <= |s| {
      match Judge(p, capacity, s)
      case Skip => OneThenAll(p, capacity, s[1..]);
      case BadChecksum => OneThenAll(p, capacity, s[1..]);
      case Wait =>
      case Accept(total) =>
    }
  }

  // ---------------------------------------------------------------------
  // Chunk independence
  // ---------------------------------------------------------------------

  /** Parsing more bytes after an earlier parse. */
  function Continue(p: Protocol, capacity: nat, before: Parsed, more: seq<byte>): Parsed
  {
    var r := Parse(p, capacity, before.rest + more);
    Parsed(before.packets + r.packets, r.rest, before.errors + r.errors)
  }

  lemma JudgeExtends(p: Protocol, capacity: nat, s: seq<byte>, more: seq<byte>)
    requires OVERHEAD <= |s| && Judge(p, capacity, s) != Wait
    ensures Judge(p, capacity, s + more) == Judge(p, capacity, s)
  {
    var total := s[3] + OVERHEAD;
    if total <= |s| {
      assert (s + more)[2..total - 1] == s[2..total - 1];
    }
  }

  lemma ParseWaits(p: Protocol, capacity: nat, s: seq<byte>)
    requires OVERHEAD <= |s| ==> Judge(p, capacity, s) == Wait
    ensures Parse(p, capacity, s) == Parsed([], s, 0)
  {
    hide Judge;
  }

  /** The first candidate, decided, is decided alike with more bytes behind it. */
  lemma HeadExtends(p: Protocol, capacity: nat, s: seq<byte>, more: seq<byte>)
    requires OVERHEAD <= |s| && Judge(p, capacity, s) != Wait
    ensures Judge(p, capacity, s + more) == Judge(p, capacity, s)
    ensures var n := Advance(Judge(p, capacity, s));
            n <= |s| && (s + more)[n..] == s[n..] + more
    ensures Judge(p, capacity, s).Accept? ==> HeadPacket(s + more) == HeadPacket(s)
  {
    hide Judge;
    JudgeExtends(p, capacity, s, more);
  }

  /** Bytes may be parsed as they come: what an early parse delivers and keeps, continued with
      the later bytes, is the parse of all of them. */
  lemma {:induction false} ParseContinues(p: Protocol, capacity: nat, s: seq<byte>, more: seq<byte>)
    ensures Parse(p, capacity, s + more) == Continue(p, capacity, Parse(p, capacity, s), more)
    decreases |s|
  {
    hide Judge, Parse, HeadPacket;
    if OVERHEAD <= |s| && Judge(p, capacity, s) != Wait {
      HeadExtends(p, capacity, s, more);
      var n := Advance(Judge(p, capacity, s));
      ParseStep(p, capacity, s);
      ParseStep(p, capacity, s + more);
      ParseContinues(p, capacity, s[n..], more);
    } else {
      ParseWaits(p, capacity, s);
    }
  }

  function Concat(chunks: seq<seq<byte>>): seq<byte>
  {
    if chunks == [] then [] else Concat(chunks[..|chunks| - 1]) + chunks[|chunks| - 1]
  }

  /** Feeding chunks one after the other, each parsed as it arrives. */
  function FeedChunks(p: Protocol, capacity: nat, buffered: seq<byte>, chunks: seq<seq<byte>>): Parsed
  {
    if chunks == [] then Parsed([], buffered, 0)
    else Continue(p, capacity, FeedChunks(p, capacity, buffered, chunks[..|chunks| - 1]), chunks[|chunks| - 1])
  }

  /** However the input is cut, and whatever was buffered before, the packets delivered, the bytes
      kept and the checksum errors counted are those of one parse of everything. */
  lemma {:induction false} ChunkIndependence(p: Protocol, capacity: nat, buffered: seq<byte>, chunks: seq<seq<byte>>)
    requires chunks != []
    ensures FeedChunks(p, capacity, buffered, chunks) == Parse(p, capacity, buffered + Concat(chunks))
  {
    hide Parse;
    var n := |chunks| - 1;
    if n == 0 {
      assert chunks[..0] == [];
      assert buffered + Concat(chunks) == buffered + chunks[0];
      assert FeedChunks(p, capacity, buffered, []) == Parsed([], buffered, 0);
    } else {
      ChunkIndependence(p, capacity, buffered, chunks[..n]);
      ParseContinues(p, capacity, buffered + Concat(chunks[..n]), chunks[n]);
      assert buffered + Concat(chunks[..n]) + chunks[n] == buffered + Concat(chunks);
    }
  }

  lemma SameBytesSamePackets(p: Protocol, capacity: nat, buffered: seq<byte>,
                             chunks: seq<seq<byte>>, chunks': seq<seq<byte>>)
    requires chunks != [] && chunks' != [] && Concat(chunks) == Concat(chunks')
    ensures FeedChunks(p, capacity, buffered, chunks) == FeedChunks(p, capacity, buffered, chunks')
  {
    ChunkIndependence(p, capacity, buffered, chunks);
    ChunkIndependence(p, capacity, buffered, chunks');
  }

  // ---------------------------------------------------------------------
  // Room in the ring
  // ---------------------------------------------------------------------

  /** What a parse leaves: fewer bytes than any frame has, or an incomplete candidate. */
  lemma {:induction false} RestIsStuck(p: Protocol, capacity: nat, s: seq<byte>)
    ensures var rest := Parse(p, capacity, s).rest;
            |rest| < OVERHEAD || Judge(p, capacity, rest) == Wait
    ensures Parse(p, capacity, Parse(p, capacity, s).rest) == Parsed([], Parse(p, capacity, s).rest, 0)
  {
    if OVERHEAD <= |s| {
      match Judge(p, capacity, s)
      case Skip => RestIsStuck(p, capacity, s[1..]);
      case BadChecksum => RestIsStuck(p, capacity, s[1..]);
      case Wait =>
      case Accept(total) => RestIsStuck(p, capacity, s[total..]);
    }
  }

  /** At most one byte less than the largest frame stays buffered. */
  lemma ResidueBound(p: Protocol, capacity: nat, s: seq<byte>)
    ensures |Parse(p, capacity, s).rest| <= p.maxPayload + OVERHEAD - 1
  {
    RestIsStuck(p, capacity, s);
  }

  /** A ring of eight or more never stays full: whatever it held, parsing makes room. */
  lemma ParsingMakesRoom(p: Protocol, capacity: nat, s: seq<byte>)
    requires 8 <= capacity
    ensures |Parse(p, capacity, s).rest| < capacity - 1
  {
    RestIsStuck(p, capacity, s);
  }

  // ---------------------------------------------------------------------
  // Soundness and completeness
  // ---------------------------------------------------------------------

  function FrameSize(pkt: Packet): nat
  {
    |pkt.payload| + OVERHEAD
  }

  /** A well-formed frame carrying `pkt`, small enough for the ring, stands at offset `i` of `s`. */
  ghost predicate FrameAt(p: Protocol, capacity: nat, s: seq<byte>, i: nat, pkt: Packet)
  {
    && i + FrameSize(pkt) <= |s|
    && FrameSize(pkt) <= capacity - 1
    && IsFrame(p, s[i..i + FrameSize(pkt)], pkt)
  }

  /** The parser accepts at the head of the stream exactly when a well-formed frame stands there. */
  lemma AcceptIffFrame(p: Protocol, capacity: nat, s: seq<byte>)
    requires Valid(p) && OVERHEAD <= |s|
    ensures Judge(p, capacity, s).Accept? <==> exists pkt :: FrameAt(p, capacity, s, 0, pkt)
    ensures Judge(p, capacity, s).Accept? ==> FrameAt(p, capacity, s, 0, HeadPacket(s))
  {
    if Judge(p, capacity, s).Accept? {
      AcceptedIsFrame(p, capacity, s);
    }
    forall pkt | FrameAt(p, capacity, s, 0, pkt)
      ensures Judge(p, capacity, s).Accept?
    {
      FrameIsAccepted(p, capacity, s, pkt);
    }
  }

  lemma AcceptedIsFrame(p: Protocol, capacity: nat, s: seq<byte>)
    requires OVERHEAD <= |s| && Judge(p, capacity, s).Accept?
    ensures FrameAt(p, capacity, s, 0, HeadPacket(s))
  {
    var total := s[3] + OVERHEAD;
    var pkt := HeadPacket(s);
    var covered := Covered(pkt.id, pkt.payload);
    assert s[2..total - 1] == covered;
    assert s[..total - 1] == [p.header1, p.header2] + covered;
    var frame := FrameOf(p, pkt.id, pkt.payload);
    assert frame[..total - 1] == [p.header1, p.header2] + covered;
    assert s[0..total][..total - 1] == s[..total - 1];
    if p.algo != NoChecksum {
      assert s[0..total] == s[..total - 1] + [s[total - 1]];
      assert frame == frame[..total - 1] + [frame[total - 1]];
    }
  }

  lemma FrameIsAccepted(p: Protocol, capacity: nat, s: seq<byte>, pkt: Packet)
    requires Valid(p) && FrameAt(p, capacity, s, 0, pkt)
    ensures Judge(p, capacity, s) == Accept(FrameSize(pkt)) && HeadPacket(s) == pkt
  {
    var total := FrameSize(pkt);
    var frame := FrameOf(p, pkt.id, pkt.payload);
    var covered := Covered(pkt.id, pkt.payload);
    var f := s[0..total];
    assert frame[..total - 1] == [p.header1, p.header2] + covered;
    assert forall k | 0 <= k < total - 1 :: s[k] == f[..total - 1][k];
    assert s[0] == p.header1 && s[1] == p.header2;
    assert s[2] == covered[0] && s[3] == covered[1];
    assert s[4..4 + s[3]] == pkt.payload;
    assert s[2..total - 1] == covered;
    if p.algo != NoChecksum {
      assert s[total - 1] == f[total - 1] == frame[total - 1];
    }
  }

  /** The head of the stream announces a message of the protocol that the ring can hold. */
  predicate Announces(p: Protocol, capacity: nat, s: seq<byte>)
    requires OVERHEAD <= |s|
  {
    && s[0] == p.header1 && s[1] == p.header2
    && s[3] > 0 && s[3] == ExpectedSize(p, s[2]) && s[3] <= p.maxPayload && s[3] + OVERHEAD < capacity
  }

  lemma JudgedByFrame(p: Protocol, capacity: nat, s: seq<byte>)
    requires Valid(p) && OVERHEAD <= |s|
    ensures var total := s[3] + OVERHEAD;
            Judge(p, capacity, s)
            == if !Announces(p, capacity, s) then Skip
               else if |s| < total then Wait
               else if IsFrame(p, s[..total], Packet(s[2], s[4..4 + s[3]])) then Accept(total)
               else BadChecksum
  {
    hide FrameOf, Checksum;
    var total := s[3] + OVERHEAD;
    if Announces(p, capacity, s) && total <= |s| {
      var pkt := Packet(s[2], s[4..4 + s[3]]);
      assert s[..total] == s[0..total];
      if Judge(p, capacity, s).Accept? {
        AcceptedIsFrame(p, capacity, s);
      } else if IsFrame(p, s[..total], pkt) {
        FrameIsAccepted(p, capacity, s, pkt);
      }
    }
  }

  /** What the head means for the whole parse. An announced message is waited for; once complete it
      is delivered if it is a frame, and otherwise counts as one error. What announces nothing is
      passed over byte by byte and is no error. */
  lemma HeadDecides(p: Protocol, capacity: nat, s: seq<byte>)
    requires Valid(p) && OVERHEAD <= |s|
    ensures var total := s[3] + OVERHEAD;
            var next := Parse(p, capacity, s[1..]);
            if !Announces(p, capacity, s) then Parse(p, capacity, s) == next
            else if |s| < total then Parse(p, capacity, s) == Parsed([], s, 0)
            else
              var pkt := Packet(s[2], s[4..4 + s[3]]);
              var after := Parse(p, capacity, s[total..]);
              Parse(p, capacity, s)
              == if IsFrame(p, s[..total], pkt) then after.(packets := [pkt] + after.packets)
                 else next.(errors := next.errors + 1)
  {
    hide Judge, Parse, IsFrame, Announces;
    JudgedByFrame(p, capacity, s);
    if Judge(p, capacity, s) == Wait {
      ParseWaits(p, capacity, s);
    } else {
      ParseStep(p, capacity, s);
    }
  }

  /** Where the delivered frames start; `base` is the offset of `s` in the whole stream. */
  function Starts(p: Protocol, capacity: nat, s: seq<byte>, base: nat): seq<nat>
  {
    if |s| < OVERHEAD then []
    else match Judge(p, capacity, s)
      case Skip => Starts(p, capacity, s[1..], base + 1)
      case BadChecksum => Starts(p, capacity, s[1..], base + 1)
      case Wait => []
      case Accept(total) => [base] + Starts(p, capacity, s[total..], base + total)
  }

  lemma FrameAtShift(p: Protocol, capacity: nat, s: seq<byte>, n: nat, i: nat, pkt: Packet)
    requires n <= |s|
    ensures FrameAt(p, capacity, s[n..], i, pkt) <==> FrameAt(p, capacity, s, n + i, pkt)
  {
    if i + FrameSize(pkt) <= |s| - n {
      assert s[n..][i..i + FrameSize(pkt)] == s[n + i..n + i + FrameSize(pkt)];
    }
  }

  /** The delivered packets are frames of the stream, in order and disjoint; the bytes kept are
      the end of the stream, after the last of them. */
  ghost predicate DeliversFrames(p: Protocol, capacity: nat, s: seq<byte>, base: nat, starts: seq<nat>, r: Parsed)
  {
    && |starts| == |r.packets|
    && |r.rest| <= |s| && r.rest == s[|s| - |r.rest|..]
    && (forall k | 0 <= k < |starts| ::
          && base <= starts[k] && starts[k] + FrameSize(r.packets[k]) <= base + |s| - |r.rest|
          && FrameAt(p, capacity, s, starts[k] - base, r.packets[k]))
    && (forall k | 0 < k < |starts| :: starts[k - 1] + FrameSize(r.packets[k - 1]) <= starts[k])
  }

  lemma {:induction false} Soundness(p: Protocol, capacity: nat, s: seq<byte>, base: nat)
    ensures DeliversFrames(p, capacity, s, base, Starts(p, capacity, s, base), Parse(p, capacity, s))
    decreases |s|, 1
  {
    if OVERHEAD <= |s| && Judge(p, capacity, s) != Wait {
      SoundnessStep(p, capacity, s, base);
    } else {
      hide Judge;
    }
  }

  lemma StartsStep(p: Protocol, capacity: nat, s: seq<byte>, base: nat)
    requires OVERHEAD <= |s| && Judge(p, capacity, s) != Wait
    ensures var v := Judge(p, capacity, s);
            Starts(p, capacity, s, base)
            == (if v.Accept? then [base] else []) + Starts(p, capacity, s[Advance(v)..], base + Advance(v))
  {
    hide Judge;
  }

  lemma {:induction false} SoundnessStep(p: Protocol, capacity: nat, s: seq<byte>, base: nat)
    requires OVERHEAD <= |s| && Judge(p, capacity, s) != Wait
    ensures DeliversFrames(p, capacity, s, base, Starts(p, capacity, s, base), Parse(p, capacity, s))
    decreases |s|, 0
  {
    hide Judge, Parse, Starts, FrameAt;
    var v := Judge(p, capacity, s);
    var n := Advance(v);
    ParseStep(p, capacity, s);
    StartsStep(p, capacity, s, base);
    Soundness(p, capacity, s[n..], base + n);
    var tail, tailStarts := Parse(p, capacity, s[n..]), Starts(p, capacity, s[n..], base + n);
    forall k | 0 <= k < |tailStarts|
      ensures FrameAt(p, capacity, s, tailStarts[k] - base, tail.packets[k])
    {
      FrameAtShift(p, capacity, s, n, tailStarts[k] - (base + n), tail.packets[k]);
    }
    if v.Accept? {
      AcceptedIsFrame(p, capacity, s);
      assert FrameSize(HeadPacket(s)) == n;
    }
  }

  /** Every well-formed frame of the stream that starts before the bytes kept starts at or inside
      a delivered frame, and one that starts where a delivered frame starts is that frame. */
  lemma {:induction false} Completeness(p: Protocol, capacity: nat, s: seq<byte>, base: nat, i: nat, pkt: Packet)
      returns (k: nat)
    requires Valid(p) && FrameAt(p, capacity, s, i, pkt)
    requires i < |s| - |Parse(p, capacity, s).rest|
    ensures var starts, packets := Starts(p, capacity, s, base), Parse(p, capacity, s).packets;
            && |starts| == |packets| && k < |starts|
            && starts[k] <= base + i < starts[k] + FrameSize(packets[k])
            && (starts[k] == base + i ==> packets[k] == pkt)
    decreases |s|
  {
    Soundness(p, capacity, s, base);
    hide Judge, Parse, Starts, FrameAt;
    ParseOfStuck(p, capacity, s);
    ParseStep(p, capacity, s);
    StartsStep(p, capacity, s, base);
    var n := Advance(Judge(p, capacity, s));
    if i == 0 {
      FrameIsAccepted(p, capacity, s, pkt);
      k := 0;
    } else if i < n {
      assert FrameSize(HeadPacket(s)) == n;
      k := 0;
    } else {
      FrameAtShift(p, capacity, s, n, i - n, pkt);
      k := Completeness(p, capacity, s[n..], base + n, i - n, pkt);
      if Judge(p, capacity, s).Accept? {
        k := k + 1;
      }
    }
  }

  lemma ParseOfStuck(p: Protocol, capacity: nat, s: seq<byte>)
    requires |Parse(p, capacity, s).rest| < |s|
    ensures OVERHEAD <= |s| && Judge(p, capacity, s) != Wait
  {
    hide Judge;
  }

  /** With a validated configuration the ring's size is invisible: any two rings that hold the
      largest frame parse every stream alike. */
  lemma {:induction false} CapacityIsInvisible(p: Protocol, capacity: nat, capacity': nat, s: seq<byte>)
    requires p.maxPayload + OVERHEAD <= capacity - 1 && p.maxPayload + OVERHEAD <= capacity' - 1
    ensures Parse(p, capacity, s) == Parse(p, capacity', s)
  {
    if OVERHEAD <= |s| && Judge(p, capacity, s) != Wait {
      var v := Judge(p, capacity, s);
      assert v == Judge(p, capacity', s);
      CapacityIsInvisible(p, capacity, capacity', s[Advance(v)..]);
    }
  }

  // ---------------------------------------------------------------------
  // Clean streams
  // ---------------------------------------------------------------------

  ghost predicate Registered(p: Protocol, pkt: Packet)
  {
    0 < |pkt.payload| <= 255 && |pkt.payload| == ExpectedSize(p, pkt.id)
  }

  ghost function FramesOf(p: Protocol, packets: seq<Packet>): seq<byte>
    requires forall pkt | pkt in packets :: Registered(p, pkt)
  {
    if packets == [] then []
    else
      assert Registered(p, packets[0]);
      FrameOf(p, packets[0].id, packets[0].payload) + FramesOf(p, packets[1..])
  }

  /** A stream of frames parses back to its packets, with nothing left and no error counted. */
  lemma {:induction false} CleanStream(p: Protocol, capacity: nat, packets: seq<Packet>)
    requires Valid(p) && p.maxPayload + OVERHEAD <= capacity - 1
    requires forall pkt | pkt in packets :: Registered(p, pkt)
    ensures Parse(p, capacity, FramesOf(p, packets)) == Parsed(packets, [], 0)
  {
    if packets != [] {
      assert Registered(p, packets[0]);
      var s, frame := FramesOf(p, packets), FrameOf(p, packets[0].id, packets[0].payload);
      CleanStream(p, capacity, packets[1..]);
      assert s[0..|frame|] == frame;
      assert FrameAt(p, capacity, s, 0, packets[0]);
      FrameIsAccepted(p, capacity, s, packets[0]);
      assert s[|frame|..] == FramesOf(p, packets[1..]);
      assert packets == [packets[0]] + packets[1..];
    }
  }

  lemma FrameComesFirst(p: Protocol, capacity: nat, pkt: Packet, tail: seq<byte>)
    requires Valid(p) && p.maxPayload + OVERHEAD <= capacity - 1 && Registered(p, pkt)
    ensures ParseOne(p, capacity, FrameOf(p, pkt.id, pkt.payload) + tail) == Next(Some(pkt), tail, 0)
  {
    var frame := FrameOf(p, pkt.id, pkt.payload);
    var s := frame + tail;
    assert s[0..|frame|] == frame && s[|frame|..] == tail;
    assert FrameAt(p, capacity, s, 0, pkt);
    FrameIsAccepted(p, capacity, s, pkt);
  }

  // ---------------------------------------------------------------------
  // Streams in progress
  // ---------------------------------------------------------------------

  /** `packets` delivered, `kept` buffered and `errors` counted stand for the stream `s`: parsing
      what is kept completes them to the parse of `s`. */
  ghost predicate StandsFor(p: Protocol, capacity: nat, s: seq<byte>, packets: seq<Packet>, kept: seq<byte>,
      errors: nat)
  {
    Parse(p, capacity, s) == Continue(p, capacity, Parsed(packets, kept, errors), [])
  }

  lemma StandsForMore(p: Protocol, capacity: nat, s: seq<byte>, packets: seq<Packet>, kept: seq<byte>, errors: nat,
                      more: seq<byte>, packets': seq<Packet>, kept': seq<byte>, errors': nat)
    requires StandsFor(p, capacity, s, packets, kept, errors)
    requires StandsFor(p, capacity, kept + more, packets', kept', errors')
    ensures StandsFor(p, capacity, s + more, packets + packets', kept', errors + errors')
  {
    hide Parse;
    assert kept + [] == kept && kept' + [] == kept';
    ParseContinues(p, capacity, s, more);
    ParseContinues(p, capacity, kept, more);
    var k := Parse(p, capacity, kept);
    var r := Parse(p, capacity, k.rest + more);
    var r' := Parse(p, capacity, kept');
    assert packets + k.packets + r.packets == packets + (k.packets + r.packets);
    assert packets + (packets' + r'.packets) == packets + packets' + r'.packets;
  }

  lemma StandsForItself(p: Protocol, capacity: nat, s: seq<byte>)
    ensures StandsFor(p, capacity, s, [], s, 0)
  {
    assert s + [] == s;
  }

  lemma ParsedStandsFor(p: Protocol, capacity: nat, s: seq<byte>, more: seq<byte>)
    ensures var r := Parse(p, capacity, s);
            StandsFor(p, capacity, s + more, r.packets, r.rest + more, r.errors)
  {
    hide Parse;
    ParseContinues(p, capacity, s, more);
    var r := Parse(p, capacity, s);
    assert r.rest + more + [] == r.rest + more;
  }

  lemma StandsForFinally(p: Protocol, capacity: nat, s: seq<byte>, packets: seq<Packet>, kept: seq<byte>, errors: nat)
    requires StandsFor(p, capacity, s, packets, kept, errors)
    ensures var r := Parse(p, capacity, kept);
            Parse(p, capacity, s) == Parsed(packets + r.packets, r.rest, errors + r.errors)
  {
    assert kept + [] == kept;
  }
}
