/** The two ends agree: what the host packs the microcontroller decodes, and what the generated
    senders write the host parses back. */
module LinkAgreement {
  import opened Checksums
  import opened Wire
  import opened StreamParser
  import opened McuReceiver

  /** A message handed to the host's sending side; `seqNo` matters for reliable IDs only. */
  datatype Outgoing = Outgoing(id: byte, data: seq<byte>, seqNo: byte)

  ghost predicate Sendable(p: Protocol, m: Outgoing)
    requires Valid(p)
  {
    m.id in p.sizes && |m.data| == StructSize(p, m.id)
  }

  /** The bytes the host writes: packed, and for a reliable ID injected with the sequence byte. */
  ghost function HostFrame(p: Protocol, m: Outgoing): seq<byte>
    requires Valid(p) && Sendable(p, m)
  {
    var packed := FrameOf(p, m.id, m.data);
    if m.id in p.reliable then Injected(p.algo, packed, m.seqNo) else packed
  }

  /** What the message is meant to do at the other end: exactly one callback with the message's
      own bytes; an acknowledgement of this ID and sequence byte if it is reliable; the echo or
      the answer if it is a heartbeat or a handshake. */
  ghost function Effect(fw: Firmware, m: Outgoing): seq<Event>
    requires ValidFirmware(fw) && Sendable(fw.protocol, m)
  {
    var p := fw.protocol;
    if m.id in p.reliable then [Received(m.id, m.data), Written(AckFrame(p, m.id, m.seqNo))]
    else if m.id == HEARTBEAT_ID then [Written(FrameOf(p, HEARTBEAT_ID, m.data)), Received(m.id, m.data)]
    else if m.id == HANDSHAKE_ID && fw.requireHandshake then
      [Written(FrameOf(p, HANDSHAKE_ID, fw.hash)), Received(m.id, m.data)]
    else [Received(m.id, m.data)]
  }

  lemma OneHostFrame(fw: Firmware, m: Mcu, msg: Outgoing)
    requires ValidFirmware(fw) && Idle(fw.protocol, m) && Sendable(fw.protocol, msg)
    ensures var r := Run(fw, m, HostFrame(fw.protocol, msg));
            r.mcu.state == WaitHeader1 && r.events == Effect(fw, msg)
  {
    hide Run, FrameOf;
    var p := fw.protocol;
    if msg.id in p.reliable {
      InjectionLaw(p, msg.id, msg.data, msg.seqNo);
      var payload := msg.data + [msg.seqNo];
      FrameDecoded(fw, m, msg.id, payload);
      assert payload[..|payload| - 1] == msg.data;
    } else {
      FrameDecoded(fw, m, msg.id, msg.data);
    }
  }

  ghost function HostStream(p: Protocol, msgs: seq<Outgoing>): seq<byte>
    requires Valid(p) && forall msg | msg in msgs :: Sendable(p, msg)
  {
    if msgs == [] then []
    else
      assert Sendable(p, msgs[|msgs| - 1]);
      HostStream(p, msgs[..|msgs| - 1]) + HostFrame(p, msgs[|msgs| - 1])
  }

  ghost function Effects(fw: Firmware, msgs: seq<Outgoing>): seq<Event>
    requires ValidFirmware(fw) && forall msg | msg in msgs :: Sendable(fw.protocol, msg)
  {
    if msgs == [] then []
    else
      assert Sendable(fw.protocol, msgs[|msgs| - 1]);
      Effects(fw, msgs[..|msgs| - 1]) + Effect(fw, msgs[|msgs| - 1])
  }

  /** Host to microcontroller: any run of host frames yields exactly their effects, in order. */
  lemma {:induction false} HostToMcu(fw: Firmware, m: Mcu, msgs: seq<Outgoing>)
    requires ValidFirmware(fw) && Idle(fw.protocol, m)
    requires forall msg | msg in msgs :: Sendable(fw.protocol, msg)
    ensures var r := Run(fw, m, HostStream(fw.protocol, msgs));
            r.mcu.state == WaitHeader1 && r.events == Effects(fw, msgs)
  {
    hide Run, Effect, HostFrame, Sendable;
    if msgs == [] {
      RunNothing(fw, m);
    } else {
      var n := |msgs| - 1;
      assert Sendable(fw.protocol, msgs[n]);
      HostToMcu(fw, m, msgs[..n]);
      var sofar := HostStream(fw.protocol, msgs[..n]);
      RunAppend(fw, m, sofar, HostFrame(fw.protocol, msgs[n]));
      OneHostFrame(fw, Run(fw, m, sofar).mcu, msgs[n]);
    }
  }

  // ---------------------------------------------------------------------
  // Microcontroller to host
  // ---------------------------------------------------------------------

  /** The generated `send_X`: fills a buffer of exactly the frame's size. Every message of the
      configuration gets one, the reliable ones too, and it never adds a sequence byte. */
  method SendFromMcu(p: Protocol, id: byte, data: seq<byte>) returns (buffer: array<byte>)
    requires Valid(p) && id in p.sizes && |data| == StructSize(p, id)
    ensures fresh(buffer) && buffer[..] == FrameOf(p, id, data)
  {
    buffer := new byte[4 + |data| + 1](_ => 0);
    var idx := 0;
    buffer[idx] := p.header1;
    idx := idx + 1;
    buffer[idx] := p.header2;
    idx := idx + 1;
    buffer[idx] := id;
    idx := idx + 1;
    buffer[idx] := |data|;
    idx := idx + 1;
    forall i | 0 <= i < |data| {
      buffer[idx + i] := data[i];
    }
    idx := idx + |data|;
    assert buffer[2..idx] == Covered(id, data);
    var checksum := CalculateChecksum(p.algo, buffer[2..idx]);
    buffer[idx] := checksum;
    hide Checksum;
    assert buffer[2..idx] == Covered(id, data);
    assert buffer[..] == [buffer[0], buffer[1]] + buffer[2..idx] + [buffer[idx]];
  }

  ghost predicate FromMcu(p: Protocol, pkt: Packet)
    requires Valid(p)
  {
    pkt.id in p.sizes && |pkt.payload| == StructSize(p, pkt.id)
  }

  ghost function McuStream(p: Protocol, packets: seq<Packet>): seq<byte>
    requires Valid(p) && forall pkt | pkt in packets :: FromMcu(p, pkt)
  {
    if packets == [] then []
    else
      assert FromMcu(p, packets[0]);
      FrameOf(p, packets[0].id, packets[0].payload) + McuStream(p, packets[1..])
  }

  lemma {:induction false} McuStreamIsFrames(p: Protocol, packets: seq<Packet>)
    requires Valid(p) && forall pkt | pkt in packets :: FromMcu(p, pkt) && pkt.id !in p.reliable
    ensures forall pkt | pkt in packets :: Registered(p, pkt)
    ensures McuStream(p, packets) == FramesOf(p, packets)
  {
    if packets != [] {
      McuStreamIsFrames(p, packets[1..]);
    }
  }

  /** Every delivered packet has the size its ID is registered with. */
  lemma DeliveredIsRegistered(p: Protocol, capacity: nat, s: seq<byte>, k: nat)
    requires k < |Parse(p, capacity, s).packets|
    ensures Registered(p, Parse(p, capacity, s).packets[k])
  {
    Soundness(p, capacity, s, 0);
  }

  /** A run of generated senders is parsed back to the same packets with nothing left over exactly
      when none of them sends a reliable message: those the host expects with a sequence byte. */
  lemma McuToHost(p: Protocol, capacity: nat, packets: seq<Packet>)
    requires Valid(p) && p.maxPayload + OVERHEAD <= capacity - 1
    requires forall pkt | pkt in packets :: FromMcu(p, pkt)
    ensures Parse(p, capacity, McuStream(p, packets)) == Parsed(packets, [], 0)
       <==> forall pkt | pkt in packets :: pkt.id !in p.reliable
  {
    if forall pkt | pkt in packets :: pkt.id !in p.reliable {
      McuStreamIsFrames(p, packets);
      CleanStream(p, capacity, packets);
    } else if Parse(p, capacity, McuStream(p, packets)).packets == packets {
      var pkt :| pkt in packets && pkt.id in p.reliable;
      var k :| 0 <= k < |packets| && packets[k] == pkt;
      DeliveredIsRegistered(p, capacity, McuStream(p, packets), k);
    }
  }

  // ---------------------------------------------------------------------
  // There and back
  // ---------------------------------------------------------------------

  lemma OneFrameParses(p: Protocol, capacity: nat, pkt: Packet)
    requires Valid(p) && p.maxPayload + OVERHEAD <= capacity - 1 && Registered(p, pkt)
    ensures Parse(p, capacity, FrameOf(p, pkt.id, pkt.payload)) == Parsed([pkt], [], 0)
  {
    CleanStream(p, capacity, [pkt]);
    var frame := FrameOf(p, pkt.id, pkt.payload);
    assert [pkt][1..] == [] && FramesOf(p, []) == [];
    assert FramesOf(p, [pkt]) == frame + FramesOf(p, [pkt][1..]);
    assert frame + [] == frame;
  }

  /** The acknowledgement of a reliable message comes back as one ACK packet with its ID and
      sequence byte. */
  lemma AckComesBack(fw: Firmware, m: Mcu, capacity: nat, msg: Outgoing)
    requires ValidFirmware(fw) && Idle(fw.protocol, m) && Sendable(fw.protocol, msg)
    requires msg.id in fw.protocol.reliable && fw.protocol.maxPayload + OVERHEAD <= capacity - 1
    ensures var events := Run(fw, m, HostFrame(fw.protocol, msg)).events;
            && |events| == 2 && events[0] == Received(msg.id, msg.data) && events[1].Written?
            && Parse(fw.protocol, capacity, events[1].frame)
               == Parsed([Packet(ACK_ID, [msg.id, msg.seqNo])], [], 0)
  {
    hide Run, Parse, FrameOf;
    OneHostFrame(fw, m, msg);
    OneFrameParses(fw.protocol, capacity, Packet(ACK_ID, [msg.id, msg.seqNo]));
  }

  /** A heartbeat comes back with the count it was sent with. */
  lemma HeartbeatComesBack(fw: Firmware, m: Mcu, capacity: nat, count: seq<byte>)
    requires ValidFirmware(fw) && Idle(fw.protocol, m) && |count| == 4
    requires fw.protocol.maxPayload + OVERHEAD <= capacity - 1
    ensures var events := Run(fw, m, FrameOf(fw.protocol, HEARTBEAT_ID, count)).events;
            && |events| == 2 && events[0].Written?
            && Parse(fw.protocol, capacity, events[0].frame) == Parsed([Packet(HEARTBEAT_ID, count)], [], 0)
  {
    hide Run, Parse, FrameOf;
    OneHostFrame(fw, m, Outgoing(HEARTBEAT_ID, count, 0));
    OneFrameParses(fw.protocol, capacity, Packet(HEARTBEAT_ID, count));
  }
}
