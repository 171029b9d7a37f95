/** The wire format: what the generated configuration fixes about a link, the frames that both
    ends put on it, and the sequence byte that reliable frames carry. */
module Wire {
  import opened Checksums

  const ACK_ID: byte := 0xFD
  const HEARTBEAT_ID: byte := 0xFE
  const HANDSHAKE_ID: byte := 0xFF

  /** Bytes of a frame around its payload: two headers, ID, length and checksum. */
  const OVERHEAD: nat := 5

  /** The generated configuration. `sizes` gives the wire payload size of every registered ID,
      the sequence byte of reliable ones included; `maxPayload` is the largest of them. */
  datatype Protocol = Protocol(
    header1: byte, header2: byte, algo: Algo,
    sizes: map<byte, nat>, reliable: set<byte>, maxPayload: nat)

  datatype Packet = Packet(id: byte, payload: seq<byte>)

  /** What validation guarantees of a generated configuration. The two header bytes may be equal. */
  ghost predicate Valid(p: Protocol)
  {
    && ACK_ID in p.sizes && p.sizes[ACK_ID] == 2
    && HEARTBEAT_ID in p.sizes && p.sizes[HEARTBEAT_ID] == 4
    && HANDSHAKE_ID in p.sizes && p.sizes[HANDSHAKE_ID] == 4
    && p.reliable <= p.sizes.Keys - {ACK_ID, HEARTBEAT_ID, HANDSHAKE_ID}
    && (forall id | id in p.sizes :: 1 <= p.sizes[id] <= p.maxPayload)
    && (forall id | id in p.reliable :: 2 <= p.sizes[id])
    && (exists id :: id in p.sizes && p.sizes[id] == p.maxPayload)
    && p.maxPayload <= 255
  }

  /** Zero for an unregistered ID. */
  function ExpectedSize(p: Protocol, id: byte): nat
  {
    if id in p.sizes then p.sizes[id] else 0
  }

  /** The size of the message structure, without the sequence byte. */
  function StructSize(p: Protocol, id: byte): nat
    requires Valid(p) && id in p.sizes
  {
    if id in p.reliable then p.sizes[id] - 1 else p.sizes[id]
  }

  /** The bytes that the checksum covers. */
  function Covered(id: byte, payload: seq<byte>): (s: seq<byte>)
    requires |payload| <= 255
  {
    [id, |payload|] + payload
  }

  function FrameOf(p: Protocol, id: byte, payload: seq<byte>): (frame: seq<byte>)
    requires |payload| <= 255
    ensures |frame| == |payload| + OVERHEAD
  {
    [p.header1, p.header2] + Covered(id, payload) + [Checksum(p.algo, Covered(id, payload))]
  }

  /** `frame` is a complete well-formed frame carrying `pkt`: registered ID, exact length, and a
      checksum byte that is right wherever the algorithm has one. */
  ghost predicate IsFrame(p: Protocol, frame: seq<byte>, pkt: Packet)
  {
    && 0 < |pkt.payload| <= 255
    && |pkt.payload| == ExpectedSize(p, pkt.id)
    && |frame| == |pkt.payload| + OVERHEAD
    && frame[..|frame| - 1] == FrameOf(p, pkt.id, pkt.payload)[..|frame| - 1]
    && (p.algo == NoChecksum || frame == FrameOf(p, pkt.id, pkt.payload))
  }

  /** The packing routine, byte by byte. */
  method Pack(p: Protocol, id: byte, data: seq<byte>) returns (packet: seq<byte>)
    requires |data| <= 255
    ensures packet == FrameOf(p, id, data)
  {
    packet := [];
    packet := packet + [p.header1];
    packet := packet + [p.header2];
    packet := packet + [id];
    packet := packet + [|data|];
    packet := packet + data;
    assert packet[2..] == Covered(id, data);
    var checksum := CalculateChecksum(p.algo, packet[2..]);
    packet := packet + [checksum];
  }

  // ---------------------------------------------------------------------
  // The trailing sequence byte of reliable frames
  // ---------------------------------------------------------------------

  /** `++` on a uint8. */
  function Increment(b: byte): byte
  {
    if b == 255 then 0 else b + 1
  }

  /** What injection does to any byte string; the length byte is a uint8 and wraps. */
  function Injected(algo: Algo, frame: seq<byte>, seqNo: byte): seq<byte>
  {
    if |frame| < OVERHEAD then frame
    else
      var body := frame[3 := Increment(frame[3])][..|frame| - 1] + [seqNo];
      body + [Checksum(algo, body[2..])]
  }

  method InjectTrailingSeq(algo: Algo, frame: seq<byte>, seqNo: byte) returns (r: seq<byte>)
    ensures r == Injected(algo, frame, seqNo)
  {
    r := frame;
    if |r| < OVERHEAD {
      return;
    }
    r := r[3 := Increment(r[3])];
    r := r[..|r| - 1] + [seqNo] + [r[|r| - 1]];
    var checksum := CalculateChecksum(algo, r[2..|r| - 1]);
    r := r[|r| - 1 := checksum];
  }

  /** Injecting into a packed frame gives the packed frame of the longer payload. */
  lemma InjectionLaw(p: Protocol, id: byte, payload: seq<byte>, seqNo: byte)
    requires |payload| <= 254
    ensures Injected(p.algo, FrameOf(p, id, payload), seqNo) == FrameOf(p, id, payload + [seqNo])
  {
    var frame := FrameOf(p, id, payload);
    var body := frame[3 := Increment(frame[3])][..|frame| - 1] + [seqNo];
    assert frame[3] == |payload|;
    assert body[2..] == Covered(id, payload + [seqNo]);
    assert body == [p.header1, p.header2] + body[2..];
  }

  /** The length byte of an injected frame counts the payload exactly when the packed payload had
      room for one more byte; at 255 bytes it wraps to zero. */
  lemma InjectedLengthByte(p: Protocol, id: byte, payload: seq<byte>, seqNo: byte)
    requires |payload| <= 255
    ensures Injected(p.algo, FrameOf(p, id, payload), seqNo)[3] == |payload| + 1 <==> |payload| <= 254
  {
    if |payload| <= 254 {
      InjectionLaw(p, id, payload, seqNo);
    }
  }

  /** For every validated reliable message: no wrap, a frame the receiver of the same
      configuration accepts, and room for it in a ring sized by validation. */
  lemma ReliableFrame(p: Protocol, id: byte, payload: seq<byte>, seqNo: byte, bufferSize: nat)
    requires Valid(p) && id in p.reliable && |payload| == StructSize(p, id)
    requires p.maxPayload + OVERHEAD <= bufferSize
    ensures |payload| <= 254
    ensures var frame := Injected(p.algo, FrameOf(p, id, payload), seqNo);
            && frame == FrameOf(p, id, payload + [seqNo])
            && frame[3] == ExpectedSize(p, id)
            && |frame| <= bufferSize
            && IsFrame(p, frame, Packet(id, payload + [seqNo]))
  {
    InjectionLaw(p, id, payload, seqNo);
  }

  /** Two frames with the same bytes carry the same ID and payload. */
  lemma FrameDetermines(p: Protocol, id: byte, payload: seq<byte>, id': byte, payload': seq<byte>)
    requires |payload| <= 255 && |payload'| <= 255
    requires FrameOf(p, id, payload) == FrameOf(p, id', payload')
    ensures id == id' && payload == payload'
  {
    var frame := FrameOf(p, id, payload);
    assert frame[2] == id && frame[4..4 + |payload|] == payload;
    var frame' := FrameOf(p, id', payload');
    assert frame'[2] == id' && frame'[4..4 + |payload'|] == payload';
  }
}
