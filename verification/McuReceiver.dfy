/** The byte-at-a-time receiver that is generated for the microcontroller: what one byte does, the
    invariant of every run, recovery after noise, and the messages it makes of whole frames. */
module McuReceiver {
  import opened Checksums
  import opened Wire

  datatype RxState = WaitHeader1 | WaitHeader2 | WaitId | WaitLen | WaitData | WaitCrc

  /** What the receiver does to the outside: run a user callback, or write a frame. */
  datatype Event = Received(id: byte, payload: seq<byte>) | Written(frame: seq<byte>)

  /** The generated program: the wire format, whether it answers handshakes, and its hash. */
  datatype Firmware = Firmware(protocol: Protocol, requireHandshake: bool, hash: seq<byte>)

  datatype Mcu = Mcu(
    state: RxState, buffer: seq<byte>, count: nat, dataLen: byte,
    id: byte, checksum: byte, lastSeq: byte)

  datatype Outcome = Outcome(mcu: Mcu, events: seq<Event>)

  ghost predicate ValidFirmware(fw: Firmware)
  {
    Valid(fw.protocol) && |fw.hash| == 4
  }

  /** The receive buffer holds exactly the largest payload, and the running checksum is the batch
      checksum of ID, length and the payload bytes taken so far. */
  ghost predicate Inv(p: Protocol, m: Mcu)
  {
    && |m.buffer| == p.maxPayload <= 255
    && match m.state
       case WaitLen => m.checksum == Checksum(p.algo, [m.id])
       case WaitData =>
         && m.count < m.dataLen <= p.maxPayload
         && m.checksum == Checksum(p.algo, [m.id, m.dataLen] + m.buffer[..m.count])
       case WaitCrc =>
         && m.count == m.dataLen <= p.maxPayload
         && m.checksum == Checksum(p.algo, [m.id, m.dataLen] + m.buffer[..m.dataLen])
       case _ => true
  }

  /** The acknowledgement frame for a reliable message. */
  function AckFrame(p: Protocol, id: byte, seqNo: byte): seq<byte>
  {
    FrameOf(p, ACK_ID, [id, seqNo])
  }

  /** What the application and the wire see of a message with this ID and wire payload: a reliable
      one is handed over without its sequence byte and then acknowledged; a heartbeat is echoed
      and a handshake answered before the callback; unknown IDs and wrong sizes are ignored. */
  function Dispatched(fw: Firmware, id: byte, payload: seq<byte>): seq<Event>
    requires |payload| <= 255
  {
    var p := fw.protocol;
    if id !in p.sizes || |payload| != p.sizes[id] then []
    else if id in p.reliable && 0 < |payload| then
      var n := |payload| - 1;
      [Received(id, payload[..n]), Written(AckFrame(p, id, payload[n]))]
    else
      (if id == HEARTBEAT_ID then [Written(FrameOf(p, HEARTBEAT_ID, payload))] else [])
      + (if id == HANDSHAKE_ID && fw.requireHandshake && |fw.hash| <= 255
         then [Written(FrameOf(p, HANDSHAKE_ID, fw.hash))] else [])
      + [Received(id, payload)]
  }

  /** One received byte. */
  function Step(fw: Firmware, m: Mcu, b: byte): Outcome
    requires Inv(fw.protocol, m)
    decreases m.state.WaitLen?
  {
    var p := fw.protocol;
    match m.state
    case WaitHeader1 =>
      Outcome(if b == p.header1 then m.(state := WaitHeader2) else m, [])
    case WaitHeader2 =>
      if b == p.header2 then Outcome(m.(state := WaitId), [])
      else if b != p.header1 then Outcome(m.(state := WaitHeader1), [])
      else Outcome(m, [])
    case WaitId =>
      Outcome(m.(state := WaitLen, id := b, checksum := Update(p.algo, 0, b)), [])
    case WaitLen =>
      if b > |m.buffer| then Step(fw, m.(state := WaitHeader1), b)
      else
        Outcome(m.(state := if b > 0 then WaitData else WaitCrc, dataLen := b, count := 0,
                   checksum := Update(p.algo, m.checksum, b)), [])
    case WaitData =>
      var m' := m.(buffer := m.buffer[m.count := b], count := m.count + 1,
                   checksum := Update(p.algo, m.checksum, b));
      Outcome(if m'.count >= m.dataLen then m'.(state := WaitCrc) else m', [])
    case WaitCrc =>
      var m' := m.(state := WaitHeader1);
      if p.algo == NoChecksum || b == m.checksum then
        var payload := m.buffer[..m.dataLen];
        var acked := m.id in p.sizes && m.id in p.reliable && |payload| == p.sizes[m.id] && 0 < |payload|;
        Outcome(if acked then m'.(lastSeq := payload[|payload| - 1]) else m', Dispatched(fw, m.id, payload))
      else Outcome(m', [])
  }

  lemma ChecksumOfOne(algo: Algo, b: byte)
    ensures Checksum(algo, [b]) == Update(algo, 0, b)
  {
    assert [b][..0] == [];
  }

  /** Every byte keeps the invariant. */
  lemma StepKeepsInv(fw: Firmware, m: Mcu, b: byte)
    requires Inv(fw.protocol, m)
    ensures Inv(fw.protocol, Step(fw, m, b).mcu)
  {
    hide Update, Checksum, Dispatched;
    var algo := fw.protocol.algo;
    match m.state
    case WaitId =>
      ChecksumOfOne(algo, b);
    case WaitLen =>
      if b <= |m.buffer| {
        ChecksumAppend(algo, [m.id], b);
        assert [m.id] + [b] == [m.id, b] + m.buffer[..0];
      }
    case WaitData =>
      var sofar := [m.id, m.dataLen] + m.buffer[..m.count];
      ChecksumAppend(algo, sofar, b);
      assert sofar + [b] == [m.id, m.dataLen] + m.buffer[m.count := b][..m.count + 1];
    case _ =>
  }

  /** A stream of received bytes. */
  function Run(fw: Firmware, m: Mcu, s: seq<byte>): (r: Outcome)
    requires Inv(fw.protocol, m)
    ensures Inv(fw.protocol, r.mcu)
  {
    if s == [] then Outcome(m, [])
    else
      var first := Run(fw, m, s[..|s| - 1]);
      StepKeepsInv(fw, first.mcu, s[|s| - 1]);
      var last := Step(fw, first.mcu, s[|s| - 1]);
      Outcome(last.mcu, first.events + last.events)
  }

  lemma RunSnoc(fw: Firmware, m: Mcu, s: seq<byte>, b: byte)
    requires Inv(fw.protocol, m)
    ensures var first := Run(fw, m, s);
            var last := Step(fw, first.mcu, b);
            Run(fw, m, s + [b]) == Outcome(last.mcu, first.events + last.events)
  {
    hide Step;
    assert (s + [b])[..|s|] == s;
  }

  lemma {:induction false} RunAppend(fw: Firmware, m: Mcu, s: seq<byte>, t: seq<byte>)
    requires Inv(fw.protocol, m)
    ensures var first := Run(fw, m, s);
            var last := Run(fw, first.mcu, t);
            Run(fw, m, s + t) == Outcome(last.mcu, first.events + last.events)
  {
    hide Run, Step, Inv;
    var middle := Run(fw, m, s).mcu;
    if t == [] {
      RunNothing(fw, middle);
      assert s + t == s;
    } else {
      var n := |t| - 1;
      RunAppend(fw, m, s, t[..n]);
      assert t[..n] + [t[n]] == t;
      assert s + t == (s + t[..n]) + [t[n]];
      RunSnoc(fw, middle, t[..n], t[n]);
      RunSnoc(fw, m, s + t[..n], t[n]);
    }
  }

  // ---------------------------------------------------------------------
  // Soundness: what is dispatched was received as a frame
  // ---------------------------------------------------------------------

  ghost predicate EndsWith(s: seq<byte>, t: seq<byte>)
  {
    |t| <= |s| && s[|s| - |t|..] == t
  }

  /** The candidate that the receiver is in the middle of is the end of the stream. */
  ghost predicate Tracks(p: Protocol, m: Mcu, s: seq<byte>)
    requires Inv(p, m)
  {
    match m.state
    case WaitHeader1 => true
    case WaitHeader2 => EndsWith(s, [p.header1])
    case WaitId => EndsWith(s, [p.header1, p.header2])
    case WaitLen => EndsWith(s, [p.header1, p.header2, m.id])
    case WaitData => EndsWith(s, [p.header1, p.header2, m.id, m.dataLen] + m.buffer[..m.count])
    case WaitCrc => EndsWith(s, [p.header1, p.header2, m.id, m.dataLen] + m.buffer[..m.dataLen])
  }

  lemma EndsWithMore(s: seq<byte>, t: seq<byte>, b: byte)
    requires EndsWith(s, t)
    ensures EndsWith(s + [b], t + [b])
  {
    assert (s + [b])[|s| - |t|..] == s[|s| - |t|..] + [b];
  }

  lemma TracksStep(fw: Firmware, m: Mcu, s: seq<byte>, b: byte)
    requires Inv(fw.protocol, m) && Tracks(fw.protocol, m, s)
    ensures Inv(fw.protocol, Step(fw, m, b).mcu)
    ensures Tracks(fw.protocol, Step(fw, m, b).mcu, s + [b])
  {
    hide Update, Checksum, Dispatched, EndsWith;
    StepKeepsInv(fw, m, b);
    var p := fw.protocol;
    EndsWithMore(s, [], b);
    assert [] + [b] == [b];
    match m.state
    case WaitHeader1 =>
    case WaitHeader2 =>
      EndsWithMore(s, [p.header1], b);
      assert [p.header1] + [b] == [p.header1, b];
    case WaitId =>
      EndsWithMore(s, [p.header1, p.header2], b);
      assert [p.header1, p.header2] + [b] == [p.header1, p.header2, b];
    case WaitLen =>
      EndsWithMore(s, [p.header1, p.header2, m.id], b);
      assert [p.header1, p.header2, m.id] + [b] == [p.header1, p.header2, m.id, b] + m.buffer[..0];
    case WaitData =>
      var sofar := [p.header1, p.header2, m.id, m.dataLen] + m.buffer[..m.count];
      EndsWithMore(s, sofar, b);
      assert sofar + [b] == [p.header1, p.header2, m.id, m.dataLen] + m.buffer[m.count := b][..m.count + 1];
    case WaitCrc =>
  }

  lemma {:induction false} RunTracks(fw: Firmware, m: Mcu, s: seq<byte>)
    requires Inv(fw.protocol, m) && m.state == WaitHeader1
    ensures Tracks(fw.protocol, Run(fw, m, s).mcu, s)
  {
    hide Step;
    if s != [] {
      var n := |s| - 1;
      RunTracks(fw, m, s[..n]);
      TracksStep(fw, Run(fw, m, s[..n]).mcu, s[..n], s[n]);
      assert s == s[..n] + [s[n]];
    }
  }

  /** Whenever a byte makes the receiver act, the stream received so far ends with a well-formed
      frame, and the actions are those of exactly that frame. */
  lemma ActsOnlyOnFrames(fw: Firmware, m: Mcu, s: seq<byte>, b: byte) returns (pkt: Packet, frame: seq<byte>)
    requires ValidFirmware(fw) && Inv(fw.protocol, m) && m.state == WaitHeader1
    requires Step(fw, Run(fw, m, s).mcu, b).events != []
    ensures IsFrame(fw.protocol, frame, pkt) && EndsWith(s + [b], frame)
    ensures Step(fw, Run(fw, m, s).mcu, b).events == Dispatched(fw, pkt.id, pkt.payload)
  {
    hide Step, Dispatched, IsFrame, EndsWith, Update, Checksum, Run;
    var p := fw.protocol;
    var now := Run(fw, m, s).mcu;
    RunTracks(fw, m, s);
    OnlyCrcActs(fw, now, b);
    CandidateIsFrame(p, now, s, b);
    pkt := Packet(now.id, now.buffer[..now.dataLen]);
    frame := [p.header1, p.header2] + Covered(now.id, pkt.payload) + [b];
  }

  lemma CandidateIsFrame(p: Protocol, m: Mcu, s: seq<byte>, b: byte)
    requires Valid(p) && Inv(p, m) && m.state == WaitCrc && Tracks(p, m, s)
    requires p.algo == NoChecksum || b == m.checksum
    requires m.id in p.sizes && m.dataLen == p.sizes[m.id]
    ensures var payload := m.buffer[..m.dataLen];
            var frame := [p.header1, p.header2] + Covered(m.id, payload) + [b];
            IsFrame(p, frame, Packet(m.id, payload)) && EndsWith(s + [b], frame)
  {
    hide Checksum, EndsWith;
    var payload := m.buffer[..m.dataLen];
    var head := [p.header1, p.header2] + Covered(m.id, payload);
    assert Covered(m.id, payload) == [m.id, m.dataLen] + payload;
    assert head == [p.header1, p.header2, m.id, m.dataLen] + payload;
    EndsWithMore(s, head, b);
    assert (head + [b])[..|head|] == head && FrameOf(p, m.id, payload)[..|head|] == head;
  }

  lemma OnlyCrcActs(fw: Firmware, m: Mcu, b: byte)
    requires ValidFirmware(fw) && Inv(fw.protocol, m) && Step(fw, m, b).events != []
    ensures m.state == WaitCrc && (fw.protocol.algo == NoChecksum || b == m.checksum)
    ensures Step(fw, m, b).events == Dispatched(fw, m.id, m.buffer[..m.dataLen])
    ensures m.id in fw.protocol.sizes && m.dataLen == fw.protocol.sizes[m.id]
  {
    hide Update, Checksum, FrameOf;
  }

  // ---------------------------------------------------------------------
  // Whole frames
  // ---------------------------------------------------------------------

  ghost predicate Idle(p: Protocol, m: Mcu)
  {
    Inv(p, m) && m.state == WaitHeader1
  }

  /** Four header bytes of a frame, from the idle state. */
  lemma HeaderTaken(fw: Firmware, m: Mcu, id: byte, n: byte)
    requires Idle(fw.protocol, m) && n <= fw.protocol.maxPayload
    ensures var r := Run(fw, m, [fw.protocol.header1, fw.protocol.header2, id, n]);
            && r.events == []
            && r.mcu.id == id && r.mcu.dataLen == n && r.mcu.count == 0
            && r.mcu.state == if n > 0 then WaitData else WaitCrc
  {
    hide Update, Checksum, Dispatched, Run;
    var p := fw.protocol;
    RunNothing(fw, m);
    RunSnoc(fw, m, [], p.header1);
    assert [] + [p.header1] == [p.header1];
    RunSnoc(fw, m, [p.header1], p.header2);
    assert [p.header1] + [p.header2] == [p.header1, p.header2];
    RunSnoc(fw, m, [p.header1, p.header2], id);
    assert [p.header1, p.header2] + [id] == [p.header1, p.header2, id];
    RunSnoc(fw, m, [p.header1, p.header2, id], n);
    assert [p.header1, p.header2, id] + [n] == [p.header1, p.header2, id, n];
  }

  lemma RunNothing(fw: Firmware, m: Mcu)
    requires Inv(fw.protocol, m)
    ensures Run(fw, m, []) == Outcome(m, [])
  {
  }

  /** The payload bytes are collected in order. */
  lemma {:induction false} PayloadTaken(fw: Firmware, m: Mcu, payload: seq<byte>)
    requires Inv(fw.protocol, m) && m.state == WaitData && m.count == 0 && |payload| <= m.dataLen
    ensures var r := Run(fw, m, payload);
            && r.events == []
            && r.mcu.id == m.id && r.mcu.dataLen == m.dataLen && r.mcu.count == |payload|
            && r.mcu.state == (if |payload| == m.dataLen then WaitCrc else WaitData)
            && r.mcu.buffer[..|payload|] == payload
  {
    hide Update, Checksum, Dispatched;
    if payload != [] {
      var n := |payload| - 1;
      PayloadTaken(fw, m, payload[..n]);
      var r := Run(fw, m, payload[..n]);
      assert payload == payload[..n] + [payload[n]];
      assert r.mcu.buffer[n := payload[n]][..n + 1] == payload;
    }
  }

  /** A frame received in the idle state is dispatched and leaves the receiver idle. */
  lemma FrameDecoded(fw: Firmware, m: Mcu, id: byte, payload: seq<byte>)
    requires Idle(fw.protocol, m) && |payload| <= fw.protocol.maxPayload
    ensures var r := Run(fw, m, FrameOf(fw.protocol, id, payload));
            r.mcu.state == WaitHeader1 && r.events == Dispatched(fw, id, payload)
  {
    hide Run, Dispatched, Checksum, Update;
    var p := fw.protocol;
    var head := [p.header1, p.header2, id, |payload|];
    HeaderTaken(fw, m, id, |payload|);
    var afterHead := Run(fw, m, head).mcu;
    RunAppend(fw, m, head, payload);
    if payload == [] {
      RunNothing(fw, afterHead);
    } else {
      PayloadTaken(fw, afterHead, payload);
    }
    var before := Run(fw, m, head + payload).mcu;
    assert before.buffer[..before.dataLen] == payload;
    var checksum := Checksum(p.algo, Covered(id, payload));
    assert Covered(id, payload) == [id, |payload|] + payload;
    assert before.checksum == checksum;
    RunSnoc(fw, m, head + payload, checksum);
    assert head + payload == [p.header1, p.header2] + Covered(id, payload);
    assert head + payload + [checksum] == FrameOf(p, id, payload);
  }

  // ---------------------------------------------------------------------
  // Recovery after noise
  // ---------------------------------------------------------------------

  /** How many bytes free of the first header byte may still pass before the receiver is idle. */
  function BytesToIdle(p: Protocol, m: Mcu): (n: nat)
    requires Inv(p, m)
    ensures n <= p.maxPayload + 4
    ensures n == 0 <==> m.state == WaitHeader1
  {
    match m.state
    case WaitHeader1 => 0
    case WaitHeader2 => p.maxPayload + 4
    case WaitId => p.maxPayload + 3
    case WaitLen => p.maxPayload + 2
    case WaitData => m.dataLen - m.count + 1
    case WaitCrc => 1
  }

  lemma StepTowardsIdle(fw: Firmware, m: Mcu, b: byte)
    requires Inv(fw.protocol, m) && b != fw.protocol.header1
    ensures Inv(fw.protocol, Step(fw, m, b).mcu)
    ensures var n := BytesToIdle(fw.protocol, m);
            BytesToIdle(fw.protocol, Step(fw, m, b).mcu) <= if n == 0 then 0 else n - 1
  {
    hide Update, Checksum, Dispatched;
    StepKeepsInv(fw, m, b);
  }

  lemma {:induction false} NoiseEndsIdle(fw: Firmware, m: Mcu, noise: seq<byte>)
    requires Inv(fw.protocol, m)
    requires forall i | 0 <= i < |noise| :: noise[i] != fw.protocol.header1
    ensures var n := BytesToIdle(fw.protocol, m);
            BytesToIdle(fw.protocol, Run(fw, m, noise).mcu) <= if n <= |noise| then 0 else n - |noise|
  {
    hide Step, BytesToIdle, Inv;
    if noise != [] {
      var k := |noise| - 1;
      NoiseEndsIdle(fw, m, noise[..k]);
      StepTowardsIdle(fw, Run(fw, m, noise[..k]).mcu, noise[k]);
    }
  }

  /** From any state, `maxPayload + 4` bytes free of the first header byte bring the receiver back
      to idle, and the next frame is decoded in full. */
  lemma Resynchronises(fw: Firmware, m: Mcu, noise: seq<byte>, id: byte, payload: seq<byte>)
    requires Inv(fw.protocol, m) && |payload| <= fw.protocol.maxPayload
    requires fw.protocol.maxPayload + 4 <= |noise|
    requires forall i | 0 <= i < |noise| :: noise[i] != fw.protocol.header1
    ensures Run(fw, m, noise).mcu.state == WaitHeader1
    ensures var r := Run(fw, m, noise + FrameOf(fw.protocol, id, payload));
            && r.mcu.state == WaitHeader1
            && r.events == Run(fw, m, noise).events + Dispatched(fw, id, payload)
  {
    hide Run, Dispatched, FrameOf;
    NoiseEndsIdle(fw, m, noise);
    RunAppend(fw, m, noise, FrameOf(fw.protocol, id, payload));
    FrameDecoded(fw, Run(fw, m, noise).mcu, id, payload);
  }

  // ---------------------------------------------------------------------
  // The generated code
  // ---------------------------------------------------------------------

  class Receiver {
    const firmware: Firmware
    const buffer: array<byte>
    var state: RxState
    var count: nat
    var dataLen: byte
    var id: byte
    var checksum: byte
    var lastSeq: byte
    var events: seq<Event>

    function State(): Mcu
      reads this, buffer
    {
      Mcu(state, buffer[..], count, dataLen, id, checksum, lastSeq)
    }

    constructor (firmware: Firmware)
      requires ValidFirmware(firmware)
      ensures fresh(buffer) && this.firmware == firmware
      ensures Idle(firmware.protocol, State()) && events == []
    {
      this.firmware := firmware;
      buffer := new byte[firmware.protocol.maxPayload](_ => 0);
      state, count, dataLen, id, checksum, lastSeq := WaitHeader1, 0, 0, 0, 0, 0;
      events := [];
    }

    method SendAck()
      modifies this`events
      ensures events == old(events) + [Written(AckFrame(firmware.protocol, id, lastSeq))]
    {
      var frame := Pack(firmware.protocol, ACK_ID, [id, lastSeq]);
      events := events + [Written(frame)];
    }

    /** The per-message switch. */
    method Dispatch()
      requires ValidFirmware(firmware) && Inv(firmware.protocol, State()) && state == WaitCrc
      modifies this`events, this`lastSeq
      ensures events == old(events) + Dispatched(firmware, id, buffer[..dataLen])
      ensures lastSeq == if id in firmware.protocol.reliable && dataLen == firmware.protocol.sizes[id]
                         then buffer[dataLen - 1] else old(lastSeq)
    {
      var p := firmware.protocol;
      if id !in p.sizes {
        return;
      }
      if id in p.reliable {
        if dataLen == p.sizes[id] {
          var structSize := p.sizes[id] - 1;
          events := events + [Received(id, buffer[..structSize])];
          lastSeq := buffer[structSize];
          SendAck();
          assert buffer[..dataLen][..structSize] == buffer[..structSize];
        }
      } else if dataLen == p.sizes[id] {
        if id == HEARTBEAT_ID {
          var echo := Pack(p, HEARTBEAT_ID, buffer[..dataLen]);
          events := events + [Written(echo)];
        }
        if id == HANDSHAKE_ID && firmware.requireHandshake {
          var reply := Pack(p, HANDSHAKE_ID, firmware.hash);
          events := events + [Written(reply)];
        }
        events := events + [Received(id, buffer[..dataLen])];
      }
    }

    method Feed(b: byte)
      requires ValidFirmware(firmware) && Inv(firmware.protocol, State())
      modifies this, buffer
      ensures Inv(firmware.protocol, State())
      ensures State() == Step(firmware, old(State()), b).mcu
      ensures events == old(events) + Step(firmware, old(State()), b).events
      decreases state.WaitLen?
    {
      hide Update, Checksum, Dispatched, FrameOf;
      StepKeepsInv(firmware, State(), b);
      var p := firmware.protocol;
      match state {
        case WaitHeader1 =>
          if b == p.header1 {
            state := WaitHeader2;
          }
        case WaitHeader2 =>
          if b == p.header2 {
            state := WaitId;
          } else if b != p.header1 {
            state := WaitHeader1;
          }
        case WaitId =>
          id := b;
          checksum := Update(p.algo, 0, id);
          state := WaitLen;
        case WaitLen =>
          if b > buffer.Length {
            state := WaitHeader1;
            Feed(b);
            return;
          }
          dataLen := b;
          checksum := Update(p.algo, checksum, dataLen);
          count := 0;
          state := if dataLen > 0 then WaitData else WaitCrc;
        case WaitData =>
          buffer[count] := b;
          count := count + 1;
          checksum := Update(p.algo, checksum, b);
          if count >= dataLen {
            state := WaitCrc;
          }
        case WaitCrc =>
          if p.algo == NoChecksum || b == checksum {
            Dispatch();
          }
          state := WaitHeader1;
      }
    }
  }
}
