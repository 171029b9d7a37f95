/** The controller and the microcontroller in conversation: a probe is answered and admits the link,
    a heartbeat is echoed and ends the wait. */
module Conversation {
  import opened Checksums
  import opened Wire
  import P = StreamParser
  import M = McuReceiver
  import A = LinkAgreement
  import H = Heartbeat
  import S = SerialControl

  /** What the host gets back for a frame that an idle microcontroller receives. */
  ghost function Replies(fw: M.Firmware, m: M.Mcu, capacity: nat, frame: seq<byte>): seq<Packet>
    requires M.ValidFirmware(fw) && M.Inv(fw.protocol, m)
  {
    var events := M.Run(fw, m, frame).events;
    if events != [] && events[0].Written? then P.Parse(fw.protocol, capacity, events[0].frame).packets else []
  }

  /** The answer to the controller's handshake probe, where the microcontroller answers at all, is
      one packet, and it brings the waiting link up exactly when the hashes agree or a mismatch is
      to be ignored. */
  lemma ProbeAdmits(cfg: S.Config, fw: M.Firmware, m: M.Mcu, s: S.Controller, heardOn: nat)
    requires M.ValidFirmware(fw) && M.Idle(fw.protocol, m) && fw.protocol == cfg.protocol
    requires fw.protocol.maxPayload + OVERHEAD <= cfg.capacity - 1
    requires fw.requireHandshake && cfg.requireHandshake && s.connected && !s.running
    ensures var replies := Replies(fw, m, cfg.capacity, S.HandshakeFrame(cfg));
            && replies == [Packet(HANDSHAKE_ID, fw.hash)]
            && (S.HandlePacket(cfg, s, S.Arrival(replies[0], S.NoFault), heardOn).running
                <==> S.WordOf(fw.hash) == cfg.localHash || cfg.ignoreVersionMismatch)
  {
    hide M.Run, P.Parse, FrameOf, S.WordOf, S.BytesOf;
    var p := fw.protocol;
    var probe := A.Outgoing(HANDSHAKE_ID, S.BytesOf(cfg.localHash), 0);
    A.OneHostFrame(fw, m, probe);
    A.OneFrameParses(p, cfg.capacity, Packet(HANDSHAKE_ID, fw.hash));
  }

  /** The echo of a heartbeat is one packet with the same count, and it ends the wait exactly when
      that is still the last count sent. */
  lemma EchoEndsTheWait(cfg: S.Config, fw: M.Firmware, m: M.Mcu, s: S.Controller, count: H.word32,
                        fault: S.Fault, heardOn: nat)
    requires M.ValidFirmware(fw) && M.Idle(fw.protocol, m) && fw.protocol == cfg.protocol
    requires fw.protocol.maxPayload + OVERHEAD <= cfg.capacity - 1
    requires s.running && s.beat.awaiting
    ensures var replies := Replies(fw, m, cfg.capacity, S.HeartbeatFrame(cfg, count));
            && replies == [Packet(HEARTBEAT_ID, S.BytesOf(count))]
            && (!S.HandlePacket(cfg, s, S.Arrival(replies[0], fault), heardOn).beat.awaiting
                <==> count == s.beat.lastTx)
  {
    hide M.Run, P.Parse, FrameOf, S.WordOf, S.BytesOf;
    A.HeartbeatComesBack(fw, m, cfg.capacity, S.BytesOf(count));
    S.WordsRoundTrip(count, []);
  }
}
