/** The published ready value against the link's state, over whole runs of the controller. */
module ReadyTopic {
  import opened Checksums
  import opened Wire
  import opened StreamParser
  import opened SerialControl
  import opened ControllerChunk
  import opened ControllerSafety
  import H = Heartbeat
  import R = ReliableSending

  /** What subscribers last heard is that the link is connected and running. */
  predicate ReadyOk(s: Controller)
  {
    s.ready == (s.connected && s.running)
  }

  /** Messages on the topic alternate, beginning with false; the last one is the ready value. */
  ghost predicate Alternates(published: seq<bool>, ready: bool)
  {
    && published != [] && !published[0] && published[|published| - 1] == ready
    && forall i | 0 < i < |published| :: published[i] != published[i - 1]
  }

  /** The ready value follows the running state where handshakes are required, and the connection
      where they are not. */
  ghost predicate Coupled(cfg: Config, s: Controller)
  {
    && (if cfg.requireHandshake then s.ready == s.running else s.running && s.ready == s.connected)
    && Alternates(s.published, s.ready)
  }

  ghost predicate Lit(cfg: Config, s: Controller)
  {
    Coupled(cfg, s) && (cfg.requireHandshake && s.running ==> s.connected)
  }

  lemma LitIsReadyOk(cfg: Config, s: Controller)
    requires Coupled(cfg, s)
    ensures Lit(cfg, s) <==> ReadyOk(s)
  {
  }

  ghost predicate SameSign(s: Controller, s': Controller)
  {
    s'.connected == s.connected && s'.running == s.running && s'.ready == s.ready && s'.published == s.published
  }

  lemma PublishAlternates(s: Controller, ready: bool)
    requires Alternates(s.published, s.ready)
    ensures Alternates(PublishReady(s, ready).published, ready) && PublishReady(s, ready).ready == ready
  {
  }

  lemma ResetLit(cfg: Config, s: Controller)
    requires Alternates(s.published, s.ready)
    ensures Lit(cfg, Reset(cfg, s)) && !Reset(cfg, s).connected
    ensures SameSign(s, CompleteOp(s))
  {
    hide SettleAll, Alternates;
    PublishAlternates(s, false);
  }

  /** The state keeps its sign, or the link has been reset. */
  ghost predicate SameOrReset(cfg: Config, s: Controller, s': Controller)
  {
    SameSign(s, s') || (Lit(cfg, s') && !s'.connected)
  }

  lemma StartReceiveLit(cfg: Config, s: Controller, throws: bool)
    requires Alternates(s.published, s.ready)
    ensures SameOrReset(cfg, s, StartReceive(cfg, s, throws))
  {
    hide Reset, CompleteOp, Alternates;
    var s1 := s.(pendingOps := s.pendingOps + 1);
    ResetLit(cfg, s1);
    ResetLit(cfg, CompleteOp(s1));
  }

  lemma StartNextWriteLit(cfg: Config, s: Controller, fault: Fault)
    requires Alternates(s.published, s.ready)
    ensures SameOrReset(cfg, s, StartNextWrite(cfg, s, fault))
  {
    hide Reset, CompleteOp, SettleAll, Alternates;
    var s1 := s.(writing := true, pendingOps := s.pendingOps + 1);
    ResetLit(cfg, s1);
    ResetLit(cfg, CompleteOp(s1).(writing := false));
  }

  lemma AsyncSendLit(cfg: Config, s: Controller, bytes: seq<byte>, ticket: Option<R.Completion>, fault: Fault)
    requires Alternates(s.published, s.ready)
    ensures SameOrReset(cfg, s, AsyncSend(cfg, s, bytes, ticket, fault))
  {
    hide Reset, StartNextWrite, Settle, Submit, Alternates, Lit;
    var ledger, request := Submit(s.ledger, ticket), Request(s.ledger.submitted, bytes);
    ResetLit(cfg, s.(ledger := Settle(ledger, request, false)));
    StartNextWriteLit(
      cfg, s.(ledger := ledger, queue := s.queue + [request], trace := s.trace + [Enqueued(s.generation, bytes)]),
          fault);
  }

  lemma HandOverLit(cfg: Config, s: Controller, sender: R.Sender, key: byte, fault: Fault)
    requires Alternates(s.published, s.ready)
    ensures SameOrReset(cfg, s, HandOver(cfg, s, sender, key, fault))
  {
    hide AsyncSend, Alternates, Lit;
    if R.HasFront(sender, key) {
      var front := R.Front(sender, key);
      AsyncSendLit(
        cfg, s.(ledger := s.ledger.(sender := sender)), front.bytes,
        Some(R.Completion(key, front.seqNo, front.generation)), fault);
    }
  }

  lemma HandleWriteLit(cfg: Config, s: Controller, op: Op, outcome: Outcome, fault: Fault)
    requires Alternates(s.published, s.ready) && op.Writing?
    ensures SameOrReset(cfg, s, HandleWrite(cfg, s, op, outcome, fault))
  {
    hide Reset, StartNextWrite, Settle, CompleteOp, Alternates, Lit;
    ResetLit(cfg, s);
    var s1 := CompleteOp(s);
    var rest := if s1.queue != [] && s1.queue[0] == op.request then s1.queue[1..] else s1.queue;
    var s2 := s1.(writing := false, queue := rest, ledger := Settle(s1.ledger, op.request, outcome.Succeeded?));
    StartNextWriteLit(cfg, s2, fault);
    ResetLit(cfg, s2);
  }

  // ---------------------------------------------------------------------
  // One packet
  // ---------------------------------------------------------------------

  predicate IsAdmission(cfg: Config, pkt: Packet)
  {
    pkt.id == HANDSHAKE_ID && Admits(cfg, pkt.payload)
  }

  /** The packet acknowledges a message behind which another one waits to be sent. */
  predicate SendsNext(s: Controller, pkt: Packet)
  {
    && pkt.id == ACK_ID && |pkt.payload| == 2
    && R.Accepts(s.ledger.sender, pkt.payload[0], pkt.payload[1])
    && var queue := s.ledger.sender.pending[pkt.payload[0]];
       |queue| > 1 && !queue[1].inProgress
  }

  /** The frame it then hands over. */
  function NextFrame(cfg: Config, s: Controller, pkt: Packet): seq<byte>
    requires SendsNext(s, pkt)
  {
    var next := s.ledger.sender.pending[pkt.payload[0]][1];
    if next.numbered then next.bytes else Injected(cfg.protocol.algo, next.bytes, s.ledger.sender.counter)
  }

  /** A frame may be queued, and cannot be. */
  predicate SendFails(cfg: Config, s: Controller, bytes: seq<byte>, fault: Fault)
  {
    && Usable(s) && !Blocked(cfg, s, bytes) && |s.queue| < MAX_TX_QUEUE_SIZE
    && (fault == NoMemory || (fault == NoWrite && !s.writing))
  }

  /** Handling the packet sends a frame, and that fails: the guard of the exceptions' branch. */
  predicate Breaks(cfg: Config, s: Controller, a: Arrival)
  {
    SendsNext(s, a.pkt) && SendFails(cfg, s, NextFrame(cfg, s, a.pkt), a.fault)
  }

  lemma NextIsSent(cfg: Config, s: Controller, pkt: Packet)
    requires pkt.id == ACK_ID && |pkt.payload| == 2
    ensures var id := pkt.payload[0];
            var sender := R.OnAckReceived(SenderSettings(cfg), s.ledger.sender, id, pkt.payload[1]);
            && (SendsNext(s, pkt) <==> |sender.sent| > |s.ledger.sender.sent|)
            && (SendsNext(s, pkt) ==> R.HasFront(sender, id) && R.Front(sender, id).bytes == NextFrame(cfg, s, pkt))
  {
    hide Injected, Increment, R.NextGeneration;
  }

  lemma StartNextWriteFails(cfg: Config, s: Controller, fault: Fault)
    requires s.queue != [] && Usable(s)
    ensures !StartNextWrite(cfg, s, fault).connected <==> fault == NoWrite && !s.writing
    ensures !StartNextWrite(cfg, s, fault).connected ==> StartNextWrite(cfg, s, fault).buffer == []
  {
    hide Reset, CompleteOp, SettleAll;
  }

  lemma AsyncSendSign(cfg: Config, s: Controller, bytes: seq<byte>, ticket: Option<R.Completion>, fault: Fault)
    ensures var r := AsyncSend(cfg, s, bytes, ticket, fault);
            && (s.connected ==> (!r.connected <==> SendFails(cfg, s, bytes, fault)))
            && (s.connected && !r.connected ==> r.buffer == [])
            && (!s.connected ==> r == s.(ledger := r.ledger))
  {
    hide Reset, StartNextWrite, Settle, Submit;
    var ledger, request := Submit(s.ledger, ticket), Request(s.ledger.submitted, bytes);
    var queued := s.(ledger := ledger, queue := s.queue + [request],
                     trace := s.trace + [Enqueued(s.generation, bytes)]);
    if Usable(s) {
      StartNextWriteFails(cfg, queued, fault);
    }
  }

  lemma HandleAckSign(cfg: Config, s: Controller, a: Arrival)
    ensures var r := HandleAck(cfg, s, a);
            && (s.connected ==> (!r.connected <==> Breaks(cfg, s, a)))
            && (s.connected && !r.connected ==> r.buffer == [])
            && (!s.connected ==> r == s.(ledger := r.ledger))
  {
    hide AsyncSend, R.OnAckReceived, SendsNext, NextFrame, SendFails, R.Front;
    if a.pkt.id == ACK_ID && |a.pkt.payload| == 2 {
      NextIsSent(cfg, s, a.pkt);
      var id := a.pkt.payload[0];
      var sender := R.OnAckReceived(SenderSettings(cfg), s.ledger.sender, id, a.pkt.payload[1]);
      if R.HasFront(sender, id) {
        var front := R.Front(sender, id);
        var s1 := s.(ledger := s.ledger.(sender := sender));
        AsyncSendSign(cfg, s1, front.bytes, Some(R.Completion(id, front.seqNo, front.generation)), a.fault);
        SendFailsAlike(cfg, s, s1, front.bytes, a.fault);
      }
    } else {
      OnlyAcksSend(s, a.pkt);
    }
  }

  lemma OnlyAcksSend(s: Controller, pkt: Packet)
    ensures SendsNext(s, pkt) ==> pkt.id == ACK_ID && |pkt.payload| == 2
  {
  }

  lemma SendFailsAlike(cfg: Config, s: Controller, s': Controller, bytes: seq<byte>, fault: Fault)
    requires s' == s.(ledger := s'.ledger, beat := s'.beat)
    ensures SendFails(cfg, s', bytes, fault) <==> SendFails(cfg, s, bytes, fault)
  {
  }

  lemma ProcessHandshakeCouples(cfg: Config, s: Controller, payload: seq<byte>, heardOn: nat)
    requires cfg.requireHandshake && Coupled(cfg, s)
    ensures Coupled(cfg, ProcessHandshake(cfg, s, payload, heardOn))
  {
    hide Alternates, Admits;
    PublishAlternates(s, true);
  }

  /** A link that is up goes down exactly when sending breaks it, and then its ring is empty and it
      does not run; a link that is down stays down, keeps its ring and lights up by an admission only. */
  lemma HandlePacketSign(cfg: Config, s: Controller, a: Arrival, heardOn: nat)
    requires cfg.requireHandshake && Coupled(cfg, s)
    ensures var r := HandlePacket(cfg, s, a, heardOn);
            && Coupled(cfg, r)
            && (s.connected ==> (!r.connected <==> Breaks(cfg, s, a)))
            && (s.connected && !r.connected ==> !r.running && r.buffer == [])
            && (!s.connected ==> !r.connected && r.buffer == s.buffer)
            && (!s.connected ==> (r.running <==> s.running || IsAdmission(cfg, a.pkt)))
  {
    hide HandOver, HandleAck, Admits, DispatchPayload, H.Echoed, WordOf, Alternates, SendsNext, NextFrame, SendFails,
         R.OnAckReceived;
    var s0 := HandleEcho(s, a.pkt);
    HandleAckSign(cfg, s0, a);
    EchoBreaksNothing(cfg, s, a);
    HandleAckCouples(cfg, s0, a);
    ProcessHandshakeCouples(cfg, HandleAck(cfg, s0, a), a.pkt.payload, heardOn);
  }

  lemma HandleAckCouples(cfg: Config, s: Controller, a: Arrival)
    requires cfg.requireHandshake && Coupled(cfg, s)
    ensures var r := HandleAck(cfg, s, a);
            Coupled(cfg, r) && (a.pkt.id != ACK_ID ==> r == s) && (s.connected && !r.connected ==> !r.running)
  {
    hide HandOver, Alternates, R.OnAckReceived;
    if |a.pkt.payload| == 2 {
      var id, seqNo := a.pkt.payload[0], a.pkt.payload[1];
      HandOverLit(cfg, s, R.OnAckReceived(SenderSettings(cfg), s.ledger.sender, id, seqNo), id, a.fault);
    }
  }

  lemma EchoBreaksNothing(cfg: Config, s: Controller, a: Arrival)
    ensures Breaks(cfg, HandleEcho(s, a.pkt), a) <==> Breaks(cfg, s, a)
    ensures HandleEcho(s, a.pkt) == s.(beat := HandleEcho(s, a.pkt).beat)
  {
    hide H.Echoed, WordOf;
  }

  // ---------------------------------------------------------------------
  // One chunk of bytes
  // ---------------------------------------------------------------------

  /** Draining the ring, some packet breaks the link. */
  ghost predicate DrainBreaks(cfg: Config, at: Progress, faults: seq<Fault>, heardOn: nat)
    decreases |at.s.buffer|
  {
    var one := ParseOne(cfg.protocol, cfg.capacity, at.s.buffer);
    && one.packet.Some?
    && var s1 := at.s.(buffer := one.rest);
       var a := Arrival(one.packet.value, FaultAt(faults, at.n));
       Breaks(cfg, s1, a) || DrainBreaks(cfg, Progress(HandlePacket(cfg, s1, a, heardOn), at.n + 1), faults, heardOn)
  }

  ghost predicate Admitting(cfg: Config, packets: seq<Packet>)
  {
    exists i | 0 <= i < |packets| :: IsAdmission(cfg, packets[i])
  }

  /** Draining on a link that is up: it goes down exactly when a packet breaks it, and then nothing
      is left to handle. */
  lemma {:induction false} DrainUp(cfg: Config, at: Progress, faults: seq<Fault>, heardOn: nat)
    requires cfg.requireHandshake && Coupled(cfg, at.s) && at.s.connected
    ensures var r := Drain(cfg, at, faults, heardOn).s;
            && Coupled(cfg, r)
            && (!r.connected <==> DrainBreaks(cfg, at, faults, heardOn))
            && (!r.connected ==> !r.running && r.buffer == [])
    decreases |at.s.buffer|
  {
    hide HandlePacket, ParseOne, Breaks, Alternates;
    var one := ParseOne(cfg.protocol, cfg.capacity, at.s.buffer);
    if one.packet.Some? {
      var s1 := at.s.(buffer := one.rest);
      var a := Arrival(one.packet.value, FaultAt(faults, at.n));
      HandlePacketSign(cfg, s1, a, heardOn);
      var next := Progress(HandlePacket(cfg, s1, a, heardOn), at.n + 1);
      if next.s.connected {
        DrainUp(cfg, next, faults, heardOn);
      } else {
        DrainNothing(cfg, next, faults, heardOn);
      }
    }
  }

  lemma DrainNothing(cfg: Config, at: Progress, faults: seq<Fault>, heardOn: nat)
    requires at.s.buffer == []
    ensures Drain(cfg, at, faults, heardOn) == at
    ensures !DrainBreaks(cfg, at, faults, heardOn)
  {
    hide HandlePacket;
    var one := ParseOne(cfg.protocol, cfg.capacity, at.s.buffer);
    assert one == Next(None, at.s.buffer, 0);
  }

  /** Draining on a link that is down: every packet is handled, and it lights up exactly when one of
      them is an admission. */
  lemma {:induction false} DrainDown(cfg: Config, at: Progress, faults: seq<Fault>, heardOn: nat)
    requires cfg.requireHandshake && Coupled(cfg, at.s) && !at.s.connected
    ensures var r := Drain(cfg, at, faults, heardOn);
            var all := Parse(cfg.protocol, cfg.capacity, at.s.buffer);
            && Coupled(cfg, r.s) && !r.s.connected && r.s.buffer == all.rest && r.n == at.n + |all.packets|
            && (r.s.running <==> at.s.running || Admitting(cfg, all.packets))
    ensures !DrainBreaks(cfg, at, faults, heardOn)
    decreases |at.s.buffer|
  {
    hide HandlePacket, ParseOne, Parse, Alternates, IsAdmission, SendsNext, NextFrame;
    OneThenAll(cfg.protocol, cfg.capacity, at.s.buffer);
    var one := ParseOne(cfg.protocol, cfg.capacity, at.s.buffer);
    if one.packet.Some? {
      var s1 := at.s.(buffer := one.rest);
      var a := Arrival(one.packet.value, FaultAt(faults, at.n));
      HandlePacketSign(cfg, s1, a, heardOn);
      DrainDown(cfg, Progress(HandlePacket(cfg, s1, a, heardOn), at.n + 1), faults, heardOn);
      AdmittingCons(cfg, one.packet.value, Parse(cfg.protocol, cfg.capacity, one.rest).packets);
    }
  }

  lemma AdmittingCons(cfg: Config, pkt: Packet, packets: seq<Packet>)
    ensures Admitting(cfg, [pkt] + packets) <==> IsAdmission(cfg, pkt) || Admitting(cfg, packets)
  {
    AdmittingConcat(cfg, [pkt], packets);
    assert [pkt][0] == pkt;
  }

  lemma AdmittingConcat(cfg: Config, packets: seq<Packet>, more: seq<Packet>)
    ensures Admitting(cfg, packets + more) <==> Admitting(cfg, packets) || Admitting(cfg, more)
  {
    hide IsAdmission;
    var all := packets + more;
    if Admitting(cfg, packets) {
      var i :| 0 <= i < |packets| && IsAdmission(cfg, packets[i]);
      assert IsAdmission(cfg, all[i]);
    }
    if Admitting(cfg, more) {
      var i :| 0 <= i < |more| && IsAdmission(cfg, more[i]);
      assert IsAdmission(cfg, all[|packets| + i]);
    }
  }

  /** One byte on a link that is down. */
  lemma FeedByteDown(cfg: Config, at: Progress, b: byte, faults: seq<Fault>, heardOn: nat)
    returns (packets: seq<Packet>, errors: nat)
    requires cfg.requireHandshake && 8 <= cfg.capacity && Coupled(cfg, at.s) && !at.s.connected
    ensures var r := FeedByte(cfg, at, b, faults, heardOn).s;
            && Coupled(cfg, r) && !r.connected
            && StandsFor(cfg.protocol, cfg.capacity, at.s.buffer + [b], packets, r.buffer, errors)
            && (r.running <==> at.s.running || Admitting(cfg, packets))
    ensures HasRoom(cfg, at.s) || !DrainBreaks(cfg, at, faults, heardOn)
  {
    hide Drain, DrainBreaks, Parse, Alternates, IsAdmission, StandsFor;
    var p, capacity := cfg.protocol, cfg.capacity;
    DrainDown(cfg, at, faults, heardOn);
    if HasRoom(cfg, at.s) {
      packets, errors := [], 0;
      StandsForItself(p, capacity, at.s.buffer + [b]);
    } else {
      var all := Parse(p, capacity, at.s.buffer);
      packets, errors := all.packets, all.errors;
      ParsingMakesRoom(p, capacity, at.s.buffer);
      ParsedStandsFor(p, capacity, at.s.buffer, [b]);
    }
  }

  /** The link breaks while the ring, full, is drained to make room for byte `k` of the chunk. */
  ghost predicate BreaksAt(cfg: Config, s: Controller, data: seq<byte>, faults: seq<Fault>, heardOn: nat, k: nat)
    requires k <= |data|
  {
    var at := Feed(cfg, s, data[..k], faults, heardOn);
    !HasRoom(cfg, at.s) && DrainBreaks(cfg, at, faults, heardOn)
  }

  lemma BreaksAtBefore(cfg: Config, s: Controller, data: seq<byte>, faults: seq<Fault>, heardOn: nat, k: nat)
    requires k < |data|
    ensures BreaksAt(cfg, s, data[..|data| - 1], faults, heardOn, k) <==> BreaksAt(cfg, s, data, faults, heardOn, k)
  {
    assert data[..|data| - 1][..k] == data[..k];
  }

  /** One byte on a link that is up. */
  lemma FeedByteUp(cfg: Config, at: Progress, b: byte, faults: seq<Fault>, heardOn: nat)
    requires cfg.requireHandshake && 8 <= cfg.capacity && Coupled(cfg, at.s) && at.s.connected
    ensures var r := FeedByte(cfg, at, b, faults, heardOn).s;
            && Coupled(cfg, r)
            && (!r.connected <==> !HasRoom(cfg, at.s) && DrainBreaks(cfg, at, faults, heardOn))
            && (!r.connected ==> !r.running && r.buffer == [b])
  {
    hide Drain, DrainBreaks, Alternates;
    DrainUp(cfg, at, faults, heardOn);
  }

  /** After the bytes of a chunk the link is up, or it broke at one of them; from that byte on the
      chunk has been parsed as if nothing had been buffered before. */
  lemma {:induction false} FeedSign(cfg: Config, s: Controller, data: seq<byte>, faults: seq<Fault>, heardOn: nat)
    returns (j: nat, packets: seq<Packet>, errors: nat)
    requires cfg.requireHandshake && 8 <= cfg.capacity && Coupled(cfg, s) && s.connected
    ensures j <= |data|
    ensures var r := Feed(cfg, s, data, faults, heardOn).s;
            && Coupled(cfg, r)
            && (forall k | 0 <= k < |data| :: BreaksAt(cfg, s, data, faults, heardOn, k) <==> !r.connected && k == j)
            && (!r.connected ==>
                  && j < |data|
                  && StandsFor(cfg.protocol, cfg.capacity, data[j..], packets, r.buffer, errors)
                  && (r.running <==> Admitting(cfg, packets)))
  {
    hide FeedByte, DrainBreaks, Alternates, IsAdmission, StandsFor, HasRoom, BreaksAt;
    if data == [] {
      j, packets, errors := 0, [], 0;
    } else {
      var n := |data| - 1;
      var at := Feed(cfg, s, data[..n], faults, heardOn);
      j, packets, errors := FeedSign(cfg, s, data[..n], faults, heardOn);
      forall k | 0 <= k < n
        ensures BreaksAt(cfg, s, data[..n], faults, heardOn, k) <==> BreaksAt(cfg, s, data, faults, heardOn, k)
      {
        BreaksAtBefore(cfg, s, data, faults, heardOn, k);
      }
      BreaksAtIs(cfg, s, data, faults, heardOn, n);
      if at.s.connected {
        FeedByteUp(cfg, at, data[n], faults, heardOn);
        j, packets, errors := n, [], 0;
        assert data[n..] == [data[n]];
        StandsForItself(cfg.protocol, cfg.capacity, data[n..]);
      } else {
        var more, e := FeedByteDown(cfg, at, data[n], faults, heardOn);
        StandsForMore(cfg.protocol, cfg.capacity, data[..n][j..], packets, at.s.buffer, errors, [data[n]],
                      more, FeedByte(cfg, at, data[n], faults, heardOn).s.buffer, e);
        assert data[..n][j..] + [data[n]] == data[j..];
        AdmittingConcat(cfg, packets, more);
        packets, errors := packets + more, errors + e;
      }
    }
  }

  lemma BreaksAtIs(cfg: Config, s: Controller, data: seq<byte>, faults: seq<Fault>, heardOn: nat, k: nat)
    requires k <= |data|
    ensures var at := Feed(cfg, s, data[..k], faults, heardOn);
            BreaksAt(cfg, s, data, faults, heardOn, k)
            <==> !HasRoom(cfg, at.s) && DrainBreaks(cfg, at, faults, heardOn)
  {
  }

  /** The ring is full when byte `k` of the chunk comes, draining it breaks the link, and the bytes
      from `k` on hold a handshake that would be accepted. */
  ghost predicate StrandsAt(cfg: Config, s: Controller, data: seq<byte>, faults: seq<Fault>, heardOn: nat, k: nat)
    requires k <= |data|
  {
    && BreaksAt(cfg, s, data, faults, heardOn, k)
    && Admitting(cfg, Parse(cfg.protocol, cfg.capacity, data[k..]).packets)
  }

  ghost predicate StrandsIn(cfg: Config, s: Controller, data: seq<byte>, faults: seq<Fault>, heardOn: nat)
  {
    exists k | 0 <= k < |data| :: StrandsAt(cfg, s, data, faults, heardOn, k)
  }

  /** A chunk leaves a link running that is not connected exactly when it strands it. */
  lemma ChunkSign(cfg: Config, s: Controller, data: seq<byte>, faults: seq<Fault>, heardOn: nat)
    requires cfg.requireHandshake && 8 <= cfg.capacity && Coupled(cfg, s) && s.connected
    ensures var r := Ingest(cfg, s, data, faults, heardOn);
            Coupled(cfg, r) && (r.running && !r.connected <==> StrandsIn(cfg, s, data, faults, heardOn))
  {
    hide Drain, Feed, DrainBreaks, BreaksAt, Parse, Alternates, IsAdmission, StandsFor;
    var p, capacity := cfg.protocol, cfg.capacity;
    var j, packets, errors := FeedSign(cfg, s, data, faults, heardOn);
    var at := Feed(cfg, s, data, faults, heardOn);
    if at.s.connected {
      DrainUp(cfg, at, faults, heardOn);
    } else {
      DrainDown(cfg, at, faults, heardOn);
      StandsForFinally(p, capacity, data[j..], packets, at.s.buffer, errors);
      AdmittingConcat(cfg, packets, Parse(p, capacity, at.s.buffer).packets);
      assert StrandsAt(cfg, s, data, faults, heardOn, j) <==> Admitting(cfg, Parse(p, capacity, data[j..]).packets);
    }
  }

  // ---------------------------------------------------------------------
  // When a chunk cannot strand the link
  // ---------------------------------------------------------------------

  /** Bytes that fit into the ring are only collected. */
  lemma {:induction false} FeedFits(cfg: Config, s: Controller, data: seq<byte>, faults: seq<Fault>, heardOn: nat)
    requires |s.buffer| + |data| <= cfg.capacity - 1
    ensures Feed(cfg, s, data, faults, heardOn) == Progress(s.(buffer := s.buffer + data), 0)
  {
    hide Drain;
    if data == [] {
      assert s.buffer + data == s.buffer;
    } else {
      var n := |data| - 1;
      FeedFits(cfg, s, data[..n], faults, heardOn);
      assert s.buffer + data == s.buffer + data[..n] + [data[n]];
    }
  }

  /** Whatever its bytes and whatever fails, a chunk that fits behind what is buffered strands nothing. */
  lemma RoomyChunk(cfg: Config, s: Controller, data: seq<byte>, faults: seq<Fault>, heardOn: nat)
    requires |s.buffer| + |data| <= cfg.capacity - 1
    ensures !StrandsIn(cfg, s, data, faults, heardOn)
  {
    hide Drain, Feed, DrainBreaks, Parse, IsAdmission;
    forall k | 0 <= k < |data|
      ensures !StrandsAt(cfg, s, data, faults, heardOn, k)
    {
      FeedFits(cfg, s, data[..k], faults, heardOn);
    }
  }

  ghost predicate NoFaults(faults: seq<Fault>)
  {
    forall i | 0 <= i < |faults| :: faults[i] == NoFault
  }

  lemma {:induction false} NoFaultsNoBreaks(cfg: Config, at: Progress, faults: seq<Fault>, heardOn: nat)
    requires NoFaults(faults)
    ensures !DrainBreaks(cfg, at, faults, heardOn)
    decreases |at.s.buffer|
  {
    hide HandlePacket, ParseOne, SendsNext, NextFrame;
    var one := ParseOne(cfg.protocol, cfg.capacity, at.s.buffer);
    if one.packet.Some? {
      var s1 := at.s.(buffer := one.rest);
      var a := Arrival(one.packet.value, FaultAt(faults, at.n));
      NoFaultsNoBreaks(cfg, Progress(HandlePacket(cfg, s1, a, heardOn), at.n + 1), faults, heardOn);
    }
  }

  /** Nor does a chunk in which no frame fails to be sent. */
  lemma FaultlessChunk(cfg: Config, s: Controller, data: seq<byte>, faults: seq<Fault>, heardOn: nat)
    requires NoFaults(faults)
    ensures !StrandsIn(cfg, s, data, faults, heardOn)
  {
    hide DrainBreaks, Parse, Feed, IsAdmission;
    forall k | 0 <= k < |data|
      ensures !StrandsAt(cfg, s, data, faults, heardOn, k)
    {
      NoFaultsNoBreaks(cfg, Feed(cfg, s, data[..k], faults, heardOn), faults, heardOn);
    }
  }

  // ---------------------------------------------------------------------
  // Every event
  // ---------------------------------------------------------------------

  lemma CheckConnectionLit(cfg: Config, s: Controller, opening: Opening, throws: bool)
    requires Lit(cfg, s)
    ensures Lit(cfg, CheckConnectionImpl(cfg, s, opening, throws))
  {
    hide Reset, StartReceive, HandshakeFrame, Alternates;
    ResetLit(cfg, s);
    var s1 := Reset(cfg, s);
    var s2 := s1.(port := Present(true), connected := true, shutdown := s1.shutdown.(requested := false),
                  running := !cfg.requireHandshake);
    var s3 := if cfg.requireHandshake then s2 else PublishReady(s2, true);
    PublishAlternates(s2, true);
    assert Lit(cfg, s3);
    StartReceiveLit(cfg, s3, throws);
  }

  lemma RunTaskLit(cfg: Config, s: Controller, task: Task, choice: Choice)
    requires Lit(cfg, s)
    ensures Lit(cfg, RunTask(cfg, s, task, choice))
  {
    hide CheckConnectionImpl, AsyncSend, HandOver, R.Send, Reset, HandshakeFrame, HeartbeatFrame, H.Tick, Alternates;
    match task
    case CheckConnection => CheckConnectionLit(cfg, s, choice.opening, choice.throws);
    case HeartbeatTimer => ResetLit(cfg, s);
    case Transmit(bytes) => AsyncSendLit(cfg, s, bytes, None, choice.fault);
    case ReliableSend(id, bytes) =>
      HandOverLit(cfg, s, R.Send(SenderSettings(cfg), s.ledger.sender, id, bytes), id, choice.fault);
    case Destroying => ResetLit(cfg, s);
    case Drained =>
  }

  lemma RetryTimeoutLit(cfg: Config, s: Controller, t: R.Ticket, fault: Fault)
    requires Lit(cfg, s)
    ensures Lit(cfg, RetryTimeout(cfg, s, t, fault))
  {
    hide HandOver, R.HandleRetryTimeout, Alternates;
    var sender := s.ledger.sender.(expired := s.ledger.sender.expired - multiset{t});
    HandOverLit(cfg, s, R.HandleRetryTimeout(SenderSettings(cfg), sender, t), t.key, fault);
  }

  lemma WriteEndsLit(cfg: Config, s: Controller, op: Op, outcome: Outcome, fault: Fault)
    requires Lit(cfg, s) && op.Writing?
    ensures Lit(cfg, HandleWrite(cfg, s, op, outcome, fault))
  {
    hide HandleWrite, Alternates;
    HandleWriteLit(cfg, s, op, outcome, fault);
  }

  /** Without handshakes the ready value simply follows the connection. */
  lemma {:induction false} OpenGateCouples(cfg: Config, s: Controller, moves: seq<Move>, heardOn: nat)
    requires !cfg.requireHandshake && Coupled(cfg, s)
    ensures Coupled(cfg, HandleMoves(cfg, s, moves, heardOn))
  {
    hide HandlePacket, Alternates;
    if moves != [] {
      var n := |moves| - 1;
      OpenGateCouples(cfg, s, moves[..n], heardOn);
      if moves[n].Takes? {
        OpenGatePacket(cfg, HandleMoves(cfg, s, moves[..n], heardOn), moves[n].arrival, heardOn);
      }
    }
  }

  lemma OpenGatePacket(cfg: Config, s: Controller, a: Arrival, heardOn: nat)
    requires !cfg.requireHandshake && Coupled(cfg, s)
    ensures Coupled(cfg, HandlePacket(cfg, s, a, heardOn))
  {
    hide HandOver, Admits, DispatchPayload, H.Echoed, WordOf, Alternates, R.OnAckReceived;
    if |a.pkt.payload| == 2 {
      var id, seqNo := a.pkt.payload[0], a.pkt.payload[1];
      var sender := R.OnAckReceived(SenderSettings(cfg), s.ledger.sender, id, seqNo);
      HandOverLit(cfg, HandleEcho(s, a.pkt), sender, id, a.fault);
    }
  }

  lemma IngestSign(cfg: Config, s: Controller, data: seq<byte>, faults: seq<Fault>, heardOn: nat)
    requires 8 <= cfg.capacity && Lit(cfg, s) && s.connected
    ensures var r := Ingest(cfg, s, data, faults, heardOn);
            && Coupled(cfg, r)
            && (Lit(cfg, r) <==> !(cfg.requireHandshake && StrandsIn(cfg, s, data, faults, heardOn)))
  {
    hide Ingest, StrandsIn, HandleMoves, Alternates;
    if cfg.requireHandshake {
      ChunkSign(cfg, s, data, faults, heardOn);
    } else {
      var moves := IngestMoves(cfg, s, data, faults, heardOn);
      OpenGateCouples(cfg, s, moves, heardOn);
    }
  }

  /** The event is a chunk of the present connection that strands the link. */
  ghost predicate Strands(cfg: Config, s: Controller, e: Event)
  {
    && cfg.requireHandshake
    && e.ReadEnds? && e.generation == s.generation && e.received.Bytes? && e.received.data != []
    && StrandsIn(cfg, CompleteOp(s.(outstanding := s.outstanding - multiset{Reading(e.generation)})),
                 e.received.data, e.received.faults, e.generation)
  }

  lemma StartReceiveKeepsSign(cfg: Config, s: Controller, throws: bool)
    requires Coupled(cfg, s)
    ensures Coupled(cfg, StartReceive(cfg, s, throws))
    ensures Lit(cfg, StartReceive(cfg, s, throws)) <==> Lit(cfg, s)
  {
    hide Reset, CompleteOp, Alternates;
    StartReceiveLit(cfg, s, throws);
  }

  lemma HandleReceiveSign(
    cfg: Config, s: Controller, generation: nat, received: Received, throws: bool)
    requires 8 <= cfg.capacity && Lit(cfg, s) && (generation == s.generation ==> s.connected)
    ensures var r := HandleReceive(cfg, s, generation, received, throws);
            var strands := cfg.requireHandshake && generation == s.generation && received.Bytes? && received.data != []
                           && StrandsIn(cfg, CompleteOp(s), received.data, received.faults, generation);
            Coupled(cfg, r) && (Lit(cfg, r) <==> !strands)
  {
    hide Reset, StartReceive, CompleteOp, Ingest, StrandsIn, Alternates;
    ResetLit(cfg, s);
    CompleteKeepsGeneration(s);
    var s1 := CompleteOp(s);
    if generation == s.generation {
      ResetLit(cfg, s1);
      StartReceiveKeepsSign(cfg, s1, throws);
      if received.Bytes? {
        IngestSign(cfg, s1, received.data, received.faults, generation);
        StartReceiveKeepsSign(cfg, Ingest(cfg, s1, received.data, received.faults, generation), throws);
      }
    }
  }

  lemma CompleteKeepsGeneration(s: Controller)
    ensures CompleteOp(s).generation == s.generation
  {
  }

  lemma ReadEndsSign(cfg: Config, s: Controller, generation: nat, received: Received, throws: bool)
    requires 8 <= cfg.capacity && Core(s) && Lit(cfg, s) && Enabled(s, ReadEnds(generation, received, throws))
    ensures var e := ReadEnds(generation, received, throws);
            Coupled(cfg, Apply(cfg, s, e)) && (Lit(cfg, Apply(cfg, s, e)) <==> !Strands(cfg, s, e))
  {
    hide HandleReceive, StrandsIn, CompleteOp, Alternates, Loose;
    HandleReceiveSign(cfg, s.(outstanding := s.outstanding - multiset{Reading(generation)}), generation, received,
        throws);
  }

  lemma ApplySign(cfg: Config, s: Controller, e: Event)
    requires 8 <= cfg.capacity && Core(s) && Lit(cfg, s) && Enabled(s, e)
    ensures Coupled(cfg, Apply(cfg, s, e))
    ensures Lit(cfg, Apply(cfg, s, e)) <==> !Strands(cfg, s, e)
  {
    hide RunTask, RetryTimeout, HandleReceive, HandleWrite, StrandsIn, CompleteOp, Alternates, Core, R.Expired;
    match e
    case Runs(choice) => RunTaskLit(cfg, s.(tasks := s.tasks[1..]), s.tasks[0], choice);
    case Expires(_) =>
    case Retries(t, fault) => RetryTimeoutLit(cfg, s, t, fault);
    case ReadEnds(generation, received, throws) => ReadEndsSign(cfg, s, generation, received, throws);
    case WriteEnds(op, outcome, fault) =>
      WriteEndsLit(cfg, s.(outstanding := s.outstanding - multiset{op}), op, outcome, fault);
    case Posts(_) =>
    case LosesPort =>
    case ClosesDoor =>
    case PostsDestroy =>
  }

  // ---------------------------------------------------------------------
  // What stays in the ring
  // ---------------------------------------------------------------------

  /** Between chunks the ring holds less than the largest frame. */
  predicate Small(cfg: Config, s: Controller)
  {
    |s.buffer| <= cfg.protocol.maxPayload + OVERHEAD - 1
  }

  lemma {:induction false} DrainedIsSmall(cfg: Config, at: Progress, faults: seq<Fault>, heardOn: nat)
    ensures Small(cfg, Drain(cfg, at, faults, heardOn).s)
    decreases |at.s.buffer|
  {
    hide HandlePacket, ParseOne, Parse;
    OneThenAll(cfg.protocol, cfg.capacity, at.s.buffer);
    ResidueBound(cfg.protocol, cfg.capacity, at.s.buffer);
    var one := ParseOne(cfg.protocol, cfg.capacity, at.s.buffer);
    if one.packet.Some? {
      var s1 := at.s.(buffer := one.rest);
      var a := Arrival(one.packet.value, FaultAt(faults, at.n));
      DrainedIsSmall(cfg, Progress(HandlePacket(cfg, s1, a, heardOn), at.n + 1), faults, heardOn);
    }
  }

  lemma StartReceiveSmall(cfg: Config, s: Controller, throws: bool)
    requires Small(cfg, s)
    ensures Small(cfg, StartReceive(cfg, s, throws))
  {
    hide Reset, CompleteOp;
  }

  lemma HandleReceiveSmall(cfg: Config, s: Controller, generation: nat, received: Received, throws: bool)
    requires Small(cfg, s)
    ensures Small(cfg, HandleReceive(cfg, s, generation, received, throws))
  {
    hide Reset, StartReceive, CompleteOp, Drain, Feed;
    var s1 := CompleteOp(s);
    StartReceiveSmall(cfg, s1, throws);
    if received.Bytes? {
      var at := Feed(cfg, s1, received.data, received.faults, generation);
      DrainedIsSmall(cfg, at, received.faults, generation);
      StartReceiveSmall(cfg, Ingest(cfg, s1, received.data, received.faults, generation), throws);
    }
  }

  lemma RunTaskSmall(cfg: Config, s: Controller, task: Task, choice: Choice)
    requires Small(cfg, s)
    ensures Small(cfg, RunTask(cfg, s, task, choice))
  {
    hide Reset, StartReceive, AsyncSend, HandOver, R.Send, HandshakeFrame, HeartbeatFrame, H.Tick;
    if task.CheckConnection? {
      var s1 := Reset(cfg, s);
      var s2 := s1.(port := Present(true), connected := true, shutdown := s1.shutdown.(requested := false),
                    running := !cfg.requireHandshake);
      StartReceiveSmall(cfg, s2, choice.throws);
      StartReceiveSmall(cfg, PublishReady(s2, true), choice.throws);
    }
  }

  lemma ApplySmall(cfg: Config, s: Controller, e: Event)
    requires Small(cfg, s) && Enabled(s, e)
    ensures Small(cfg, Apply(cfg, s, e))
  {
    hide RunTask, HandOver, HandleReceive, Reset, StartNextWrite, CompleteOp, Settle, R.HandleRetryTimeout, R.Expired;
    match e
    case Runs(choice) => RunTaskSmall(cfg, s.(tasks := s.tasks[1..]), s.tasks[0], choice);
    case ReadEnds(generation, received, throws) =>
      HandleReceiveSmall(cfg, s.(outstanding := s.outstanding - multiset{Reading(generation)}), generation, received,
          throws);
    case _ =>
  }

  lemma {:induction false} AlwaysSmall(cfg: Config, events: seq<Event>)
    requires After(cfg, events).Reached?
    ensures Small(cfg, After(cfg, events).controller)
  {
    hide Small, Apply, Enabled;
    if events == [] {
      NothingIsSmall(cfg);
    } else {
      var n := |events| - 1;
      AlwaysSmall(cfg, events[..n]);
      ApplySmall(cfg, After(cfg, events[..n]).controller, events[n]);
    }
  }

  lemma NothingIsSmall(cfg: Config)
    ensures Small(cfg, Initial(cfg))
  {
  }

  // ---------------------------------------------------------------------
  // Runs
  // ---------------------------------------------------------------------

  /** No step of the run strands the link. */
  ghost predicate NeverStrands(cfg: Config, events: seq<Event>)
    requires After(cfg, events).Reached?
  {
    events != [] ==>
      var before, e := events[..|events| - 1], events[|events| - 1];
      NeverStrands(cfg, before) && !Strands(cfg, After(cfg, before).controller, e)
  }

  /** The published value is right after every step of the run, and at its start. */
  ghost predicate AlwaysReadyOk(cfg: Config, events: seq<Event>)
    requires After(cfg, events).Reached?
  {
    && ReadyOk(After(cfg, events).controller)
    && (events != [] ==> AlwaysReadyOk(cfg, events[..|events| - 1]))
  }

  lemma InitialLit(cfg: Config)
    ensures Lit(cfg, Initial(cfg))
  {
  }

  lemma {:induction false} ReadySteps(cfg: Config, events: seq<Event>)
    requires 8 <= cfg.capacity && After(cfg, events).Reached?
    ensures AlwaysReadyOk(cfg, events) <==> NeverStrands(cfg, events)
    ensures NeverStrands(cfg, events) ==> Lit(cfg, After(cfg, events).controller)
  {
    hide Core, Lit, Strands, Apply, Enabled, ReadyOk;
    if events == [] {
      InitialLit(cfg);
      LitIsReadyOk(cfg, Initial(cfg));
    } else {
      var n := |events| - 1;
      ReadySteps(cfg, events[..n]);
      var s := After(cfg, events[..n]).controller;
      if NeverStrands(cfg, events[..n]) {
        CoreAlways(cfg, events[..n]);
        ApplySign(cfg, s, events[n]);
        LitIsReadyOk(cfg, After(cfg, events).controller);
      }
    }
  }

  /** The published value is right throughout a run exactly when no chunk of the run breaks the link
      while the full ring is drained and goes on with a handshake that is accepted. */
  lemma ReadyIffNeverStranded(cfg: Config, events: seq<Event>)
    requires 8 <= cfg.capacity && After(cfg, events).Reached?
    ensures AlwaysReadyOk(cfg, events) <==> NeverStrands(cfg, events)
  {
    ReadySteps(cfg, events);
  }

  ghost predicate FaultFree(e: Event)
  {
    e.ReadEnds? && e.received.Bytes? ==> NoFaults(e.received.faults)
  }

  lemma FaultFreeNeverStrands(cfg: Config, s: Controller, e: Event)
    requires FaultFree(e)
    ensures !Strands(cfg, s, e)
  {
    hide StrandsIn, CompleteOp, NoFaults;
    if e.ReadEnds? && e.received.Bytes? {
      var s1 := CompleteOp(s.(outstanding := s.outstanding - multiset{Reading(e.generation)}));
      FaultlessChunk(cfg, s1, e.received.data, e.received.faults, e.generation);
    }
  }

  lemma {:induction false} FaultFreeRun(cfg: Config, events: seq<Event>)
    requires After(cfg, events).Reached? && forall i | 0 <= i < |events| :: FaultFree(events[i])
    ensures NeverStrands(cfg, events)
  {
    hide Strands, Apply, Enabled, FaultFree;
    if events != [] {
      var n := |events| - 1;
      FaultFreeRun(cfg, events[..n]);
      FaultFreeNeverStrands(cfg, After(cfg, events[..n]).controller, events[n]);
    }
  }

  /** In particular it is right in every run in which sending from within a chunk does not fail. */
  lemma ReadyWithoutFaults(cfg: Config, events: seq<Event>)
    requires 8 <= cfg.capacity && After(cfg, events).Reached? && forall i | 0 <= i < |events| :: FaultFree(events[i])
    ensures AlwaysReadyOk(cfg, events)
  {
    FaultFreeRun(cfg, events);
    ReadySteps(cfg, events);
  }

  /** The ring takes a whole read behind whatever is left of the largest frame. */
  predicate Roomy(cfg: Config)
  {
    cfg.protocol.maxPayload + OVERHEAD - 1 + RX_BUFFER_SIZE <= cfg.capacity - 1
  }

  lemma RoomyStep(cfg: Config, s: Controller, e: Event)
    requires Roomy(cfg) && Small(cfg, s) && Enabled(s, e)
    ensures !Strands(cfg, s, e)
  {
    hide StrandsIn, CompleteOp;
    if e.ReadEnds? && e.received.Bytes? {
      var s1 := CompleteOp(s.(outstanding := s.outstanding - multiset{Reading(e.generation)}));
      RoomyChunk(cfg, s1, e.received.data, e.received.faults, e.generation);
    }
  }

  lemma {:induction false} RoomyRun(cfg: Config, events: seq<Event>)
    requires Roomy(cfg) && After(cfg, events).Reached?
    ensures NeverStrands(cfg, events)
  {
    hide Strands, Apply, Enabled, Small, Roomy;
    if events != [] {
      var n := |events| - 1;
      RoomyRun(cfg, events[..n]);
      AlwaysSmall(cfg, events[..n]);
      RoomyStep(cfg, After(cfg, events[..n]).controller, events[n]);
    }
  }

  /** And in every run, whatever fails, if the ring is that large. */
  lemma ReadyInRoomyRing(cfg: Config, events: seq<Event>)
    requires Roomy(cfg) && After(cfg, events).Reached?
    ensures AlwaysReadyOk(cfg, events)
  {
    RoomyRun(cfg, events);
    ReadySteps(cfg, events);
  }
}
