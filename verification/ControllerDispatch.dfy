/** What a chunk of bytes does to a link that stays up: the packets of the stream, each shown to the
    topics once and in order, admissions and heartbeat echoes taking effect where they stand. */
module ControllerDispatch {
  import opened Checksums
  import opened Wire
  import opened StreamParser
  import opened SerialControl
  import H = Heartbeat
  import R = ReliableSending

  // ---------------------------------------------------------------------
  // The law, on packets
  // ---------------------------------------------------------------------

  /** What the topics have been shown. */
  function Topics(trace: seq<Observation>): seq<Observation>
  {
    if trace == [] then []
    else
      var last := trace[|trace| - 1];
      Topics(trace[..|trace| - 1]) + if last.Dispatched? then [last] else []
  }

  /** A packet as a topic sees it: with its ID, a reliable one without its sequence byte. */
  function Shown(p: Protocol, generation: nat, pkt: Packet): Observation
  {
    Dispatched(generation, pkt.id,
               if pkt.id in p.reliable && pkt.payload != [] then pkt.payload[..|pkt.payload| - 1] else pkt.payload)
  }

  /** A handshake packet with our hash, or with any if mismatches are ignored. */
  predicate Welcome(cfg: Config, pkt: Packet)
  {
    && pkt.id == HANDSHAKE_ID && |pkt.payload| == 4
    && (WordOf(pkt.payload) == cfg.localHash || cfg.ignoreVersionMismatch)
  }

  /** What a packet may change about the link itself. */
  datatype Mood = Mood(running: bool, beat: H.Beat)

  predicate Echoes(pkt: Packet, count: H.word32)
  {
    pkt.id == HEARTBEAT_ID && |pkt.payload| == 4 && WordOf(pkt.payload) == count
  }

  function Hears(cfg: Config, m: Mood, pkt: Packet): Mood
  {
    if m.running && Echoes(pkt, m.beat.lastTx) then m.(beat := m.beat.(awaiting := false))
    else if !m.running && Welcome(cfg, pkt) then Mood(true, m.beat.(count := 0, lastTx := 0, awaiting := false))
    else m
  }

  function HearsAll(cfg: Config, m: Mood, packets: seq<Packet>): Mood
  {
    if packets == [] then m
    else Hears(cfg, HearsAll(cfg, m, packets[..|packets| - 1]), packets[|packets| - 1])
  }

  /** A running link shows every packet, a waiting one only handshakes. */
  function ShowsAll(cfg: Config, generation: nat, m: Mood, packets: seq<Packet>): seq<Observation>
  {
    if packets == [] then []
    else
      var before, pkt := packets[..|packets| - 1], packets[|packets| - 1];
      ShowsAll(cfg, generation, m, before)
      + if HearsAll(cfg, m, before).running || pkt.id == HANDSHAKE_ID then [Shown(cfg.protocol, generation, pkt)]
          else []
  }

  lemma TopicsSnoc(trace: seq<Observation>, o: Observation)
    ensures Topics(trace + [o]) == Topics(trace) + if o.Dispatched? then [o] else []
  {
    assert (trace + [o])[..|trace|] == trace;
  }

  lemma {:induction false} HearsConcat(cfg: Config, generation: nat, m: Mood, packets: seq<Packet>, more: seq<Packet>)
    ensures HearsAll(cfg, m, packets + more) == HearsAll(cfg, HearsAll(cfg, m, packets), more)
    ensures ShowsAll(cfg, generation, m, packets + more)
         == ShowsAll(cfg, generation, m, packets) + ShowsAll(cfg, generation, HearsAll(cfg, m, packets), more)
  {
    hide Hears, Shown;
    if more == [] {
      assert packets + more == packets;
    } else {
      var n := |more| - 1;
      HearsConcat(cfg, generation, m, packets, more[..n]);
      assert (packets + more)[..|packets| + n] == packets + more[..n];
    }
  }

  lemma HearsOne(cfg: Config, generation: nat, m: Mood, pkt: Packet)
    ensures HearsAll(cfg, m, [pkt]) == Hears(cfg, m, pkt)
    ensures ShowsAll(cfg, generation, m, [pkt])
         == if m.running || pkt.id == HANDSHAKE_ID then [Shown(cfg.protocol, generation, pkt)] else []
  {
    hide Hears, Shown;
    assert [pkt][..0] == [];
  }

  // ---------------------------------------------------------------------
  // Steps that leave the link as it is
  // ---------------------------------------------------------------------

  function MoodOf(s: Controller): Mood
  {
    Mood(s.running, s.beat)
  }

  /** The step shows nothing to the topics, and the link is as it was or is down. */
  ghost predicate Steady(s: Controller, r: Controller)
  {
    && Topics(r.trace) == Topics(s.trace)
    && (r.connected ==>
          && s.connected && r.generation == s.generation && r.port == s.port && r.buffer == s.buffer
          && MoodOf(r) == MoodOf(s))
  }

  lemma ResetSteady(cfg: Config, s: Controller)
    ensures Steady(s, Reset(cfg, s)) && !Reset(cfg, s).connected && Steady(s, CompleteOp(s))
  {
    hide SettleAll, Topics;
  }

  lemma StartNextWriteSteady(cfg: Config, s: Controller, fault: Fault)
    ensures Steady(s, StartNextWrite(cfg, s, fault))
  {
    hide Reset, CompleteOp, SettleAll, Topics;
    var s1 := s.(writing := true, pendingOps := s.pendingOps + 1);
    ResetSteady(cfg, s1);
    ResetSteady(cfg, CompleteOp(s1).(writing := false));
  }

  lemma AsyncSendSteady(cfg: Config, s: Controller, bytes: seq<byte>, ticket: Option<R.Completion>, fault: Fault)
    ensures Steady(s, AsyncSend(cfg, s, bytes, ticket, fault))
  {
    hide Reset, StartNextWrite, Settle, Submit, Topics;
    var ledger, request := Submit(s.ledger, ticket), Request(s.ledger.submitted, bytes);
    var rejected := s.(ledger := Settle(ledger, request, false));
    ResetSteady(cfg, rejected);
    var queued := s.(ledger := ledger, queue := s.queue + [request],
                     trace := s.trace + [Enqueued(s.generation, bytes)]);
    TopicsSnoc(s.trace, Enqueued(s.generation, bytes));
    StartNextWriteSteady(cfg, queued, fault);
  }

  lemma HandOverSteady(cfg: Config, s: Controller, sender: R.Sender, key: byte, fault: Fault)
    ensures Steady(s, HandOver(cfg, s, sender, key, fault))
  {
    hide AsyncSend, Topics;
    if R.HasFront(sender, key) {
      var front := R.Front(sender, key);
      AsyncSendSteady(
        cfg, s.(ledger := s.ledger.(sender := sender)), front.bytes,
        Some(R.Completion(key, front.seqNo, front.generation)), fault);
    }
  }

  lemma HandleAckSteady(cfg: Config, s: Controller, a: Arrival)
    ensures Steady(s, HandleAck(cfg, s, a))
    ensures a.pkt.id != ACK_ID ==> HandleAck(cfg, s, a) == s
  {
    hide HandOver, R.OnAckReceived, Topics;
    if |a.pkt.payload| == 2 {
      var id, seqNo := a.pkt.payload[0], a.pkt.payload[1];
      HandOverSteady(cfg, s, R.OnAckReceived(SenderSettings(cfg), s.ledger.sender, id, seqNo), id, a.fault);
    }
  }

  // ---------------------------------------------------------------------
  // One packet
  // ---------------------------------------------------------------------

  /** Without handshakes a link always runs. */
  predicate Regular(cfg: Config, s: Controller)
  {
    cfg.requireHandshake || s.running
  }

  /** A link that is up after a packet was up before; it has heard the packet and shown it. */
  lemma PacketIsShown(cfg: Config, s: Controller, a: Arrival, heardOn: nat)
    requires Regular(cfg, s)
    ensures var r := HandlePacket(cfg, s, a, heardOn);
            r.connected ==>
              && s.connected && r.generation == s.generation && r.port == s.port && r.buffer == s.buffer
              && Regular(cfg, r)
              && MoodOf(r) == Hears(cfg, MoodOf(s), a.pkt)
              && Topics(r.trace)
                 == Topics(s.trace)
                    + if s.running || a.pkt.id == HANDSHAKE_ID then [Shown(cfg.protocol, s.generation, a.pkt)] else []
  {
    hide HandleAck, Topics, WordOf;
    var s1 := HandleAck(cfg, HandleEcho(s, a.pkt), a);
    HandleAckSteady(cfg, HandleEcho(s, a.pkt), a);
    var s2 := ProcessHandshake(cfg, s1, a.pkt.payload, heardOn);
    TopicsSnoc(s1.trace, Accepted(s1.generation, heardOn));
    TopicsSnoc(s1.trace, Shown(cfg.protocol, s1.generation, a.pkt));
    TopicsSnoc(s2.trace, Shown(cfg.protocol, s2.generation, a.pkt));
  }

  // ---------------------------------------------------------------------
  // One chunk
  // ---------------------------------------------------------------------

  /** From `s` to `r` the link has stayed up, heard these packets and shown them, and nothing else. */
  ghost predicate Heard(cfg: Config, s: Controller, r: Controller, packets: seq<Packet>)
  {
    && s.connected && r.generation == s.generation && r.port == s.port && Regular(cfg, r)
    && MoodOf(r) == HearsAll(cfg, MoodOf(s), packets)
    && Topics(r.trace) == Topics(s.trace) + ShowsAll(cfg, s.generation, MoodOf(s), packets)
  }

  lemma HeardNothing(cfg: Config, s: Controller, r: Controller)
    requires Regular(cfg, s) && s.connected && r == s.(buffer := r.buffer)
    ensures Heard(cfg, s, r, [])
  {
  }

  lemma HeardOne(cfg: Config, s: Controller, a: Arrival, heardOn: nat)
    requires Regular(cfg, s) && HandlePacket(cfg, s, a, heardOn).connected
    ensures Heard(cfg, s, HandlePacket(cfg, s, a, heardOn), [a.pkt])
  {
    hide HandlePacket, Topics, Hears, Shown;
    PacketIsShown(cfg, s, a, heardOn);
    HearsOne(cfg, s.generation, MoodOf(s), a.pkt);
  }

  lemma HeardTwice(cfg: Config, s: Controller, r: Controller, t: Controller, packets: seq<Packet>, more: seq<Packet>)
    requires Heard(cfg, s, r, packets) && Heard(cfg, r, t, more)
    ensures Heard(cfg, s, t, packets + more)
  {
    hide Topics, HearsAll, ShowsAll;
    HearsConcat(cfg, s.generation, MoodOf(s), packets, more);
  }

  /** Draining: the packets of what is buffered, and their residue stays. */
  lemma {:induction false} DrainIsHeard(cfg: Config, at: Progress, faults: seq<Fault>, heardOn: nat)
    requires Regular(cfg, at.s)
    ensures var r := Drain(cfg, at, faults, heardOn);
            var all := Parse(cfg.protocol, cfg.capacity, at.s.buffer);
            && Regular(cfg, r.s)
            && (r.s.connected ==> at.s.connected && Heard(cfg, at.s, r.s, all.packets) && r.s.buffer == all.rest)
    decreases |at.s.buffer|
  {
    hide HandlePacket, ParseOne, Parse, Heard;
    OneThenAll(cfg.protocol, cfg.capacity, at.s.buffer);
    var one := ParseOne(cfg.protocol, cfg.capacity, at.s.buffer);
    var s1 := at.s.(buffer := one.rest);
    if one.packet.None? {
      if at.s.connected {
        HeardNothing(cfg, at.s, s1);
      }
    } else {
      var a := Arrival(one.packet.value, FaultAt(faults, at.n));
      var s2 := HandlePacket(cfg, s1, a, heardOn);
      PacketStaysUp(cfg, s1, a, heardOn);
      DrainIsHeard(cfg, Progress(s2, at.n + 1), faults, heardOn);
      if Drain(cfg, at, faults, heardOn).s.connected {
        HeardOne(cfg, s1, a, heardOn);
        HeardNothing(cfg, at.s, s1);
        HeardTwice(cfg, at.s, s1, s2, [], [a.pkt]);
        HeardTwice(cfg, at.s, s2, Drain(cfg, at, faults, heardOn).s, [] + [a.pkt],
                   Parse(cfg.protocol, cfg.capacity, one.rest).packets);
        assert [] + [a.pkt] == [a.pkt];
      }
    }
  }

  /** One byte: what is buffered and the byte stand for the packets heard and what stays. */
  lemma FeedByteIsHeard(cfg: Config, at: Progress, b: byte, faults: seq<Fault>, heardOn: nat)
    returns (packets: seq<Packet>, errors: nat)
    requires 8 <= cfg.capacity && Regular(cfg, at.s)
    ensures var r := FeedByte(cfg, at, b, faults, heardOn).s;
            && Regular(cfg, r)
            && (r.connected ==>
                  && at.s.connected && Heard(cfg, at.s, r, packets)
                  && StandsFor(cfg.protocol, cfg.capacity, at.s.buffer + [b], packets, r.buffer, errors))
  {
    hide Drain, Parse, StandsFor, Heard;
    var p, capacity := cfg.protocol, cfg.capacity;
    var r := FeedByte(cfg, at, b, faults, heardOn).s;
    DrainIsHeard(cfg, at, faults, heardOn);
    packets, errors := [], 0;
    if r.connected && HasRoom(cfg, at.s) {
      HeardNothing(cfg, at.s, r);
      StandsForItself(p, capacity, at.s.buffer + [b]);
    } else if r.connected {
      var d := Drain(cfg, at, faults, heardOn).s;
      var all := Parse(p, capacity, at.s.buffer);
      packets, errors := all.packets, all.errors;
      ParsingMakesRoom(p, capacity, at.s.buffer);
      ParsedStandsFor(p, capacity, at.s.buffer, [b]);
      HeardStays(cfg, at.s, d, packets, r);
    }
  }

  lemma HeardStays(cfg: Config, s: Controller, r: Controller, packets: seq<Packet>, r': Controller)
    requires Heard(cfg, s, r, packets) && r' == r.(buffer := r'.buffer)
    ensures Heard(cfg, s, r', packets)
  {
  }

  /** The bytes of a chunk. */
  lemma {:induction false} FeedIsHeard(cfg: Config, s: Controller, data: seq<byte>, faults: seq<Fault>, heardOn: nat)
    returns (packets: seq<Packet>, errors: nat)
    requires 8 <= cfg.capacity && Regular(cfg, s)
    ensures var r := Feed(cfg, s, data, faults, heardOn).s;
            && Regular(cfg, r)
            && (r.connected ==>
                  && s.connected && Heard(cfg, s, r, packets)
                  && StandsFor(cfg.protocol, cfg.capacity, s.buffer + data, packets, r.buffer, errors))
  {
    hide FeedByte, StandsFor, Heard;
    packets, errors := [], 0;
    if data == [] {
      if s.connected {
        HeardNothing(cfg, s, s);
        StandsForItself(cfg.protocol, cfg.capacity, s.buffer);
        assert s.buffer + data == s.buffer;
      }
    } else {
      var n := |data| - 1;
      packets, errors := FeedIsHeard(cfg, s, data[..n], faults, heardOn);
      var at := Feed(cfg, s, data[..n], faults, heardOn);
      var more, e := FeedByteIsHeard(cfg, at, data[n], faults, heardOn);
      var r := FeedByte(cfg, at, data[n], faults, heardOn).s;
      if r.connected {
        HeardTwice(cfg, s, at.s, r, packets, more);
        StandsForMore(cfg.protocol, cfg.capacity, s.buffer + data[..n], packets, at.s.buffer, errors, [data[n]],
                      more, r.buffer, e);
        assert s.buffer + data[..n] + [data[n]] == s.buffer + data;
      }
      packets, errors := packets + more, errors + e;
    }
  }

  /** A chunk after which the link is up: the packets of the stream, buffered bytes and chunk
      together, have been heard, and the residue of the stream stays buffered. */
  lemma ChunkIsHeard(cfg: Config, s: Controller, data: seq<byte>, faults: seq<Fault>, heardOn: nat)
    requires 8 <= cfg.capacity && Regular(cfg, s) && Ingest(cfg, s, data, faults, heardOn).connected
    ensures var r := Ingest(cfg, s, data, faults, heardOn);
            var all := Parse(cfg.protocol, cfg.capacity, s.buffer + data);
            Heard(cfg, s, r, all.packets) && r.buffer == all.rest
  {
    hide Feed, Drain, Parse, StandsFor, Heard;
    var packets, errors := FeedIsHeard(cfg, s, data, faults, heardOn);
    var at := Feed(cfg, s, data, faults, heardOn);
    DrainIsHeard(cfg, at, faults, heardOn);
    HeardTwice(cfg, s, at.s, Ingest(cfg, s, data, faults, heardOn), packets,
               Parse(cfg.protocol, cfg.capacity, at.s.buffer).packets);
    StandsForFinally(cfg.protocol, cfg.capacity, s.buffer + data, packets, at.s.buffer, errors);
  }

  /** What holds of a packet after which the link is up, and that running links stay regular. */
  lemma PacketStaysUp(cfg: Config, s: Controller, a: Arrival, heardOn: nat)
    requires Regular(cfg, s)
    ensures var r := HandlePacket(cfg, s, a, heardOn);
            Regular(cfg, r) && (r.connected ==> s.connected && r.buffer == s.buffer)
  {
    hide HandleAck, Topics, WordOf, Hears, Shown;
    PacketIsShown(cfg, s, a, heardOn);
    HandleAckRegular(cfg, HandleEcho(s, a.pkt), a);
  }

  lemma HandleAckRegular(cfg: Config, s: Controller, a: Arrival)
    requires Regular(cfg, s)
    ensures Regular(cfg, HandleAck(cfg, s, a))
  {
    hide R.OnAckReceived, Reset, SettleAll, Settle, Submit, CompleteOp;
    if |a.pkt.payload| == 2 {
      var id, seqNo := a.pkt.payload[0], a.pkt.payload[1];
      HandOverRegular(cfg, s, R.OnAckReceived(SenderSettings(cfg), s.ledger.sender, id, seqNo), id, a.fault);
    }
  }

  lemma HandOverRegular(cfg: Config, s: Controller, sender: R.Sender, key: byte, fault: Fault)
    requires Regular(cfg, s)
    ensures Regular(cfg, HandOver(cfg, s, sender, key, fault))
  {
    hide Reset, SettleAll, Settle, Submit, CompleteOp;
    forall t: Controller
      ensures !cfg.requireHandshake ==> Reset(cfg, t).running
    {
      ResetRuns(cfg, t);
    }
    forall t: Controller
      ensures CompleteOp(t).running == t.running
    {
      ResetRuns(cfg, t);
    }
  }

  lemma ResetRuns(cfg: Config, s: Controller)
    ensures Reset(cfg, s).running == !cfg.requireHandshake && CompleteOp(s).running == s.running
  {
    hide SettleAll;
  }

  /** The packets that the end of a read hands to the link. */
  function PacketsRead(cfg: Config, s: Controller, generation: nat, received: Received): seq<Packet>
  {
    if generation == s.generation && received.Bytes? && received.data != [] then
      Parse(cfg.protocol, cfg.capacity, s.buffer + received.data).packets
    else []
  }

  lemma StartReceiveSteady(cfg: Config, s: Controller, throws: bool)
    ensures Steady(s, StartReceive(cfg, s, throws))
  {
    hide Reset, CompleteOp, Topics;
    var s1 := s.(pendingOps := s.pendingOps + 1);
    ResetSteady(cfg, s1);
    ResetSteady(cfg, CompleteOp(s1));
  }

  /** The end of a read after which the link is up. */
  lemma ReadIsHeard(cfg: Config, s: Controller, generation: nat, received: Received, throws: bool)
    requires 8 <= cfg.capacity && Regular(cfg, s) && s.connected
    requires HandleReceive(cfg, s, generation, received, throws).connected
    ensures var r := HandleReceive(cfg, s, generation, received, throws);
            Heard(cfg, s, r, PacketsRead(cfg, s, generation, received))
  {
    hide Reset, Ingest, CompleteOp, StartReceive, Parse, Topics, HearsAll, ShowsAll;
    ResetSteady(cfg, s);
    CompletedOpIs(s);
    var s1 := CompleteOp(s);
    ResetSteady(cfg, s1);
    HeardNothing(cfg, s, s);
    if generation == s.generation && received.Bytes? {
      StartReceiveSteady(cfg, s1, throws);
      if received.data != [] {
        StartReceiveSteady(cfg, Ingest(cfg, s1, received.data, received.faults, generation), throws);
        ChunkIsHeard(cfg, s1, received.data, received.faults, generation);
      }
    }
  }

  lemma CompletedOpIs(s: Controller)
    ensures var r := CompleteOp(s);
            r == s.(pendingOps := r.pendingOps, shutdown := r.shutdown, tasks := r.tasks)
  {
  }

  // ---------------------------------------------------------------------
  // What that means for a running and for a waiting link
  // ---------------------------------------------------------------------

  /** Position by position what the topics see of a running link. */
  lemma {:induction false} RunningShowsAll(cfg: Config, generation: nat, m: Mood, packets: seq<Packet>)
    requires m.running
    ensures HearsAll(cfg, m, packets).running
    ensures ShowsAll(cfg, generation, m, packets)
         == seq(|packets|, i requires 0 <= i < |packets| => Shown(cfg.protocol, generation, packets[i]))
  {
    hide Shown;
    if packets != [] {
      RunningShowsAll(cfg, generation, m, packets[..|packets| - 1]);
    }
  }

  ghost predicate SomeEcho(packets: seq<Packet>, count: H.word32)
  {
    exists i | 0 <= i < |packets| :: Echoes(packets[i], count)
  }

  lemma SomeEchoSnoc(packets: seq<Packet>, pkt: Packet, count: H.word32)
    ensures SomeEcho(packets + [pkt], count) <==> SomeEcho(packets, count) || Echoes(pkt, count)
  {
    hide Echoes;
    var all := packets + [pkt];
    if SomeEcho(packets, count) {
      var i :| 0 <= i < |packets| && Echoes(packets[i], count);
      assert Echoes(all[i], count);
    }
    assert all[|packets|] == pkt;
  }

  /** On a running link only an echo of the last count sent changes anything: it ends the wait. */
  lemma {:induction false} RunningHears(cfg: Config, m: Mood, packets: seq<Packet>)
    requires m.running
    ensures HearsAll(cfg, m, packets)
         == Mood(true, m.beat.(awaiting := m.beat.awaiting && !SomeEcho(packets, m.beat.lastTx)))
  {
    hide Echoes;
    if packets != [] {
      var before, pkt := packets[..|packets| - 1], packets[|packets| - 1];
      RunningHears(cfg, m, before);
      SomeEchoSnoc(before, pkt, m.beat.lastTx);
      assert before + [pkt] == packets;
    }
  }

  /** The end of a read on a running link that stays up shows the topics every packet of the stream,
      once and in order, reliable ones without their sequence byte. */
  lemma RunningLinkShowsEverything(cfg: Config, s: Controller, e: Event)
    requires 8 <= cfg.capacity && Enabled(s, e) && e.ReadEnds?
    requires s.connected && s.running && Apply(cfg, s, e).connected
    ensures var r := Apply(cfg, s, e);
            var packets := PacketsRead(cfg, s, e.generation, e.received);
            && r.running
            && Topics(r.trace) == Topics(s.trace)
               + seq(|packets|, i requires 0 <= i < |packets| => Shown(cfg.protocol, s.generation, packets[i]))
  {
    hide HandleReceive, PacketsRead, Topics, HearsAll, ShowsAll, Shown;
    var packets := PacketsRead(cfg, s, e.generation, e.received);
    ReadIsOfThatState(cfg, s, e);
    RunningShowsAll(cfg, s.generation, MoodOf(s), packets);
  }

  lemma ReadIsOfThatState(cfg: Config, s: Controller, e: Event)
    requires 8 <= cfg.capacity && Enabled(s, e) && e.ReadEnds?
    requires Regular(cfg, s) && s.connected && Apply(cfg, s, e).connected
    ensures Heard(cfg, s, Apply(cfg, s, e), PacketsRead(cfg, s, e.generation, e.received))
  {
    hide HandleReceive, Parse, Topics, HearsAll, ShowsAll;
    ReadIsHeard(cfg, s.(outstanding := s.outstanding - multiset{Reading(e.generation)}), e.generation, e.received,
                e.throws);
  }

  /** Whether some packet brings a waiting link up. */
  ghost predicate SomeWelcome(cfg: Config, packets: seq<Packet>)
  {
    exists i | 0 <= i < |packets| :: Welcome(cfg, packets[i])
  }

  lemma SomeWelcomeSnoc(cfg: Config, packets: seq<Packet>, pkt: Packet)
    ensures SomeWelcome(cfg, packets + [pkt]) <==> SomeWelcome(cfg, packets) || Welcome(cfg, pkt)
  {
    hide Welcome;
    var all := packets + [pkt];
    if SomeWelcome(cfg, packets) {
      var i :| 0 <= i < |packets| && Welcome(cfg, packets[i]);
      assert Welcome(cfg, all[i]);
    }
    assert all[|packets|] == pkt;
  }

  /** Only a welcome handshake brings a waiting link up, and then its heartbeat starts from zero. */
  lemma {:induction false} WaitingHears(cfg: Config, generation: nat, m: Mood, packets: seq<Packet>)
    requires !m.running
    ensures HearsAll(cfg, m, packets).running <==> SomeWelcome(cfg, packets)
    ensures !SomeWelcome(cfg, packets) ==>
              && HearsAll(cfg, m, packets) == m
              && forall o | o in ShowsAll(cfg, generation, m, packets) :: o.Dispatched? && o.id == HANDSHAKE_ID
    ensures SomeWelcome(cfg, packets)
        ==> HearsAll(cfg, m, packets).beat == m.beat.(count := 0, lastTx := 0, awaiting := false)
  {
    hide Welcome, Echoes;
    if packets != [] {
      var before, pkt := packets[..|packets| - 1], packets[|packets| - 1];
      WaitingHears(cfg, generation, m, before);
      SomeWelcomeSnoc(cfg, before, pkt);
      assert before + [pkt] == packets;
    }
  }

  /** A waiting link that stays up starts running exactly when a welcome handshake stands in the
      stream, its heartbeat from zero; without one the topics see only handshakes. */
  lemma WaitingLinkShowsHandshakes(cfg: Config, s: Controller, e: Event)
    requires 8 <= cfg.capacity && Enabled(s, e) && e.ReadEnds?
    requires cfg.requireHandshake && s.connected && !s.running && Apply(cfg, s, e).connected
    ensures var r := Apply(cfg, s, e);
            var packets := PacketsRead(cfg, s, e.generation, e.received);
            var shown := ShowsAll(cfg, s.generation, MoodOf(s), packets);
            && (r.running <==> SomeWelcome(cfg, packets))
            && r.beat == (if r.running then s.beat.(count := 0, lastTx := 0, awaiting := false) else s.beat)
            && Topics(r.trace) == Topics(s.trace) + shown
            && (!r.running ==> forall o | o in shown :: o.Dispatched? && o.id == HANDSHAKE_ID)
  {
    hide HandleReceive, PacketsRead, Topics, HearsAll, ShowsAll, SomeWelcome;
    ReadIsOfThatState(cfg, s, e);
    WaitingHears(cfg, s.generation, MoodOf(s), PacketsRead(cfg, s, e.generation, e.received));
  }
}
