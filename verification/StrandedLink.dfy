/** Which configurations can leave ready published for a link that is not connected. */
module StrandedLink {
  import opened Checksums
  import opened Wire
  import opened StreamParser
  import opened RingArithmetic
  import opened SerialControl
  import opened ControllerSafety
  import opened ReadyTopic
  import H = Heartbeat
  import R = ReliableSending

  // ---------------------------------------------------------------------
  // Reaching states
  // ---------------------------------------------------------------------

  ghost predicate Reaches(cfg: Config, s: Controller)
  {
    exists events :: After(cfg, events) == Reached(s)
  }

  lemma ReachesNext(cfg: Config, s: Controller, e: Event)
    requires Reaches(cfg, s) && Enabled(s, e)
    ensures Reaches(cfg, Apply(cfg, s, e))
  {
    hide Apply, Enabled;
    var events :| After(cfg, events) == Reached(s);
    assert (events + [e])[..|events|] == events;
    assert After(cfg, events + [e]) == Reached(Apply(cfg, s, e));
  }

  /** The configurations of interest: validated, handshakes required, a ring that holds the largest
      frame. */
  ghost predicate Proper(cfg: Config)
  {
    && Valid(cfg.protocol) && cfg.requireHandshake
    && IsPow2(cfg.capacity) && cfg.protocol.maxPayload + OVERHEAD <= cfg.capacity - 1
  }

  /** The first connection is up, reading, with nothing buffered, queued or being written. */
  ghost predicate Quiet(s: Controller)
  {
    && Usable(s) && s.generation == 1 && Reading(1) in s.outstanding
    && s.buffer == [] && s.queue == [] && !s.writing && s.ledger.live == {}
    && !s.shutdown.closed && !s.shutdown.requested && !s.shutdown.callback
  }

  lemma Connects(cfg: Config) returns (s: Controller)
    requires cfg.requireHandshake
    ensures Reaches(cfg, s) && Quiet(s) && !s.running
    ensures s.tasks == [Transmit(HandshakeFrame(cfg))] && s.ledger.sender == R.INITIAL
  {
    hide HandshakeFrame;
    assert After(cfg, []) == Reached(Initial(cfg));
    var post, run := Posts(CheckConnection), Runs(USUAL);
    ReachesNext(cfg, Initial(cfg), post);
    var s1 := Apply(cfg, Initial(cfg), post);
    ReachesNext(cfg, s1, run);
    s := Apply(cfg, s1, run);
  }

  // ---------------------------------------------------------------------
  // One frame out
  // ---------------------------------------------------------------------

  /** `bytes` are being written on an otherwise quiet link. */
  ghost predicate Sending(s: Controller, request: Request)
  {
    && Usable(s) && s.generation == 1 && Reading(1) in s.outstanding && Writing(1, request) in s.outstanding
    && s.buffer == [] && s.queue == [request] && s.writing
    && !s.shutdown.closed && !s.shutdown.requested && !s.shutdown.callback
  }

  lemma FrameGoesOut(cfg: Config, s: Controller, bytes: seq<byte>, ticket: Option<R.Completion>)
    requires Quiet(s) && !Blocked(cfg, s, bytes)
    ensures var r := AsyncSend(cfg, s, bytes, ticket, NoFault);
            && Sending(r, Request(s.ledger.submitted, bytes))
            && r.ledger == Submit(s.ledger, ticket) && r.running == s.running && r.tasks == s.tasks
  {
    hide Reset, CompleteOp, SettleAll, Settle, Submit;
  }

  lemma FrameIsWritten(cfg: Config, s: Controller, request: Request) returns (r: Controller)
    requires Reaches(cfg, s) && Core(s) && Sending(s, request)
    requires s.ledger.live == {} || (s.ledger.live == {request.uid} && request.uid in s.ledger.tickets)
    ensures Reaches(cfg, r) && Quiet(r) && r.running == s.running && r.tasks == s.tasks
    ensures r.ledger.sender == if request.uid in s.ledger.live
                               then Told(s.ledger.sender, s.ledger.tickets[request.uid], true) else s.ledger.sender
  {
    hide Reset, SettleAll, Told, Loose, Current;
    var e := WriteEnds(Writing(1, request), Succeeded, NoFault);
    ReachesNext(cfg, s, e);
    r := Apply(cfg, s, e);
  }

  lemma CoreReached(cfg: Config, s: Controller)
    requires Reaches(cfg, s)
    ensures Core(s)
  {
    hide Core;
    var events :| After(cfg, events) == Reached(s);
    CoreAlways(cfg, events);
  }

  const USUAL: Choice := Choice(Opens, false, NoFault, 0)

  lemma RunsTransmit(cfg: Config, s: Controller, bytes: seq<byte>)
    requires s.tasks == [Transmit(bytes)]
    ensures Enabled(s, Runs(USUAL))
    ensures Apply(cfg, s, Runs(USUAL)) == AsyncSend(cfg, s.(tasks := []), bytes, None, NoFault)
  {
    hide AsyncSend;
    assert s.tasks[1..] == [];
  }

  /** The handshake probe that waits as the first task is sent. */
  lemma ProbeIsSent(cfg: Config, s: Controller) returns (r: Controller)
    requires Reaches(cfg, s) && Quiet(s) && s.tasks == [Transmit(HandshakeFrame(cfg))]
    ensures Reaches(cfg, r) && Quiet(r) && r.running == s.running && r.tasks == []
    ensures r.ledger.sender == s.ledger.sender
  {
    hide AsyncSend, HandshakeFrame, Core, Settle, Reaches, Apply, Enabled, Sending;
    RunsTransmit(cfg, s, HandshakeFrame(cfg));
    ReachesNext(cfg, s, Runs(USUAL));
    var s0 := s.(tasks := []);
    var s1 := Apply(cfg, s, Runs(USUAL));
    ProbePasses(cfg, s0);
    FrameGoesOut(cfg, s0, HandshakeFrame(cfg), None);
    CoreReached(cfg, s1);
    r := FrameIsWritten(cfg, s1, Request(s.ledger.submitted, HandshakeFrame(cfg)));
  }

  lemma ProbePasses(cfg: Config, s: Controller)
    ensures !Blocked(cfg, s, HandshakeFrame(cfg))
  {
  }

  // ---------------------------------------------------------------------
  // One chunk in
  // ---------------------------------------------------------------------

  /** A chunk of one frame that fits the empty ring is parsed and handled. */
  lemma FrameComesIn(cfg: Config, s: Controller, pkt: Packet)
    requires Proper(cfg) && s.buffer == [] && Registered(cfg.protocol, pkt)
    requires |FrameOf(cfg.protocol, pkt.id, pkt.payload)| <= cfg.capacity - 1
    ensures var r := HandlePacket(cfg, s, Arrival(pkt, NoFault), 1);
            r.buffer == [] ==> Ingest(cfg, s, FrameOf(cfg.protocol, pkt.id, pkt.payload), [], 1) == r
  {
    hide HandlePacket, FrameOf, ParseOne;
    var frame := FrameOf(cfg.protocol, pkt.id, pkt.payload);
    assert s.buffer + frame == frame && frame + [] == frame;
    FeedFits(cfg, s, frame, [], 1);
    FrameComesFirst(cfg.protocol, cfg.capacity, pkt, []);
    var r := HandlePacket(cfg, s, Arrival(pkt, NoFault), 1);
    var at := Progress(s.(buffer := frame), 0);
    assert at.s.(buffer := []) == s;
    assert Drain(cfg, at, [], 1) == Drain(cfg, Progress(r, 1), [], 1);
    if r.buffer == [] {
      DrainNothing(cfg, Progress(r, 1), [], 1);
    }
  }

  /** The first answer of the peer brings the link up. */
  lemma Shakes(cfg: Config, s: Controller) returns (r: Controller)
    requires Proper(cfg) && Reaches(cfg, s) && Quiet(s) && !s.running && s.tasks == []
    ensures Reaches(cfg, r) && Quiet(r) && r.running && r.tasks == []
    ensures r.ledger.sender == s.ledger.sender
  {
    hide Ingest, FrameOf, BytesOf, WordOf, H.Echoed, Core, Reaches, Reset;
    WordsRoundTrip(cfg.localHash, []);
    var pkt := Packet(HANDSHAKE_ID, BytesOf(cfg.localHash));
    var frame := HandshakeFrame(cfg);
    var e := ReadEnds(1, Bytes(frame, []), false);
    CoreReached(cfg, s);
    ReachesNext(cfg, s, e);
    r := Apply(cfg, s, e);
    var s1 := CompleteOp(s.(outstanding := s.outstanding - multiset{Reading(1)}));
    FrameComesIn(cfg, s1, pkt);
    assert HandlePacket(cfg, s1, Arrival(pkt, NoFault), 1).buffer == [];
  }

  // ---------------------------------------------------------------------
  // Two reliable messages, the first one unacknowledged
  // ---------------------------------------------------------------------

  /** The front of `id` waits for its acknowledgement and another message waits behind it. */
  ghost predicate TwoWait(sender: R.Sender, id: byte)
  {
    && R.HasFront(sender, id) && R.Front(sender, id).awaiting
    && |sender.pending[id]| == 2 && !sender.pending[id][1].inProgress
  }

  ghost function AttemptOf(sender: R.Sender, id: byte): R.Completion
    requires R.HasFront(sender, id)
  {
    R.Completion(id, R.Front(sender, id).seqNo, R.Front(sender, id).generation)
  }

  lemma FirstSend(cfg: R.Settings, id: byte, bytes: seq<byte>)
    ensures var s := R.Send(cfg, R.INITIAL, id, bytes);
            |s.sent| == 1 && R.HasFront(s, id) && |s.pending[id]| == 1 && AttemptOf(s, id) in s.completions
  {
    hide Injected, Increment, R.NextGeneration;
  }

  lemma SecondSend(cfg: R.Settings, s: R.Sender, id: byte, bytes: seq<byte>)
    requires R.HasFront(s, id) && |s.pending[id]| == 1
    ensures var s' := R.Send(cfg, s, id, bytes);
            && s'.sent == s.sent && R.HasFront(s', id) && AttemptOf(s', id) == AttemptOf(s, id)
            && |s'.pending[id]| == 2 && !s'.pending[id][1].inProgress
  {
    hide R.AttemptSend;
  }

  lemma FirstWritten(s: R.Sender, id: byte)
    requires R.HasFront(s, id) && |s.pending[id]| == 2 && !s.pending[id][1].inProgress
    ensures TwoWait(Told(s, AttemptOf(s, id), true), id)
  {
  }

  lemma RunsReliable(cfg: Config, s: Controller, id: byte, bytes: seq<byte>)
    requires s.tasks != [] && s.tasks[0] == ReliableSend(id, bytes)
    ensures Enabled(s, Runs(USUAL))
    ensures Apply(cfg, s, Runs(USUAL)) == SendReliably(cfg, s.(tasks := s.tasks[1..]), id, bytes, NoFault)
  {
    hide SendReliably;
  }

  lemma FirstGoesOut(cfg: Config, s: Controller, id: byte, bytes: seq<byte>)
    requires Quiet(s) && s.running && s.ledger.sender == R.INITIAL
    ensures var r := SendReliably(cfg, s, id, bytes, NoFault);
            var sender := R.Send(SenderSettings(cfg), R.INITIAL, id, bytes);
            && R.HasFront(sender, id)
            && Sending(r, Request(s.ledger.submitted, R.Front(sender, id).bytes))
            && r.ledger == Submit(s.ledger.(sender := sender), Some(AttemptOf(sender, id)))
            && r.running && r.tasks == s.tasks
  {
    hide AsyncSend, R.Send, Submit, Sending;
    FirstSend(SenderSettings(cfg), id, bytes);
    var sender := R.Send(SenderSettings(cfg), R.INITIAL, id, bytes);
    var s1 := s.(ledger := s.ledger.(sender := sender));
    FrameGoesOut(cfg, s1, R.Front(sender, id).bytes, Some(AttemptOf(sender, id)));
  }

  lemma SecondWaits(cfg: Config, s: Controller, id: byte, bytes: seq<byte>)
    requires R.HasFront(s.ledger.sender, id) && |s.ledger.sender.pending[id]| == 1
    ensures SendReliably(cfg, s, id, bytes, NoFault)
         == s.(ledger := s.ledger.(sender := R.Send(SenderSettings(cfg), s.ledger.sender, id, bytes)))
  {
    hide AsyncSend, R.Send;
    SecondSend(SenderSettings(cfg), s.ledger.sender, id, bytes);
  }

  lemma PostTwo(cfg: Config, s: Controller, task: Task) returns (r: Controller)
    requires Reaches(cfg, s) && !s.shutdown.closed && s.tasks == [] && !task.Destroying? && !task.Drained?
    ensures Reaches(cfg, r) && r == s.(tasks := [task, task])
  {
    ReachesNext(cfg, s, Posts(task));
    var s1 := Apply(cfg, s, Posts(task));
    assert s1 == s.(tasks := [task]);
    ReachesNext(cfg, s1, Posts(task));
    r := Apply(cfg, s1, Posts(task));
  }

  lemma TwoMessages(cfg: Config, s: Controller, id: byte, bytes: seq<byte>) returns (r: Controller)
    requires Reaches(cfg, s) && Quiet(s) && s.running && s.tasks == [] && s.ledger.sender == R.INITIAL
    ensures Reaches(cfg, r) && Quiet(r) && r.running && r.tasks == [] && TwoWait(r.ledger.sender, id)
  {
    hide Reaches, Core, Apply, Enabled, R.Send, SendReliably, TwoWait, Told;
    var task := ReliableSend(id, bytes);
    var s0 := PostTwo(cfg, s, task);
    assert s0.tasks[1..] == [task] && [task][1..] == [];
    RunsReliable(cfg, s0, id, bytes);
    ReachesNext(cfg, s0, Runs(USUAL));
    var s1 := Apply(cfg, s0, Runs(USUAL));
    FirstGoesOut(cfg, s0.(tasks := [task]), id, bytes);
    RunsReliable(cfg, s1, id, bytes);
    ReachesNext(cfg, s1, Runs(USUAL));
    var s2 := Apply(cfg, s1, Runs(USUAL));
    FirstSend(SenderSettings(cfg), id, bytes);
    SecondWaits(cfg, s1.(tasks := []), id, bytes);
    SecondSend(SenderSettings(cfg), s1.ledger.sender, id, bytes);
    FirstWritten(s2.ledger.sender, id);
    CoreReached(cfg, s2);
    var first := R.Send(SenderSettings(cfg), R.INITIAL, id, bytes);
    r := FrameIsWritten(cfg, s2, Request(s.ledger.submitted, R.Front(first, id).bytes));
  }

  // ---------------------------------------------------------------------
  // The chunk that strands the link
  // ---------------------------------------------------------------------

  /** A running link on which a message of `id` waits for its acknowledgement, another one behind
      it; `held` is buffered. */
  ghost predicate Poised(s: Controller, id: byte, held: seq<byte>)
  {
    && Usable(s) && s.running && s.generation == 1 && s.queue == [] && !s.writing && s.buffer == held
    && TwoWait(s.ledger.sender, id)
  }

  ghost function Acked(cfg: Config, s: Controller, id: byte): Packet
    requires R.HasFront(s.ledger.sender, id)
  {
    Packet(ACK_ID, [id, R.Front(s.ledger.sender, id).seqNo])
  }

  ghost function FrameFor(cfg: Config, pkt: Packet): seq<byte>
    requires |pkt.payload| <= 255
  {
    FrameOf(cfg.protocol, pkt.id, pkt.payload)
  }

  /** The acknowledgement at the head of the ring breaks the link when there is no memory. */
  lemma AckBreaks(cfg: Config, at: Progress, id: byte, faults: seq<Fault>, tail: seq<byte>)
    requires Proper(cfg) && FaultAt(faults, at.n) == NoMemory && TwoWait(at.s.ledger.sender, id)
    requires Poised(at.s, id, FrameFor(cfg, Acked(cfg, at.s, id)) + tail)
    ensures DrainBreaks(cfg, at, faults, 1)
  {
    hide HandlePacket, FrameOf, ParseOne, NextFrame;
    FrameComesFirst(cfg.protocol, cfg.capacity, Acked(cfg, at.s, id), tail);
    assert Breaks(cfg, at.s.(buffer := tail), Arrival(Acked(cfg, at.s, id), NoMemory));
  }

  ghost function Beat(cfg: Config): Packet
  {
    Packet(HEARTBEAT_ID, BytesOf(0))
  }

  /** The same behind a heartbeat. */
  lemma BeatThenAckBreaks(cfg: Config, at: Progress, id: byte, tail: seq<byte>)
    requires Proper(cfg) && at.n == 0 && TwoWait(at.s.ledger.sender, id)
    requires Poised(at.s, id, FrameFor(cfg, Beat(cfg)) + (FrameFor(cfg, Acked(cfg, at.s, id)) + tail))
    ensures DrainBreaks(cfg, at, [NoMemory, NoMemory], 1)
  {
    hide FrameOf, ParseOne, NextFrame, DispatchPayload, H.Echoed, WordOf, BytesOf, R.Accepts, Breaks;
    var rest := FrameFor(cfg, Acked(cfg, at.s, id)) + tail;
    FrameComesFirst(cfg.protocol, cfg.capacity, Beat(cfg), rest);
    var a := Arrival(Beat(cfg), NoMemory);
    var s1 := at.s.(buffer := rest);
    var next := Progress(HandlePacket(cfg, s1, a, 1), 1);
    assert Poised(next.s, id, rest) && next.s.ledger == at.s.ledger;
    AckBreaks(cfg, next, id, [NoMemory, NoMemory], tail);
  }

  ghost function Hello(cfg: Config): Packet
  {
    Packet(HANDSHAKE_ID, BytesOf(cfg.localHash))
  }

  lemma HelloAdmits(cfg: Config)
    requires Proper(cfg)
    ensures Registered(cfg.protocol, Hello(cfg))
    ensures Admitting(cfg, Parse(cfg.protocol, cfg.capacity, FrameFor(cfg, Hello(cfg))).packets)
  {
    hide FrameOf, Parse, BytesOf, WordOf;
    WordsRoundTrip(cfg.localHash, []);
    FrameComesFirst(cfg.protocol, cfg.capacity, Hello(cfg), []);
    assert FrameFor(cfg, Hello(cfg)) + [] == FrameFor(cfg, Hello(cfg));
    OneThenAll(cfg.protocol, cfg.capacity, FrameFor(cfg, Hello(cfg)));
    var packets := Parse(cfg.protocol, cfg.capacity, FrameFor(cfg, Hello(cfg))).packets;
    assert packets[0] == Hello(cfg) && IsAdmission(cfg, packets[0]);
  }

  /** What completes the buffered bytes to nothing or to a heartbeat. */
  ghost predicate Completes(cfg: Config, held: seq<byte>, lead: seq<byte>)
  {
    held + lead == [] || held + lead == FrameFor(cfg, Beat(cfg))
  }

  /** A chunk of an acknowledgement, anything that fills the ring, and a handshake. */
  lemma ChunkStrands(cfg: Config, s: Controller, id: byte, held: seq<byte>, lead: seq<byte>, filler: seq<byte>)
    returns (data: seq<byte>)
    requires Proper(cfg) && Poised(s, id, held) && Completes(cfg, held, lead)
    requires |held| + |lead| + 7 + |filler| == cfg.capacity - 1
    ensures |data| == |lead| + 7 + |filler| + 9
    ensures StrandsIn(cfg, s, data, [NoMemory, NoMemory], 1)
  {
    hide Feed, Drain, DrainBreaks, FrameOf, Parse, IsAdmission, BytesOf, Admitting;
    var ack, hello := FrameFor(cfg, Acked(cfg, s, id)), FrameFor(cfg, Hello(cfg));
    var first := lead + ack + filler;
    data := first + hello;
    var k := |first|;
    assert data[..k] == first && data[k..] == hello;
    FeedFits(cfg, s, first, [NoMemory, NoMemory], 1);
    var at := Progress(s.(buffer := held + first), 0);
    assert Feed(cfg, s, data[..k], [NoMemory, NoMemory], 1) == at;
    assert held + first == held + lead + (ack + filler);
    if held + lead == [] {
      assert held + first == ack + filler;
      AckBreaks(cfg, at, id, [NoMemory, NoMemory], filler);
    } else {
      BeatThenAckBreaks(cfg, at, id, filler);
    }
    HelloAdmits(cfg);
    assert StrandsAt(cfg, s, data, [NoMemory, NoMemory], 1, k);
  }

  /** A heartbeat that lacks its last byte stays in the ring. */
  lemma FragmentStays(cfg: Config, s: Controller)
    requires Proper(cfg) && s.buffer == []
    ensures var fragment := FrameFor(cfg, Beat(cfg))[..8];
            Ingest(cfg, s, fragment, [], 1) == s.(buffer := fragment)
  {
    hide HandlePacket, BytesOf, ParseOne;
    var frame := FrameFor(cfg, Beat(cfg));
    var fragment := frame[..8];
    assert frame[..4] == [cfg.protocol.header1, cfg.protocol.header2, HEARTBEAT_ID, 4];
    assert forall i | 0 <= i < 4 :: fragment[i] == frame[..4][i];
    FeedFits(cfg, s, fragment, [], 1);
    assert s.buffer + fragment == fragment;
    ParseOneStep(cfg.protocol, cfg.capacity, fragment);
    assert Judge(cfg.protocol, cfg.capacity, fragment) == Wait;
  }

  // ---------------------------------------------------------------------
  // The exact condition on the configuration
  // ---------------------------------------------------------------------

  lemma PoisedRun(cfg: Config, id: byte) returns (s: Controller)
    requires Proper(cfg) && id in cfg.protocol.reliable
    ensures Reaches(cfg, s) && Quiet(s) && s.running && TwoWait(s.ledger.sender, id)
  {
    hide Reaches, HandshakeFrame, TwoWait;
    var s1 := Connects(cfg);
    var s2 := ProbeIsSent(cfg, s1);
    var s3 := Shakes(cfg, s2);
    var data := seq(StructSize(cfg.protocol, id), _ => 0 as byte);
    s := TwoMessages(cfg, s3, id, FrameOf(cfg.protocol, id, data));
  }

  /** The present read ends with `data`, nothing handled, and the next one begins. */
  lemma Buffers(cfg: Config, s: Controller, data: seq<byte>) returns (r: Controller)
    requires Reaches(cfg, s) && Core(s) && Quiet(s) && 0 < |data| <= RX_BUFFER_SIZE
    requires var s1 := CompleteOp(s.(outstanding := s.outstanding - multiset{Reading(1)}));
             Ingest(cfg, s1, data, [], 1) == s1.(buffer := data)
    ensures Reaches(cfg, r) && Reading(1) in r.outstanding && !r.shutdown.callback
    ensures Usable(r) && r.running == s.running && r.generation == 1 && r.queue == [] && !r.writing && r.buffer == data
    ensures r.ledger == s.ledger
  {
    hide Ingest, Loose, Current, Reset, Reaches;
    var e := ReadEnds(1, Bytes(data, []), false);
    ReachesNext(cfg, s, e);
    r := Apply(cfg, s, e);
  }

  lemma ReadStrands(cfg: Config, s: Controller, id: byte, held: seq<byte>, lead: seq<byte>) returns (e: Event)
    requires Proper(cfg) && Core(s) && Poised(s, id, held) && Reading(1) in s.outstanding && !s.shutdown.callback
    requires Completes(cfg, held, lead) && |held| + |lead| + 7 <= cfg.capacity - 1
    requires cfg.capacity - 1 - |held| + 9 <= RX_BUFFER_SIZE
    ensures Enabled(s, e) && Strands(cfg, s, e)
  {
    hide StrandsIn, Completes, TwoWait, Current, LedgerOk;
    var filler := seq(cfg.capacity - 8 - |held| - |lead|, _ => 0 as byte);
    var s1 := CompleteOp(s.(outstanding := s.outstanding - multiset{Reading(1)}));
    var data := ChunkStrands(cfg, s1, id, held, lead, filler);
    e := ReadEnds(1, Bytes(data, [NoMemory, NoMemory]), false);
  }

  lemma StrandedIsSeen(cfg: Config, s: Controller, e: Event) returns (events: seq<Event>)
    requires 8 <= cfg.capacity && Reaches(cfg, s) && Enabled(s, e) && Strands(cfg, s, e)
    ensures After(cfg, events).Reached? && !AlwaysReadyOk(cfg, events)
  {
    hide Apply, Enabled, Strands;
    var before :| After(cfg, before) == Reached(s);
    events := before + [e];
    assert events[..|before|] == before;
    ReadySteps(cfg, events);
  }

  lemma SmallPowers(n: nat)
    requires IsPow2(n)
    ensures n <= 1024 || n == 2048 || 4096 <= n
  {
    var k: nat :| n == Pow2(k);
    assert Pow2(5) == 32 && Pow2(10) == 1024 && Pow2(11) == 2048 && Pow2(12) == 4096;
    if k < 10 {
      Pow2Grows(k, 10);
    }
    if 12 < k {
      Pow2Grows(12, k);
    }
  }

  /** A ring of at most 2048 cells and a waiting reliable message suffice for a run in which ready is
      published although nothing is connected. */
  lemma StrandedRun(cfg: Config, id: byte) returns (events: seq<Event>)
    requires Proper(cfg) && id in cfg.protocol.reliable && cfg.capacity <= RX_BUFFER_SIZE
    ensures After(cfg, events).Reached? && !AlwaysReadyOk(cfg, events)
  {
    hide Core, TwoWait, Reaches, Strands, Apply, Enabled, FrameOf, BytesOf, IsPow2;
    var s := PoisedRun(cfg, id);
    CoreReached(cfg, s);
    SmallPowers(cfg.capacity);
    if cfg.capacity <= 1024 {
      var e := ReadStrands(cfg, s, id, [], []);
      events := StrandedIsSeen(cfg, s, e);
    } else {
      var frame := FrameFor(cfg, Beat(cfg));
      FragmentStays(cfg, CompleteOp(s.(outstanding := s.outstanding - multiset{Reading(1)})));
      var r := Buffers(cfg, s, frame[..8]);
      CoreReached(cfg, r);
      assert frame[..8] + frame[8..] == frame;
      var e := ReadStrands(cfg, r, id, frame[..8], frame[8..]);
      events := StrandedIsSeen(cfg, r, e);
    }
  }

  /** With handshakes and a reliable message, the ready topic is right in every run, whatever fails,
      exactly when the ring has more than 2048 cells: when the configured buffer size is at least
      that of a read. */
  lemma ReadyAlwaysIffRoomy(cfg: Config, id: byte)
    requires Proper(cfg) && id in cfg.protocol.reliable
    ensures (forall events | After(cfg, events).Reached? :: AlwaysReadyOk(cfg, events))
        <==> RX_BUFFER_SIZE < cfg.capacity
  {
    hide AlwaysReadyOk;
    if cfg.capacity <= RX_BUFFER_SIZE {
      var events := StrandedRun(cfg, id);
    } else {
      SmallPowers(cfg.capacity);
      forall events | After(cfg, events).Reached?
        ensures AlwaysReadyOk(cfg, events)
      {
        ReadyInRoomyRing(cfg, events);
      }
    }
  }
}
