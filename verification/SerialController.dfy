/** The connection controller with its reliable sender and its packet handler. Everything runs on
    one strand, so each handler is one step on the state below; the strand's waiting tasks, the
    reads and writes under way and the sender's timers are part of it. */
module SerialControl {
  import opened Checksums
  import opened Wire
  import opened StreamParser
  import H = Heartbeat
  import PH = PacketHandling
  import R = ReliableSending
  import RingArithmetic

  const MAX_TX_QUEUE_SIZE: nat := 1024

  /** The size of the buffer that a read fills. */
  const RX_BUFFER_SIZE: nat := 2048

  /** `capacity` is the size of the packet handler's ring. */
  datatype Config = Config(
    protocol: Protocol, capacity: nat, requireHandshake: bool, ignoreVersionMismatch: bool,
    localHash: H.word32, heartbeat: H.Settings, warningThreshold: int)

  function SenderSettings(cfg: Config): R.Settings
  {
    R.Settings(cfg.protocol.algo, cfg.warningThreshold)
  }

  datatype Port = Absent | Present(isOpen: bool)

  datatype Request = Request(uid: nat, bytes: seq<byte>)

  /** A completion called with its outcome. */
  datatype Report = Report(uid: nat, success: bool)

  /** An asynchronous operation under way, with the connection it was started on. */
  datatype Op = Reading(generation: nat) | Writing(generation: nat, request: Request)

  datatype Task =
    | CheckConnection
    | HeartbeatTimer
    | Transmit(bytes: seq<byte>)
    | ReliableSend(id: byte, bytes: seq<byte>)
    | Destroying
    | Drained

  /** What a run shows of the handshake gate: frames entering the queue, packets handed to topics,
      and accepted hashes with the connection whose read brought them. */
  datatype Observation =
    | Enqueued(generation: nat, bytes: seq<byte>)
    | Dispatched(generation: nat, id: byte, payload: seq<byte>)
    | Accepted(generation: nat, heardOn: nat)

  /** The reliable sender and the completions it hands to the controller: `tickets` holds that of
      every request that came with one, out of the `submitted` ones numbered in order; `live` are
      those whose completion was not called. */
  datatype Ledger = Ledger(
    submitted: nat, tickets: map<nat, R.Completion>, live: set<nat>, reports: seq<Report>, sender: R.Sender)

  /** `closed`: no more tasks are accepted. `callback`: the destructor waits for the operations to
      end; `signals` counts how often it was released. */
  datatype Shutdown = Shutdown(
    requested: bool, closed: bool, posted: bool, destroyed: bool, callback: bool, signals: nat)

  /** `buffer` is what the packet handler's ring holds. */
  datatype Controller = Controller(
    connected: bool, running: bool, generation: nat, port: Port, buffer: seq<byte>,
    queue: seq<Request>, writing: bool, ledger: Ledger,
    pendingOps: nat, outstanding: multiset<Op>, shutdown: Shutdown, tasks: seq<Task>,
    ready: bool, published: seq<bool>, beat: H.Beat, trace: seq<Observation>)

  function Initial(cfg: Config): Controller
  {
    Controller(
      false, !cfg.requireHandshake, 0, Absent, [], [], false, Ledger(0, map[], {}, [], R.INITIAL),
      0, multiset{}, Shutdown(false, false, false, false, false, 0), [],
      false, [false], H.Beat(0, 0, false, 0), [])
  }

  // ---------------------------------------------------------------------
  // Words
  // ---------------------------------------------------------------------

  /** A uint32 in memory, least significant byte first. */
  function BytesOf(n: H.word32): (s: seq<byte>)
    ensures |s| == 4
  {
    [n % 256, n / 256 % 256, n / 65536 % 256, n / 16777216]
  }

  function WordOf(s: seq<byte>): H.word32
    requires |s| == 4
  {
    var a: int, b: int, c: int, d: int := s[0], s[1], s[2], s[3];
    a + 256 * b + 65536 * c + 16777216 * d
  }

  lemma WordsRoundTrip(n: H.word32, s: seq<byte>)
    ensures WordOf(BytesOf(n)) == n
    ensures |s| == 4 ==> BytesOf(WordOf(s)) == s
  {
    assert n == n / 256 * 256 + n % 256;
    assert n / 256 == n / 65536 * 256 + n / 256 % 256;
    assert n / 65536 == n / 16777216 * 256 + n / 65536 % 256;
    if |s| == 4 {
      var m := WordOf(s);
      var b: int, c: int, d: int := s[1], s[2], s[3];
      assert m / 256 == b + 256 * c + 65536 * d;
      assert m / 65536 == c + 256 * d;
    }
  }

  // ---------------------------------------------------------------------
  // Classification
  // ---------------------------------------------------------------------

  datatype HandshakeValidation = Matched | IgnoredMismatch | RejectedMismatch

  function ClassifyHandshake(local: H.word32, remote: H.word32, ignore: bool): HandshakeValidation
  {
    if local == remote then Matched else if ignore then IgnoredMismatch else RejectedMismatch
  }

  datatype FollowUp = ContinueReading | ResetConnection

  function ClassifyReceive(bytesRead: nat, portIsOpen: bool): FollowUp
  {
    if bytesRead == 0 && !portIsOpen then ResetConnection else ContinueReading
  }

  /** The payload of a handshake packet lets the link go up. */
  predicate Admits(cfg: Config, payload: seq<byte>)
  {
    |payload| == 4 && ClassifyHandshake(cfg.localHash, WordOf(payload), cfg.ignoreVersionMismatch) != RejectedMismatch
  }

  // ---------------------------------------------------------------------
  // Completions
  // ---------------------------------------------------------------------

  /** Call a request's completion, if it has one that was not called yet: the sender handles it at
      once, being on the strand. */
  function Settle(l: Ledger, request: Request, success: bool): Ledger
  {
    if request.uid !in l.live then l
    else
      l.(live := l.live - {request.uid}, reports := l.reports + [Report(request.uid, success)],
         sender := if request.uid in l.tickets then Told(l.sender, l.tickets[request.uid], success) else l.sender)
  }

  /** The sender's own handling of a completion, which is then no longer outstanding. */
  function Told(sender: R.Sender, c: R.Completion, success: bool): R.Sender
  {
    R.HandleSendCompletion(sender.(completions := sender.completions - multiset{c}), c, success)
  }

  /** Call all of them with failure, front first. */
  function SettleAll(l: Ledger, requests: seq<Request>): Ledger
  {
    if requests == [] then l
    else
      var n := |requests| - 1;
      Settle(SettleAll(l, requests[..n]), requests[n], false)
  }

  /** A request gets its number, and perhaps comes with a completion. */
  function Submit(l: Ledger, ticket: Option<R.Completion>): Ledger
  {
    match ticket
    case Some(c) =>
      l.(submitted := l.submitted + 1, tickets := l.tickets[l.submitted := c], live := l.live + {l.submitted})
    case None => l.(submitted := l.submitted + 1)
  }

  /** Once no more tasks are accepted, a reset empties the sender. */
  function Cleared(l: Ledger, closed: bool): Ledger
  {
    if closed then l.(sender := R.ClearAll(l.sender)) else l
  }

  // ---------------------------------------------------------------------
  // Connection
  // ---------------------------------------------------------------------

  /** Only changes are published. */
  function PublishReady(s: Controller, ready: bool): Controller
  {
    if s.ready == ready then s else s.(ready := ready, published := s.published + [ready])
  }

  lemma PublishingIs(s: Controller, ready: bool)
    ensures var r := PublishReady(s, ready); r == s.(ready := r.ready, published := r.published)
  {
  }

  /** On the strand the callback is posted rather than called. */
  function NotifyDrained(s: Controller): Controller
  {
    if !s.shutdown.callback then s
    else s.(shutdown := s.shutdown.(callback := false), tasks := s.tasks + [Drained])
  }

  function Reset(cfg: Config, s: Controller): (r: Controller)
    ensures r.buffer == [] && !r.connected
  {
    var s1 := PublishReady(s, false).(
      connected := false, generation := s.generation + 1, shutdown := s.shutdown.(requested := true),
      ledger := SettleAll(Cleared(s.ledger, s.shutdown.closed), s.queue), queue := [], writing := false,
      port := Absent, buffer := [], running := !cfg.requireHandshake, beat := H.Cleared(s.beat));
    if s1.pendingOps == 0 && s1.shutdown.callback then NotifyDrained(s1) else s1
  }

  function CompleteOp(s: Controller): (r: Controller)
    ensures r.buffer == s.buffer
  {
    var s1 := s.(pendingOps := if s.pendingOps > 0 then s.pendingOps - 1 else 0);
    if s1.shutdown.requested && s1.pendingOps == 0 && s1.shutdown.callback then NotifyDrained(s1) else s1
  }

  function PostSerial(s: Controller, task: Task): Controller
  {
    if s.shutdown.closed then s else s.(tasks := s.tasks + [task])
  }

  predicate Usable(s: Controller)
  {
    s.connected && s.port.Present? && s.port.isOpen
  }

  /** `throws` says that the read could not be started. */
  function StartReceive(cfg: Config, s: Controller, throws: bool): Controller
  {
    if !Usable(s) then s
    else
      var s1 := s.(pendingOps := s.pendingOps + 1);
      if throws then Reset(cfg, CompleteOp(s1))
      else s1.(outstanding := s.outstanding + multiset{Reading(s.generation)})
  }

  datatype Opening = OpenFails | OpensClosed | Opens

  function HandshakeFrame(cfg: Config): seq<byte>
  {
    FrameOf(cfg.protocol, HANDSHAKE_ID, BytesOf(cfg.localHash))
  }

  function HeartbeatFrame(cfg: Config, count: H.word32): seq<byte>
  {
    FrameOf(cfg.protocol, HEARTBEAT_ID, BytesOf(count))
  }

  function CheckConnectionImpl(cfg: Config, s: Controller, opening: Opening, throws: bool): Controller
  {
    if s.connected then
      if s.port.Present? && s.port.isOpen then s else Reset(cfg, s)
    else
      var s1 := Reset(cfg, s);
      match opening
      case OpenFails => s1
      case OpensClosed => s1.(port := Present(false))
      case Opens =>
        var s2 := s1.(port := Present(true), connected := true, shutdown := s1.shutdown.(requested := false),
                     running := !cfg.requireHandshake);
        var s3 := StartReceive(cfg, if cfg.requireHandshake then s2 else PublishReady(s2, true), throws);
        if cfg.requireHandshake then PostSerial(s3, Transmit(HandshakeFrame(cfg))) else s3
  }

  // ---------------------------------------------------------------------
  // Transmission
  // ---------------------------------------------------------------------

  /** What may go wrong when a frame is sent: memory runs out before it is queued, or the write
      cannot be started. */
  datatype Fault = NoFault | NoMemory | NoWrite

  /** The packet handler is left alone, or emptied together with the connection. */
  predicate BufferKept(s: Controller, r: Controller)
  {
    r.buffer == s.buffer || (r.buffer == [] && !r.connected)
  }

  function StartNextWrite(cfg: Config, s: Controller, fault: Fault): (r: Controller)
    ensures BufferKept(s, r)
  {
    if s.writing || s.queue == [] then s
    else if !Usable(s) then s.(ledger := SettleAll(s.ledger, s.queue), queue := [], writing := false)
    else
      var s1 := s.(writing := true, pendingOps := s.pendingOps + 1);
      if fault == NoWrite then Reset(cfg, CompleteOp(s1).(writing := false))
      else s1.(outstanding := s.outstanding + multiset{Writing(s.generation, s.queue[0])})
  }

  /** Before the handshake only handshake frames pass; a string too short to have an ID passes too. */
  predicate Blocked(cfg: Config, s: Controller, bytes: seq<byte>)
  {
    cfg.requireHandshake && !s.running && |bytes| > 2 && bytes[2] != HANDSHAKE_ID
  }

  function AsyncSend(
      cfg: Config, s: Controller, bytes: seq<byte>, ticket: Option<R.Completion>, fault: Fault): (r: Controller)
    ensures BufferKept(s, r)
  {
    var ledger := Submit(s.ledger, ticket);
    var request := Request(s.ledger.submitted, bytes);
    var rejected := s.(ledger := Settle(ledger, request, false));
    if !Usable(s) || Blocked(cfg, s, bytes) || |s.queue| >= MAX_TX_QUEUE_SIZE then rejected
    else if fault == NoMemory then Reset(cfg, rejected)
    else
      StartNextWrite(
        cfg,
        s.(ledger := ledger, queue := s.queue + [request], trace := s.trace + [Enqueued(s.generation, bytes)]),
        fault)
  }

  /** The sender has gone on to `sender` by a step about `key`; if it hands over the front's frame,
      that is sent with a completion for this attempt. */
  function HandOver(cfg: Config, s: Controller, sender: R.Sender, key: byte, fault: Fault): (r: Controller)
    ensures BufferKept(s, r)
  {
    var s1 := s.(ledger := s.ledger.(sender := sender));
    if |sender.sent| <= |s.ledger.sender.sent| || !R.HasFront(sender, key) then s1
    else
      var front := R.Front(sender, key);
      AsyncSend(cfg, s1, front.bytes, Some(R.Completion(key, front.seqNo, front.generation)), fault)
  }

  function SendReliably(cfg: Config, s: Controller, id: byte, bytes: seq<byte>, fault: Fault): Controller
  {
    HandOver(cfg, s, R.Send(SenderSettings(cfg), s.ledger.sender, id, bytes), id, fault)
  }

  /** The handler of a retry timer that has expired. */
  function RetryTimeout(cfg: Config, s: Controller, t: R.Ticket, fault: Fault): Controller
  {
    var sender := s.ledger.sender.(expired := s.ledger.sender.expired - multiset{t});
    HandOver(cfg, s, R.HandleRetryTimeout(SenderSettings(cfg), sender, t), t.key, fault)
  }

  datatype Outcome = Succeeded | Aborted | Failed

  /** The handler of a write that is no longer outstanding. */
  function HandleWrite(cfg: Config, s: Controller, op: Op, outcome: Outcome, fault: Fault): Controller
    requires op.Writing?
  {
    var s1 := CompleteOp(s);
    if op.generation != s1.generation then s1
    else
      var rest := if s1.queue != [] && s1.queue[0] == op.request then s1.queue[1..] else s1.queue;
      var s2 := s1.(writing := false, queue := rest, ledger := Settle(s1.ledger, op.request, outcome.Succeeded?));
      match outcome
      case Succeeded => StartNextWrite(cfg, s2, fault)
      case Aborted => s2
      case Failed => Reset(cfg, s2)
  }

  // ---------------------------------------------------------------------
  // Reception
  // ---------------------------------------------------------------------

  /** A packet that the parser delivered, and what goes wrong if handling it sends a frame. */
  datatype Arrival = Arrival(pkt: Packet, fault: Fault)

  function ProcessHandshake(cfg: Config, s: Controller, payload: seq<byte>, heardOn: nat): Controller
  {
    if !Admits(cfg, payload) then s
    else
      PublishReady(s.(running := true, beat := H.Cleared(s.beat),
          trace := s.trace + [Accepted(s.generation, heardOn)]), true)
  }

  /** Topics get reliable payloads without their sequence byte. */
  function DispatchPayload(cfg: Config, pkt: Packet): seq<byte>
  {
    if pkt.id in cfg.protocol.reliable && pkt.payload != [] then pkt.payload[..|pkt.payload| - 1] else pkt.payload
  }

  function Dispatch(cfg: Config, s: Controller, pkt: Packet): Controller
  {
    s.(trace := s.trace + [Dispatched(s.generation, pkt.id, DispatchPayload(cfg, pkt))])
  }

  function HandleEcho(s: Controller, pkt: Packet): Controller
  {
    if pkt.id == HEARTBEAT_ID && s.running && |pkt.payload| == 4 then
      s.(beat := H.Echoed(s.beat, WordOf(pkt.payload)))
    else s
  }

  function HandleAck(cfg: Config, s: Controller, a: Arrival): (r: Controller)
    ensures BufferKept(s, r)
  {
    if a.pkt.id == ACK_ID && |a.pkt.payload| == 2 then
      var id, seqNo := a.pkt.payload[0], a.pkt.payload[1];
      HandOver(cfg, s, R.OnAckReceived(SenderSettings(cfg), s.ledger.sender, id, seqNo), id, a.fault)
    else s
  }

  function HandlePacket(cfg: Config, s: Controller, a: Arrival, heardOn: nat): (r: Controller)
    ensures BufferKept(s, r)
  {
    var s1 := HandleAck(cfg, HandleEcho(s, a.pkt), a);
    if cfg.requireHandshake then
      if a.pkt.id == HANDSHAKE_ID then
        Dispatch(cfg, if s1.running then s1 else ProcessHandshake(cfg, s1, a.pkt.payload, heardOn), a.pkt)
      else if s1.running then Dispatch(cfg, s1, a.pkt)
      else s1
    else
      var answers := a.pkt.id == HANDSHAKE_ID && !s1.running;
      Dispatch(cfg, if answers then ProcessHandshake(cfg, s1, a.pkt.payload, heardOn) else s1, a.pkt)
  }

  /** What goes wrong, packet by packet, if handling it sends a frame. */
  function FaultAt(faults: seq<Fault>, n: nat): Fault
  {
    if n < |faults| then faults[n] else NoFault
  }

  /** A state within a chunk, and how many of the chunk's packets have been handled. */
  datatype Progress = Progress(s: Controller, n: nat)

  /** Parse and handle packets until the ring gives none. */
  function Drain(cfg: Config, at: Progress, faults: seq<Fault>, heardOn: nat): (r: Progress)
    ensures |r.s.buffer| <= |at.s.buffer| && at.n <= r.n
    decreases |at.s.buffer|
  {
    var one := ParseOne(cfg.protocol, cfg.capacity, at.s.buffer);
    var s1 := at.s.(buffer := one.rest);
    match one.packet
    case None => Progress(s1, at.n)
    case Some(pkt) =>
      Drain(cfg, Progress(HandlePacket(cfg, s1, Arrival(pkt, FaultAt(faults, at.n)), heardOn), at.n + 1), faults,
          heardOn)
  }

  predicate HasRoom(cfg: Config, s: Controller)
  {
    |s.buffer| < cfg.capacity - 1
  }

  function Push(cfg: Config, s: Controller, b: byte): Controller
  {
    if HasRoom(cfg, s) then s.(buffer := s.buffer + [b]) else s
  }

  /** One received byte. A full ring is drained first, and emptied if that gave nothing. */
  function FeedByte(cfg: Config, at: Progress, b: byte, faults: seq<Fault>, heardOn: nat): Progress
  {
    if HasRoom(cfg, at.s) then Progress(Push(cfg, at.s, b), at.n)
    else
      var d := Drain(cfg, at, faults, heardOn);
      if HasRoom(cfg, d.s) || d.n > at.n then Progress(Push(cfg, d.s, b), d.n)
      else Progress(Push(cfg, d.s.(buffer := []), b), d.n)
  }

  /** The loop over the bytes of a chunk. */
  function Feed(cfg: Config, s: Controller, data: seq<byte>, faults: seq<Fault>, heardOn: nat): Progress
  {
    if data == [] then Progress(s, 0)
    else
      var n := |data| - 1;
      FeedByte(cfg, Feed(cfg, s, data[..n], faults, heardOn), data[n], faults, heardOn)
  }

  /** A whole chunk: the loop, and then the rest of the ring. */
  function Ingest(cfg: Config, s: Controller, data: seq<byte>, faults: seq<Fault>, heardOn: nat): Controller
  {
    Drain(cfg, Feed(cfg, s, data, faults, heardOn), faults, heardOn).s
  }

  /** A read brings bytes or an error. */
  datatype Received = ReadAborted | ReadFailed | Bytes(data: seq<byte>, faults: seq<Fault>)

  /** The handler of a read that is no longer outstanding. */
  function HandleReceive(cfg: Config, s: Controller, generation: nat, received: Received, throws: bool): Controller
  {
    var s1 := CompleteOp(s);
    if generation != s1.generation then s1
    else match received
      case ReadAborted => s1
      case ReadFailed => Reset(cfg, s1)
      case Bytes(data, faults) =>
        if ClassifyReceive(|data|, s1.port.Present? && s1.port.isOpen) == ResetConnection then Reset(cfg, s1)
        else if data == [] then StartReceive(cfg, s1, throws)
        else StartReceive(cfg, Ingest(cfg, s1, data, faults, generation), throws)
  }

  // ---------------------------------------------------------------------
  // Timers and shutdown
  // ---------------------------------------------------------------------

  function HandleHeartbeatTimer(cfg: Config, s: Controller, now: int): Controller
  {
    if !s.connected then s
    else if !s.running then
      if cfg.requireHandshake then PostSerial(s, Transmit(HandshakeFrame(cfg))) else s
    else
      var t := H.Tick(cfg.heartbeat, s.beat, now);
      match t.action
      case Send(count) => PostSerial(s.(beat := t.beat), Transmit(HeartbeatFrame(cfg, count)))
      case GiveUp => Reset(cfg, s)
  }

  /** The destructor's task on the strand. */
  function Destroy(cfg: Config, s: Controller): Controller
  {
    var s1 := Reset(cfg, s);
    var shutdown := s1.shutdown.(destroyed := true);
    if s1.pendingOps == 0 then s1.(shutdown := shutdown.(signals := shutdown.signals + 1))
    else s1.(shutdown := shutdown.(callback := true))
  }

  // ---------------------------------------------------------------------
  // Runs
  // ---------------------------------------------------------------------

  /** How the outside answers while a task runs. */
  datatype Choice = Choice(opening: Opening, throws: bool, fault: Fault, now: int)

  function RunTask(cfg: Config, s: Controller, task: Task, choice: Choice): Controller
  {
    match task
    case CheckConnection => CheckConnectionImpl(cfg, s, choice.opening, choice.throws)
    case HeartbeatTimer => HandleHeartbeatTimer(cfg, s, choice.now)
    case Transmit(bytes) => AsyncSend(cfg, s, bytes, None, choice.fault)
    case ReliableSend(id, bytes) => SendReliably(cfg, s, id, bytes, choice.fault)
    case Destroying => Destroy(cfg, s)
    case Drained => s.(shutdown := s.shutdown.(signals := s.shutdown.signals + 1))
  }

  /** Other threads post tasks; the strand runs the first one; a retry timer expires and later its
      handler runs; a read or a write ends; the port goes away; the destructor closes the door and
      posts its task. */
  datatype Event =
    | Posts(task: Task)
    | Runs(choice: Choice)
    | Expires(timer: R.EntryId)
    | Retries(ticket: R.Ticket, fault: Fault)
    | ReadEnds(generation: nat, received: Received, throws: bool)
    | WriteEnds(op: Op, outcome: Outcome, fault: Fault)
    | LosesPort
    | ClosesDoor
    | PostsDestroy

  predicate Enabled(s: Controller, e: Event)
  {
    match e
    case Posts(task) => !task.Destroying? && !task.Drained?
    case Runs(_) => s.tasks != []
    case Expires(timer) => timer in s.ledger.sender.armed
    case Retries(t, _) => t in s.ledger.sender.expired
    case ReadEnds(generation, received, _) =>
      Reading(generation) in s.outstanding && (received.Bytes? ==> |received.data| <= RX_BUFFER_SIZE)
    case WriteEnds(op, _, _) => op.Writing? && op in s.outstanding
    case LosesPort => s.port.Present?
    case ClosesDoor => true
    case PostsDestroy => s.shutdown.closed && !s.shutdown.posted
  }

  function Apply(cfg: Config, s: Controller, e: Event): Controller
    requires Enabled(s, e)
  {
    match e
    case Posts(task) => PostSerial(s, task)
    case Runs(choice) => RunTask(cfg, s.(tasks := s.tasks[1..]), s.tasks[0], choice)
    case Expires(timer) => s.(ledger := s.ledger.(sender := R.Expired(s.ledger.sender, timer)))
    case Retries(t, fault) => RetryTimeout(cfg, s, t, fault)
    case ReadEnds(generation, received, throws) =>
      HandleReceive(cfg, s.(outstanding := s.outstanding - multiset{Reading(generation)}), generation, received, throws)
    case WriteEnds(op, outcome, fault) =>
      HandleWrite(cfg, s.(outstanding := s.outstanding - multiset{op}), op, outcome, fault)
    case LosesPort => s.(port := Present(false))
    case ClosesDoor => s.(shutdown := s.shutdown.(closed := true))
    case PostsDestroy => s.(shutdown := s.shutdown.(posted := true), tasks := s.tasks + [Destroying])
  }

  datatype Maybe = Impossible | Reached(controller: Controller)

  /** The state after the events, if each of them is enabled when its turn comes. */
  function After(cfg: Config, events: seq<Event>): Maybe
  {
    if events == [] then Reached(Initial(cfg))
    else
      var before := After(cfg, events[..|events| - 1]);
      var e := events[|events| - 1];
      if before.Reached? && Enabled(before.controller, e) then Reached(Apply(cfg, before.controller, e)) else Impossible
  }

  // ---------------------------------------------------------------------
  // The class
  // ---------------------------------------------------------------------

  /** The node. Each method is one of its handlers; parameters such as `throws`, `fault` and
      `opening` are the answers of the outside. */
  class SerialController {
    const cfg: Config
    const handler: PH.PacketHandler
    var connected: bool
    var running: bool
    var generation: nat
    var port: Port
    var queue: seq<Request>
    var writing: bool
    var ledger: Ledger
    var pendingOps: nat
    var outstanding: multiset<Op>
    var shutdown: Shutdown
    var tasks: seq<Task>
    var ready: bool
    var published: seq<bool>
    var beat: H.Beat
    var trace: seq<Observation>

    ghost predicate Valid()
      reads handler
    {
      handler.Valid() && handler.protocol == cfg.protocol && handler.capacity == cfg.capacity
    }

    ghost function State(): Controller
      requires Valid()
      reads this, handler, handler.ring
    {
      Controller(connected, running, generation, port, handler.Contents(), queue, writing, ledger,
                 pendingOps, outstanding, shutdown, tasks, ready, published, beat, trace)
    }

    /** The ring's size follows from the configured buffer size. */
    constructor (cfg: Config, bufferSize: nat)
      requires bufferSize + 1 <= RingArithmetic.HALF_WORD
      ensures Valid() && fresh(handler) && fresh(handler.ring)
      ensures this.cfg == cfg.(capacity := handler.capacity) && bufferSize <= handler.capacity - 1
      ensures State() == Initial(this.cfg)
    {
      var h := new PH.PacketHandler(cfg.protocol, bufferSize);
      handler := h;
      this.cfg := cfg.(capacity := h.capacity);
      connected, running, generation, port := false, !cfg.requireHandshake, 0, Absent;
      queue, writing, ledger := [], false, Ledger(0, map[], {}, [], R.INITIAL);
      pendingOps, outstanding := 0, multiset{};
      shutdown, tasks := Shutdown(false, false, false, false, false, 0), [];
      ready, published, beat, trace := false, [false], H.Beat(0, 0, false, 0), [];
    }

    method Publish(value: bool)
      requires Valid()
      modifies this`ready, this`published
      ensures Valid()
      ensures State() == PublishReady(old(State()), value)
    {
      if ready == value {
        return;
      }
      published := published + [value];
      ready := value;
    }

    /** Moves the completion out of the request and calls it. */
    method Complete(request: Request, success: bool)
      modifies this`ledger
      ensures ledger == Settle(old(ledger), request, success)
    {
      if request.uid in ledger.live {
        var sender := ledger.sender;
        if request.uid in ledger.tickets {
          sender := Told(sender, ledger.tickets[request.uid], success);
        }
        ledger := ledger.(live := ledger.live - {request.uid},
            reports := ledger.reports + [Report(request.uid, success)],
                          sender := sender);
      }
    }

    method FlushQueue()
      modifies this`ledger, this`queue, this`writing
      ensures ledger == SettleAll(old(ledger), old(queue)) && queue == [] && !writing
    {
      for i := 0 to |queue|
        invariant queue == old(queue)
        invariant ledger == SettleAll(old(ledger), queue[..i])
      {
        Complete(queue[i], false);
        assert queue[..i + 1][..i] == queue[..i];
      }
      assert queue[..|queue|] == queue;
      queue := [];
      writing := false;
    }

    method Notify()
      requires Valid()
      modifies this`shutdown, this`tasks
      ensures Valid()
      ensures State() == NotifyDrained(old(State()))
    {
      if !shutdown.callback {
        return;
      }
      shutdown := shutdown.(callback := false);
      tasks := tasks + [Drained];
    }

    method LeaveConnection()
      requires Valid()
      modifies this`ready, this`published, this`connected, this`generation, this`shutdown
      ensures Valid()
      ensures var s := old(State());
              State() == PublishReady(s, false).(
                connected := false, generation := s.generation + 1, shutdown := s.shutdown.(requested := true))
    {
      Publish(false);
      connected := false;
      generation := generation + 1;
      shutdown := shutdown.(requested := true);
    }

    method ForgetLink()
      requires Valid()
      modifies this`port, this`running, this`beat, handler`head, handler`tail
      ensures Valid()
      ensures var s := old(State());
              State() == s.(port := Absent, buffer := [], running := !cfg.requireHandshake, beat := H.Cleared(s.beat))
    {
      port := Absent;
      handler.Reset();
      running := !cfg.requireHandshake;
      beat := beat.(count := 0, lastTx := 0, awaiting := false);
    }

    /** Once the door is closed the sender is emptied first. */
    method FailQueue()
      requires Valid()
      modifies this`ledger, this`queue, this`writing
      ensures Valid()
      ensures var s := old(State());
              State() == s.(ledger := SettleAll(Cleared(s.ledger, s.shutdown.closed), s.queue), queue := [],
                  writing := false)
    {
      hide SettleAll, R.ClearAll;
      if shutdown.closed {
        ledger := ledger.(sender := R.ClearAll(ledger.sender));
      }
      FlushQueue();
    }

    method ResetSerial()
      requires Valid()
      modifies this, handler`head, handler`tail
      ensures Valid()
      ensures State() == Reset(cfg, old(State()))
    {
      hide SettleAll, Cleared, PublishReady, H.Cleared;
      LeaveConnection();
      FailQueue();
      ForgetLink();
      ghost var s := old(State());
      assert State() == PublishReady(s, false).(
        connected := false, generation := s.generation + 1, shutdown := s.shutdown.(requested := true),
        ledger := SettleAll(Cleared(s.ledger, s.shutdown.closed), s.queue), queue := [], writing := false,
        port := Absent, buffer := [], running := !cfg.requireHandshake, beat := H.Cleared(s.beat)) by {
        PublishingIs(s, false);
      }
      if pendingOps == 0 && shutdown.callback {
        Notify();
      }
    }

    method CompleteSerialOp()
      requires Valid()
      modifies this`pendingOps, this`shutdown, this`tasks
      ensures Valid()
      ensures State() == CompleteOp(old(State()))
    {
      if pendingOps > 0 {
        pendingOps := pendingOps - 1;
      }
      if shutdown.requested && pendingOps == 0 && shutdown.callback {
        Notify();
      }
    }

    method Post(task: Task)
      requires Valid()
      modifies this`tasks
      ensures Valid()
      ensures State() == PostSerial(old(State()), task)
    {
      if shutdown.closed {
        return;
      }
      tasks := tasks + [task];
    }

    method BeginReceive(throws: bool)
      requires Valid()
      modifies this, handler`head, handler`tail
      ensures Valid()
      ensures State() == StartReceive(cfg, old(State()), throws)
    {
      hide Reset, CompleteOp;
      if !connected || port.Absent? {
        return;
      }
      if !port.isOpen {
        return;
      }
      pendingOps := pendingOps + 1;
      if throws {
        CompleteSerialOp();
        ResetSerial();
      } else {
        outstanding := outstanding + multiset{Reading(generation)};
      }
    }

    method CheckConnectionTask(opening: Opening, throws: bool)
      requires Valid()
      modifies this, handler`head, handler`tail
      ensures Valid()
      ensures State() == CheckConnectionImpl(cfg, old(State()), opening, throws)
    {
      hide Reset, StartReceive, HandshakeFrame;
      if connected {
        if port.Absent? || !port.isOpen {
          ResetSerial();
        }
        return;
      }
      ResetSerial();
      if opening == OpenFails {
        return;
      }
      port := Present(opening == Opens);
      if opening == OpensClosed {
        return;
      }
      MarkConnected();
      if !cfg.requireHandshake {
        Publish(true);
      }
      BeginReceive(throws);
      if cfg.requireHandshake {
        Post(Transmit(HandshakeFrame(cfg)));
      }
    }

    method MarkConnected()
      requires Valid()
      modifies this`connected, this`shutdown, this`running
      ensures Valid()
      ensures var s := old(State());
              State() == s.(connected := true, shutdown := s.shutdown.(requested := false),
                  running := !cfg.requireHandshake)
    {
      connected := true;
      shutdown := shutdown.(requested := false);
      running := !cfg.requireHandshake;
    }

    /** The write of the front is started, or counted, refused and counted off again. */
    method StartWrite(fault: Fault)
      requires Valid()
      requires queue != []
      modifies this, handler`head, handler`tail
      ensures Valid()
      ensures var s := old(State());
              var s1 := s.(writing := true, pendingOps := s.pendingOps + 1);
              State() == if fault == NoWrite then Reset(cfg, CompleteOp(s1).(writing := false))
                         else s1.(outstanding := s.outstanding + multiset{Writing(s.generation, s.queue[0])})
    {
      hide Reset, CompleteOp;
      writing := true;
      pendingOps := pendingOps + 1;
      if fault == NoWrite {
        CompleteSerialOp();
        writing := false;
        ResetSerial();
      } else {
        outstanding := outstanding + multiset{Writing(generation, queue[0])};
      }
    }

    method BeginNextWrite(fault: Fault)
      requires Valid()
      modifies this, handler`head, handler`tail
      ensures Valid()
      ensures State() == StartNextWrite(cfg, old(State()), fault)
    {
      hide Reset, CompleteOp, SettleAll;
      if writing || queue == [] {
        return;
      }
      if !connected || port.Absent? || !port.isOpen {
        FlushQueue();
        return;
      }
      StartWrite(fault);
    }

    /** The checks before a frame is queued, in order. */
    method Queueable(bytes: seq<byte>) returns (ok: bool)
      requires Valid()
      ensures ok <==> Usable(State()) && !Blocked(cfg, State(), bytes) && |queue| < MAX_TX_QUEUE_SIZE
    {
      if !connected || port.Absent? {
        return false;
      }
      if !port.isOpen {
        return false;
      }
      if cfg.requireHandshake && !running && |bytes| > 2 && bytes[2] != HANDSHAKE_ID {
        return false;
      }
      return |queue| < MAX_TX_QUEUE_SIZE;
    }

    /** The frame is numbered and queued, and written if no other is. */
    method Enqueue(bytes: seq<byte>, ticket: Option<R.Completion>, fault: Fault)
      requires Valid()
      modifies this, handler`head, handler`tail
      ensures Valid()
      ensures var s := old(State());
              State() == StartNextWrite(
                cfg,
                s.(ledger := Submit(s.ledger, ticket), queue := s.queue + [Request(s.ledger.submitted, bytes)],
                   trace := s.trace + [Enqueued(s.generation, bytes)]),
                fault)
    {
      hide StartNextWrite, Submit;
      trace := trace + [Enqueued(generation, bytes)];
      queue := queue + [Request(ledger.submitted, bytes)];
      ledger := Submit(ledger, ticket);
      BeginNextWrite(fault);
    }

    method AcceptOrReject(bytes: seq<byte>, ticket: Option<R.Completion>, fault: Fault)
      requires Valid()
      modifies this, handler`head, handler`tail
      ensures Valid()
      ensures State() == AsyncSend(cfg, old(State()), bytes, ticket, fault)
    {
      hide Reset, StartNextWrite, Usable, Blocked, Submit, Settle;
      var ok := Queueable(bytes);
      if ok && fault != NoMemory {
        Enqueue(bytes, ticket, fault);
        return;
      }
      var request := Request(ledger.submitted, bytes);
      ledger := Submit(ledger, ticket);
      Complete(request, false);
      if ok {
        ResetSerial();
      }
    }

    /** Takes the written request out of the queue and calls its completion. */
    method FinishWrite(request: Request, success: bool)
      requires Valid()
      modifies this`writing, this`queue, this`ledger
      ensures Valid()
      ensures var s := old(State());
              State() == s.(writing := false, ledger := Settle(s.ledger, request, success),
                            queue := if s.queue != [] && s.queue[0] == request then s.queue[1..] else s.queue)
    {
      writing := false;
      if queue != [] && queue[0] == request {
        queue := queue[1..];
      }
      Complete(request, success);
    }

    method WriteEnded(op: Op, outcome: Outcome, fault: Fault)
      requires Valid()
      requires op.Writing?
      modifies this, handler`head, handler`tail
      ensures Valid()
      ensures State() == HandleWrite(cfg, old(State()), op, outcome, fault)
    {
      hide Reset, StartNextWrite, CompleteOp, Settle;
      CompleteSerialOp();
      if op.generation != generation {
        return;
      }
      FinishWrite(op.request, outcome.Succeeded?);
      if outcome.Succeeded? {
        BeginNextWrite(fault);
      } else if outcome.Failed? {
        ResetSerial();
      }
    }

    method OnWriteEnd(op: Op, outcome: Outcome, fault: Fault)
      requires Valid()
      requires op.Writing? && op in outstanding
      modifies this, handler`head, handler`tail
      ensures Valid()
      ensures State() == Apply(cfg, old(State()), WriteEnds(op, outcome, fault))
    {
      hide HandleWrite;
      outstanding := outstanding - multiset{op};
      WriteEnded(op, outcome, fault);
    }

    method TakeHandshake(payload: seq<byte>, heardOn: nat)
      requires Valid()
      modifies this`running, this`beat, this`trace, this`ready, this`published
      ensures Valid()
      ensures State() == ProcessHandshake(cfg, old(State()), payload, heardOn)
    {
      if |payload| != 4 {
        return;
      }
      var validation := ClassifyHandshake(cfg.localHash, WordOf(payload), cfg.ignoreVersionMismatch);
      match validation
      case RejectedMismatch =>
      case Matched =>
        EnterRunning(heardOn);
      case IgnoredMismatch =>
        EnterRunning(heardOn);
    }

    method EnterRunning(heardOn: nat)
      requires Valid()
      modifies this`running, this`beat, this`trace, this`ready, this`published
      ensures Valid()
      ensures var s := old(State());
              State() == PublishReady(s.(running := true, beat := H.Cleared(s.beat),
                                         trace := s.trace + [Accepted(s.generation, heardOn)]), true)
    {
      hide PublishReady;
      running := true;
      beat := beat.(count := 0, lastTx := 0, awaiting := false);
      trace := trace + [Accepted(generation, heardOn)];
      Publish(true);
    }

    /** The sender's own step is done; what it hands over is sent. */
    method TakeOver(sender: R.Sender, key: byte, fault: Fault)
      requires Valid()
      modifies this, handler`head, handler`tail
      ensures Valid() && State() == HandOver(cfg, old(State()), sender, key, fault)
    {
      hide AsyncSend;
      var handsOver := |sender.sent| > |ledger.sender.sent|;
      ledger := ledger.(sender := sender);
      if handsOver && R.HasFront(sender, key) {
        var front := R.Front(sender, key);
        AcceptOrReject(front.bytes, Some(R.Completion(key, front.seqNo, front.generation)), fault);
      }
    }

    method SendReliableTask(id: byte, bytes: seq<byte>, fault: Fault)
      requires Valid()
      modifies this, handler`head, handler`tail
      ensures Valid() && State() == SendReliably(cfg, old(State()), id, bytes, fault)
    {
      hide HandOver, R.Send;
      TakeOver(R.Send(SenderSettings(cfg), ledger.sender, id, bytes), id, fault);
    }

    method OnRetryTimeout(t: R.Ticket, fault: Fault)
      requires Valid() && t in ledger.sender.expired
      modifies this, handler`head, handler`tail
      ensures Valid() && State() == Apply(cfg, old(State()), Retries(t, fault))
    {
      hide HandOver, R.HandleRetryTimeout;
      var sender := ledger.sender.(expired := ledger.sender.expired - multiset{t});
      TakeOver(R.HandleRetryTimeout(SenderSettings(cfg), sender, t), t.key, fault);
    }

    method TakePacket(a: Arrival, heardOn: nat)
      requires Valid()
      modifies this, handler`head, handler`tail
      ensures Valid() && State() == HandlePacket(cfg, old(State()), a, heardOn)
    {
      hide HandOver, ProcessHandshake, WordOf, DispatchPayload, R.OnAckReceived;
      var pkt := a.pkt;
      if pkt.id == HEARTBEAT_ID && running && |pkt.payload| == 4 {
        beat := H.Echoed(beat, WordOf(pkt.payload));
      }
      if pkt.id == ACK_ID && |pkt.payload| == 2 {
        var id, seqNo := pkt.payload[0], pkt.payload[1];
        TakeOver(R.OnAckReceived(SenderSettings(cfg), ledger.sender, id, seqNo), id, a.fault);
      }
      if pkt.id == HANDSHAKE_ID && !running {
        TakeHandshake(pkt.payload, heardOn);
      }
      if !cfg.requireHandshake || pkt.id == HANDSHAKE_ID || running {
        trace := trace + [Dispatched(generation, pkt.id, DispatchPayload(cfg, pkt))];
      }
    }

    /** Parses and handles until the ring gives no packet; `n` counts the packets of the chunk. */
    method DrainRing(n: nat, faults: seq<Fault>, heardOn: nat) returns (m: nat)
      requires Valid()
      modifies this, handler`head, handler`tail, handler`checksumErrorCount, handler`rxPacketCount
      ensures Valid() && Progress(State(), m) == Drain(cfg, Progress(old(State()), n), faults, heardOn)
    {
      hide HandlePacket, ParseOne;
      m := n;
      ghost var all := Drain(cfg, Progress(State(), n), faults, heardOn);
      var packet := handler.ParsePacket();
      while packet.Some?
        invariant Valid()
        invariant if packet.Some? then
                    var next := HandlePacket(cfg, State(), Arrival(packet.value, FaultAt(faults, m)), heardOn);
                    all == Drain(cfg, Progress(next, m + 1), faults, heardOn)
                  else all == Progress(State(), m)
        decreases packet.Some?, |handler.Contents()|
      {
        TakePacket(Arrival(packet.value, FaultAt(faults, m)), heardOn);
        m := m + 1;
        packet := handler.ParsePacket();
      }
    }

    /** One received byte: pushed, after draining a full ring, and after emptying one that draining
        cannot help. */
    method TakeByte(b: byte, n: nat, faults: seq<Fault>, heardOn: nat) returns (m: nat)
      requires Valid()
      modifies this, handler, handler.ring
      ensures Valid() && Progress(State(), m) == FeedByte(cfg, Progress(old(State()), n), b, faults, heardOn)
    {
      hide Drain;
      m := n;
      var pushed := handler.TryPushByte(b);
      if pushed {
        return;
      }
      m := DrainRing(n, faults, heardOn);
      pushed := handler.TryPushByte(b);
      if pushed {
        return;
      }
      handler.RecordOverflow();
      if m == n {
        handler.Reset();
      }
      pushed := handler.TryPushByte(b);
    }

    method IngestReceivedBytes(data: seq<byte>, faults: seq<Fault>, heardOn: nat)
      requires Valid()
      modifies this, handler, handler.ring
      ensures Valid() && State() == Ingest(cfg, old(State()), data, faults, heardOn)
    {
      hide FeedByte, Drain;
      var n := 0;
      for i := 0 to |data|
        invariant Valid()
        invariant Progress(State(), n) == Feed(cfg, old(State()), data[..i], faults, heardOn)
      {
        n := TakeByte(data[i], n, faults, heardOn);
        assert data[..i + 1][..i] == data[..i];
      }
      assert data[..|data|] == data;
      n := DrainRing(n, faults, heardOn);
    }

    /** A read of the present connection brought bytes. */
    method TakeBytes(data: seq<byte>, faults: seq<Fault>, heardOn: nat, throws: bool)
      requires Valid()
      modifies this, handler, handler.ring
      ensures Valid()
      ensures var s := old(State());
              var followUp := ClassifyReceive(|data|, s.port.Present? && s.port.isOpen);
              State() == if followUp == ResetConnection then Reset(cfg, s)
                         else if data == [] then StartReceive(cfg, s, throws)
                         else StartReceive(cfg, Ingest(cfg, s, data, faults, heardOn), throws)
    {
      hide Reset, StartReceive, Ingest;
      var followUp := ClassifyReceive(|data|, port.Present? && port.isOpen);
      if followUp == ResetConnection {
        ResetSerial();
        return;
      }
      if data != [] {
        IngestReceivedBytes(data, faults, heardOn);
      }
      BeginReceive(throws);
    }

    method ReadEnded(readOn: nat, received: Received, throws: bool)
      requires Valid()
      modifies this, handler, handler.ring
      ensures Valid() && State() == HandleReceive(cfg, old(State()), readOn, received, throws)
    {
      hide Reset, StartReceive, CompleteOp, Ingest;
      CompleteSerialOp();
      if readOn != generation {
        return;
      }
      match received
      case ReadAborted =>
      case ReadFailed => ResetSerial();
      case Bytes(data, faults) => TakeBytes(data, faults, readOn, throws);
    }

    method OnReadEnd(readOn: nat, received: Received, throws: bool)
      requires Valid() && Enabled(State(), ReadEnds(readOn, received, throws))
      modifies this, handler, handler.ring
      ensures Valid() && State() == Apply(cfg, old(State()), ReadEnds(readOn, received, throws))
    {
      hide HandleReceive;
      outstanding := outstanding - multiset{Reading(readOn)};
      ReadEnded(readOn, received, throws);
    }

    method OnHeartbeatTimer(now: int)
      requires Valid()
      modifies this, handler`head, handler`tail
      ensures Valid()
      ensures State() == HandleHeartbeatTimer(cfg, old(State()), now)
    {
      hide Reset, HandshakeFrame, HeartbeatFrame;
      if !connected {
        return;
      }
      if cfg.requireHandshake && !running {
        Post(Transmit(HandshakeFrame(cfg)));
        return;
      }
      if !running {
        return;
      }
      if cfg.heartbeat.timeout > 0 && beat.awaiting {
        var elapsed := now - beat.startedAt;
        if elapsed <= cfg.heartbeat.timeout {
          Post(Transmit(HeartbeatFrame(cfg, beat.lastTx)));
          return;
        }
        if cfg.heartbeat.strict {
          ResetSerial();
          return;
        }
        beat := beat.(awaiting := false);
      }
      var count := beat.count;
      beat := H.Beat(H.Next(count), count, true, now);
      Post(Transmit(HeartbeatFrame(cfg, count)));
    }

    /** The destructor's task on the strand. */
    method DestroyTask()
      requires Valid()
      modifies this, handler`head, handler`tail
      ensures Valid()
      ensures State() == Destroy(cfg, old(State()))
    {
      hide Reset;
      ResetSerial();
      shutdown := shutdown.(destroyed := true);
      if pendingOps == 0 {
        shutdown := shutdown.(signals := shutdown.signals + 1);
        return;
      }
      shutdown := shutdown.(callback := true);
    }
  }
}
