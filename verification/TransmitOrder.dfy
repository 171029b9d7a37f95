/** Frames leave in the order in which they were queued: over every run, on every connection, what
    has been written is the first part of what was queued, and the rest stands in the queue. */
module TransmitOrder {
  import opened Checksums
  import opened Wire
  import opened StreamParser
  import opened SerialControl
  import opened ControllerChunk
  import opened ControllerSafety
  import L = LinkLoss
  import R = ReliableSending

  // ---------------------------------------------------------------------
  // What was queued and what was written
  // ---------------------------------------------------------------------

  /** The frames queued on a connection, in order. */
  function QueuedOn(trace: seq<Observation>, generation: nat): seq<seq<byte>>
  {
    if trace == [] then []
    else
      var last := trace[|trace| - 1];
      QueuedOn(trace[..|trace| - 1], generation)
      + if last.Enqueued? && last.generation == generation then [last.bytes] else []
  }

  /** The end of a write of the present connection. */
  predicate EndsWrite(s: Controller, e: Event)
  {
    e.WriteEnds? && e.op.Writing? && e.op.generation == s.generation
  }

  /** The frames whose writes have ended while their connection lasted, in order. */
  function WrittenOn(cfg: Config, events: seq<Event>, generation: nat): seq<seq<byte>>
  {
    if events == [] then []
    else
      var before, e := events[..|events| - 1], events[|events| - 1];
      var at := After(cfg, before);
      WrittenOn(cfg, before, generation)
      + if at.Reached? && EndsWrite(at.controller, e) && e.op.generation == generation then [e.op.request.bytes] else []
  }

  function BytesIn(queue: seq<Request>): seq<seq<byte>>
  {
    seq(|queue|, i requires 0 <= i < |queue| => queue[i].bytes)
  }

  lemma QueuedSnoc(trace: seq<Observation>, o: Observation, generation: nat)
    ensures QueuedOn(trace + [o], generation)
         == QueuedOn(trace, generation) + if o.Enqueued? && o.generation == generation then [o.bytes] else []
  {
    assert (trace + [o])[..|trace|] == trace;
  }

  // ---------------------------------------------------------------------
  // The invariant
  // ---------------------------------------------------------------------

  /** Nothing was queued yet on later connections. */
  ghost predicate NothingLater(trace: seq<Observation>, generation: nat)
  {
    forall g: nat | g > generation :: QueuedOn(trace, g) == []
  }

  /** With `done` written on the present connection, the rest is queued, unless it was given up
      because the port was lost. */
  ghost predicate InOrder(s: Controller, done: seq<seq<byte>>)
  {
    var all := QueuedOn(s.trace, s.generation);
    && NothingLater(s.trace, s.generation)
    && (all == done + BytesIn(s.queue) || (!L.PortUp(s) && s.queue == [] && done <= all))
  }

  ghost predicate Extends(s: Controller, r: Controller)
  {
    && s.generation <= r.generation
    && forall g: nat :: QueuedOn(s.trace, g) <= QueuedOn(r.trace, g)
  }

  function Still(s: Controller, r: Controller, done: seq<seq<byte>>): seq<seq<byte>>
  {
    if r.generation == s.generation then done else []
  }

  /** The step keeps the order; nothing is written on a connection that has just begun. */
  ghost predicate Carries(s: Controller, r: Controller, done: seq<seq<byte>>)
  {
    Extends(s, r) && InOrder(r, Still(s, r, done)) && done <= QueuedOn(r.trace, s.generation)
  }

  lemma CarriesTwice(s: Controller, r: Controller, t: Controller, done: seq<seq<byte>>)
    requires Carries(s, r, done) && Carries(r, t, Still(s, r, done))
    ensures Carries(s, t, done) && Still(r, t, Still(s, r, done)) == Still(s, t, done)
  {
    hide InOrder;
    forall g: nat
      ensures QueuedOn(s.trace, g) <= QueuedOn(t.trace, g)
    {
      assert QueuedOn(s.trace, g) <= QueuedOn(r.trace, g);
      assert QueuedOn(r.trace, g) <= QueuedOn(t.trace, g);
    }
  }

  /** A step that queues and drops nothing. */
  predicate Idles(s: Controller, r: Controller)
  {
    && r.generation == s.generation && r.trace == s.trace && r.queue == s.queue
    && (r.port == s.port || !L.PortUp(r))
  }

  lemma IdleCarries(s: Controller, r: Controller, done: seq<seq<byte>>)
    requires InOrder(s, done) && Idles(s, r)
    ensures Carries(s, r, done)
  {
  }

  /** An observation that is no queueing. */
  lemma ShowCarries(s: Controller, r: Controller, o: Observation, done: seq<seq<byte>>)
    requires InOrder(s, done) && Idles(s, r.(trace := s.trace)) && r.trace == s.trace + [o] && !o.Enqueued?
    ensures Carries(s, r, done)
  {
    forall g: nat
      ensures QueuedOn(r.trace, g) == QueuedOn(s.trace, g)
    {
      QueuedSnoc(s.trace, o, g);
    }
  }

  /** The queue is gone together with the connection. */
  lemma ResetCarries(cfg: Config, s: Controller, done: seq<seq<byte>>)
    requires NothingLater(s.trace, s.generation) && done <= QueuedOn(s.trace, s.generation)
    ensures Carries(s, Reset(cfg, s), done) && Reset(cfg, s).generation == s.generation + 1
    ensures Idles(s, CompleteOp(s)) && CompleteOp(s).port == s.port
  {
    hide SettleAll, QueuedOn;
    assert QueuedOn(s.trace, s.generation + 1) == [];
  }

  /** Without its port a connection gives up what is queued. */
  lemma FlushCarries(s: Controller, r: Controller, done: seq<seq<byte>>)
    requires InOrder(s, done) && !L.PortUp(s)
    requires r.generation == s.generation && r.trace == s.trace && r.port == s.port && r.queue == []
    ensures Carries(s, r, done)
  {
  }

  lemma StartNextWriteCarries(cfg: Config, s: Controller, fault: Fault, done: seq<seq<byte>>)
    requires InOrder(s, done) && (L.PortUp(s) ==> s.connected)
    ensures Carries(s, StartNextWrite(cfg, s, fault), done)
  {
    hide Reset, CompleteOp, SettleAll, InOrder, Carries, NothingLater;
    LaterIsNothing(s, done);
    IdleCarries(s, s, done);
    if s.queue == [] {
    } else if !Usable(s) {
      FlushCarries(s, s.(ledger := SettleAll(s.ledger, s.queue), queue := [], writing := false), done);
    } else {
      var s1 := s.(writing := true, pendingOps := s.pendingOps + 1);
      ResetCarries(cfg, s1, done);
      var s2 := CompleteOp(s1).(writing := false);
      ResetCarries(cfg, s2, done);
      SameStart(s, s2, Reset(cfg, s2), done);
      IdleCarries(s, s1.(outstanding := s.outstanding + multiset{Writing(s.generation, s.queue[0])}), done);
    }
  }

  lemma QueueingIs(s: Controller, r: Controller, request: Request, done: seq<seq<byte>>)
    requires InOrder(s, done) && L.PortUp(s)
    requires r == s.(ledger := r.ledger, queue := s.queue + [request],
                     trace := s.trace + [Enqueued(s.generation, request.bytes)])
    ensures Carries(s, r, done)
  {
    forall g: nat
      ensures QueuedOn(r.trace, g) == QueuedOn(s.trace, g) + if g == s.generation then [request.bytes] else []
    {
      QueuedSnoc(s.trace, Enqueued(s.generation, request.bytes), g);
    }
    assert BytesIn(r.queue) == BytesIn(s.queue) + [request.bytes];
  }

  lemma AsyncSendCarries(cfg: Config, s: Controller, bytes: seq<byte>, ticket: Option<R.Completion>, fault: Fault,
                         done: seq<seq<byte>>)
    requires InOrder(s, done)
    ensures Carries(s, AsyncSend(cfg, s, bytes, ticket, fault), done)
  {
    hide Reset, StartNextWrite, Settle, Submit, InOrder, Carries, NothingLater;
    var ledger, request := Submit(s.ledger, ticket), Request(s.ledger.submitted, bytes);
    var rejected := s.(ledger := Settle(ledger, request, false));
    IdleCarries(s, rejected, done);
    LaterIsNothing(s, done);
    ResetCarries(cfg, rejected, done);
    SameStart(s, rejected, Reset(cfg, rejected), done);
    if Usable(s) {
      var queued := s.(ledger := ledger, queue := s.queue + [request],
                       trace := s.trace + [Enqueued(s.generation, bytes)]);
      QueueingIs(s, queued, request, done);
      CarriedInOrder(s, queued, done);
      StartNextWriteCarries(cfg, queued, fault, done);
      CarriesTwice(s, queued, StartNextWrite(cfg, queued, fault), done);
    }
  }

  lemma LaterIsNothing(s: Controller, done: seq<seq<byte>>)
    requires InOrder(s, done)
    ensures NothingLater(s.trace, s.generation) && done <= QueuedOn(s.trace, s.generation)
  {
  }

  lemma CarriedInOrder(s: Controller, r: Controller, done: seq<seq<byte>>)
    requires Carries(s, r, done)
    ensures InOrder(r, Still(s, r, done))
  {
  }

  lemma SameStart(s: Controller, s': Controller, r: Controller, done: seq<seq<byte>>)
    requires Carries(s', r, done) && s'.generation == s.generation && s'.trace == s.trace
    ensures Carries(s, r, done)
  {
  }

  lemma HandOverCarries(cfg: Config, s: Controller, sender: R.Sender, key: byte, fault: Fault, done: seq<seq<byte>>)
    requires InOrder(s, done)
    ensures Carries(s, HandOver(cfg, s, sender, key, fault), done)
  {
    hide AsyncSend, InOrder, Carries;
    var s1 := s.(ledger := s.ledger.(sender := sender));
    IdleCarries(s, s1, done);
    CarriedInOrder(s, s1, done);
    if R.HasFront(sender, key) {
      var front := R.Front(sender, key);
      var ticket := Some(R.Completion(key, front.seqNo, front.generation));
      AsyncSendCarries(cfg, s1, front.bytes, ticket, fault, done);
      SameStart(s, s1, AsyncSend(cfg, s1, front.bytes, ticket, fault), done);
    }
  }

  lemma AckCarries(cfg: Config, s: Controller, a: Arrival, done: seq<seq<byte>>)
    requires InOrder(s, done)
    ensures Carries(s, HandleAck(cfg, s, a), done)
  {
    hide HandOver, R.OnAckReceived, InOrder, Carries;
    IdleCarries(s, s, done);
    if |a.pkt.payload| == 2 {
      var id, seqNo := a.pkt.payload[0], a.pkt.payload[1];
      HandOverCarries(cfg, s, R.OnAckReceived(SenderSettings(cfg), s.ledger.sender, id, seqNo), id, a.fault, done);
    }
  }

  lemma HandshakeCarries(cfg: Config, s: Controller, payload: seq<byte>, heardOn: nat, done: seq<seq<byte>>)
    requires InOrder(s, done)
    ensures Carries(s, ProcessHandshake(cfg, s, payload, heardOn), done)
  {
    hide InOrder, Carries, Admits;
    IdleCarries(s, s, done);
    if Admits(cfg, payload) {
      ShowCarries(s, ProcessHandshake(cfg, s, payload, heardOn), Accepted(s.generation, heardOn), done);
    }
  }

  lemma DispatchCarries(cfg: Config, s: Controller, pkt: Packet, done: seq<seq<byte>>)
    requires InOrder(s, done)
    ensures Carries(s, Dispatch(cfg, s, pkt), done)
  {
    hide InOrder, Carries, DispatchPayload;
    ShowCarries(s, Dispatch(cfg, s, pkt), Dispatched(s.generation, pkt.id, DispatchPayload(cfg, pkt)), done);
  }

  lemma PacketCarries(cfg: Config, s: Controller, a: Arrival, heardOn: nat, done: seq<seq<byte>>)
    requires InOrder(s, done)
    ensures Carries(s, HandlePacket(cfg, s, a, heardOn), done)
  {
    hide HandleAck, InOrder, Carries, ProcessHandshake, Dispatch, WordOf;
    var s0 := HandleEcho(s, a.pkt);
    var s1 := HandleAck(cfg, s0, a);
    IdleCarries(s, s0, done);
    CarriedInOrder(s, s0, done);
    AckCarries(cfg, s0, a, done);
    SameStart(s, s0, s1, done);
    CarriedInOrder(s, s1, done);
    var done1 := Still(s, s1, done);
    var s2 := ProcessHandshake(cfg, s1, a.pkt.payload, heardOn);
    HandshakeCarries(cfg, s1, a.pkt.payload, heardOn, done1);
    CarriedInOrder(s1, s2, done1);
    CarriesTwice(s, s1, s2, done);
    DispatchCarries(cfg, s1, a.pkt, done1);
    DispatchCarries(cfg, s2, a.pkt, Still(s1, s2, done1));
    CarriesTwice(s, s1, Dispatch(cfg, s1, a.pkt), done);
    CarriesTwice(s, s2, Dispatch(cfg, s2, a.pkt), done);
  }

  lemma {:induction false} MovesCarry(cfg: Config, s: Controller, moves: seq<Move>, heardOn: nat, done: seq<seq<byte>>)
    requires InOrder(s, done)
    ensures Carries(s, HandleMoves(cfg, s, moves, heardOn), done)
  {
    hide HandlePacket, InOrder, Carries;
    IdleCarries(s, s, done);
    if moves != [] {
      var n := |moves| - 1;
      var s1 := HandleMoves(cfg, s, moves[..n], heardOn);
      MovesCarry(cfg, s, moves[..n], heardOn, done);
      CarriedInOrder(s, s1, done);
      var done1 := Still(s, s1, done);
      match moves[n]
      case Takes(a) =>
        PacketCarries(cfg, s1, a, heardOn, done1);
        CarriesTwice(s, s1, HandlePacket(cfg, s1, a, heardOn), done);
      case Holds(buffer) =>
        IdleCarries(s1, s1.(buffer := buffer), done1);
        CarriesTwice(s, s1, s1.(buffer := buffer), done);
    }
  }

  lemma StartReceiveCarries(cfg: Config, s: Controller, throws: bool, done: seq<seq<byte>>)
    requires InOrder(s, done)
    ensures Carries(s, StartReceive(cfg, s, throws), done)
  {
    hide Reset, CompleteOp, InOrder, Carries, NothingLater;
    var s1 := s.(pendingOps := s.pendingOps + 1);
    LaterIsNothing(s, done);
    ResetCarries(cfg, s1, done);
    ResetCarries(cfg, CompleteOp(s1), done);
    SameStart(s, CompleteOp(s1), Reset(cfg, CompleteOp(s1)), done);
    IdleCarries(s, StartReceive(cfg, s, false), done);
  }

  lemma ReceiveCarries(cfg: Config, s: Controller, generation: nat, received: Received, throws: bool,
                       done: seq<seq<byte>>)
    requires InOrder(s, done)
    ensures Carries(s, HandleReceive(cfg, s, generation, received, throws), done)
  {
    hide Reset, CompleteOp, StartReceive, Ingest, InOrder, Carries, NothingLater;
    LaterIsNothing(s, done);
    var s1 := CompleteOp(s);
    ResetCarries(cfg, s, done);
    IdleCarries(s, s1, done);
    CarriedInOrder(s, s1, done);
    ResetCarries(cfg, s1, done);
    SameStart(s, s1, Reset(cfg, s1), done);
    if received.Bytes? {
      StartReceiveCarries(cfg, s1, throws, done);
      SameStart(s, s1, StartReceive(cfg, s1, throws), done);
      var s2 := Ingest(cfg, s1, received.data, received.faults, generation);
      var moves := IngestMoves(cfg, s1, received.data, received.faults, generation);
      MovesCarry(cfg, s1, moves, generation, done);
      CarriedInOrder(s1, s2, done);
      StartReceiveCarries(cfg, s2, throws, Still(s1, s2, done));
      CarriesTwice(s1, s2, StartReceive(cfg, s2, throws), done);
      SameStart(s, s1, StartReceive(cfg, s2, throws), done);
    }
  }

  lemma CheckCarries(cfg: Config, s: Controller, opening: Opening, throws: bool, done: seq<seq<byte>>)
    requires InOrder(s, done)
    ensures Carries(s, CheckConnectionImpl(cfg, s, opening, throws), done)
  {
    hide StartReceive, CompleteOp, InOrder, Carries, NothingLater, Reset;
    LaterIsNothing(s, done);
    IdleCarries(s, s, done);
    ResetCarries(cfg, s, done);
    var s1 := Reset(cfg, s);
    CarriedInOrder(s, s1, done);
    OpenCarries(cfg, s, s1, s1.(port := Present(false)), done);
    var s2 := s1.(port := Present(true), connected := true, shutdown := s1.shutdown.(requested := false),
                  running := !cfg.requireHandshake);
    var s2' := if cfg.requireHandshake then s2 else PublishReady(s2, true);
    OpenCarries(cfg, s, s1, s2', done);
    CarriedInOrder(s, s2', done);
    var s3 := StartReceive(cfg, s2', throws);
    StartReceiveCarries(cfg, s2', throws, []);
    CarriedInOrder(s2', s3, []);
    CarriesTwice(s, s2', s3, done);
    var s4 := PostSerial(s3, Transmit(HandshakeFrame(cfg)));
    IdleCarries(s3, s4, Still(s2', s3, []));
    CarriesTwice(s, s3, s4, done);
  }

  /** A port opened on a connection that has just begun. */
  lemma OpenCarries(cfg: Config, s: Controller, s1: Controller, r: Controller, done: seq<seq<byte>>)
    requires Carries(s, s1, done) && s1 == Reset(cfg, s)
    requires r.trace == s1.trace && r.queue == s1.queue && r.generation == s1.generation
    requires NothingLater(s.trace, s.generation)
    ensures Carries(s, r, done) && r.generation == s.generation + 1
  {
    hide SettleAll;
    assert QueuedOn(s.trace, s.generation + 1) == [];
    assert BytesIn([]) == [];
  }

  // ---------------------------------------------------------------------
  // Events
  // ---------------------------------------------------------------------

  /** What has been written after the event. */
  function DoneAfter(s: Controller, e: Event, done: seq<seq<byte>>): seq<seq<byte>>
  {
    if EndsWrite(s, e) then done + [e.op.request.bytes] else done
  }

  /** The write of the front has ended. */
  lemma FrontIsDone(s: Controller, r: Controller, done: seq<seq<byte>>)
    requires InOrder(s, done) && s.queue != [] && r.queue == s.queue[1..]
    requires r.generation == s.generation && r.trace == s.trace && r.port == s.port
    ensures InOrder(r, done + [s.queue[0].bytes])
  {
    assert BytesIn(s.queue) == [s.queue[0].bytes] + BytesIn(r.queue);
    var all := QueuedOn(s.trace, s.generation);
    assert done + BytesIn(s.queue) == done + [s.queue[0].bytes] + BytesIn(r.queue);
  }

  lemma WriteCarries(cfg: Config, s: Controller, op: Op, outcome: Outcome, fault: Fault, done: seq<seq<byte>>)
    requires InOrder(s, done) && op.Writing?
    requires op.generation == s.generation ==> s.connected && s.queue != [] && s.queue[0] == op.request
    ensures Carries(s, HandleWrite(cfg, s, op, outcome, fault),
                    if op.generation == s.generation then done + [op.request.bytes] else done)
  {
    hide Reset, CompleteOp, StartNextWrite, Settle, InOrder, Carries, NothingLater;
    LaterIsNothing(s, done);
    ResetCarries(cfg, s, done);
    var s1 := CompleteOp(s);
    assert s1.connected == s.connected by { CompletionKeeps(s); }
    IdleCarries(s, s1, done);
    if op.generation == s.generation {
      var s2 := s1.(writing := false, queue := s1.queue[1..],
          ledger := Settle(s1.ledger, op.request, outcome.Succeeded?));
      var done' := done + [op.request.bytes];
      CarriedInOrder(s, s1, done);
      FrontIsDone(s1, s2, done);
      IdleCarries(s2, s2, done');
      StartNextWriteCarries(cfg, s2, fault, done');
      ResetCarries(cfg, s2, done');
      SameStart(s, s2, HandleWrite(cfg, s, op, outcome, fault), done');
    }
  }

  lemma CompletionKeeps(s: Controller)
    ensures CompleteOp(s).connected == s.connected
  {
  }

  lemma TaskCarries(cfg: Config, s: Controller, task: Task, choice: Choice, done: seq<seq<byte>>)
    requires InOrder(s, done)
    ensures Carries(s, RunTask(cfg, s, task, choice), done)
  {
    hide Reset, AsyncSend, HandOver, R.Send, CheckConnectionImpl, InOrder, Carries, NothingLater;
    LaterIsNothing(s, done);
    IdleCarries(s, s, done);
    ResetCarries(cfg, s, done);
    match task
    case CheckConnection => CheckCarries(cfg, s, choice.opening, choice.throws, done);
    case HeartbeatTimer =>
      if RunTask(cfg, s, task, choice).connected {
        IdleCarries(s, RunTask(cfg, s, task, choice), done);
      }
    case Transmit(bytes) => AsyncSendCarries(cfg, s, bytes, None, choice.fault, done);
    case ReliableSend(id, bytes) =>
      HandOverCarries(cfg, s, R.Send(SenderSettings(cfg), s.ledger.sender, id, bytes), id, choice.fault, done);
    case Destroying =>
      DestroyCarries(s, Reset(cfg, s), Destroy(cfg, s), done);
    case Drained => IdleCarries(s, RunTask(cfg, s, task, choice), done);
  }

  lemma DestroyCarries(s: Controller, r: Controller, r': Controller, done: seq<seq<byte>>)
    requires Carries(s, r, done) && r' == r.(shutdown := r'.shutdown)
    ensures Carries(s, r', done)
  {
  }

  lemma RetryCarries(cfg: Config, s: Controller, t: R.Ticket, fault: Fault, done: seq<seq<byte>>)
    requires InOrder(s, done)
    ensures Carries(s, RetryTimeout(cfg, s, t, fault), done)
  {
    hide HandOver, R.HandleRetryTimeout, InOrder, Carries;
    var sender := s.ledger.sender.(expired := s.ledger.sender.expired - multiset{t});
    HandOverCarries(cfg, s, R.HandleRetryTimeout(SenderSettings(cfg), sender, t), t.key, fault, done);
  }

  lemma ApplyCarries(cfg: Config, s: Controller, e: Event, done: seq<seq<byte>>)
    requires Core(s) && Enabled(s, e) && InOrder(s, done)
    ensures Carries(s, Apply(cfg, s, e), DoneAfter(s, e, done))
  {
    hide RunTask, RetryTimeout, HandleReceive, HandleWrite, R.Expired, InOrder, Carries, Loose;
    match e
    case Posts(task) => IdleCarries(s, Apply(cfg, s, e), done);
    case Runs(choice) =>
      var s1 := s.(tasks := s.tasks[1..]);
      IdleCarries(s, s1, done);
      CarriedInOrder(s, s1, done);
      TaskCarries(cfg, s1, s.tasks[0], choice, done);
      SameStart(s, s1, Apply(cfg, s, e), done);
    case Expires(timer) => IdleCarries(s, Apply(cfg, s, e), done);
    case Retries(t, fault) => RetryCarries(cfg, s, t, fault, done);
    case ReadEnds(generation, received, throws) =>
      var s1 := s.(outstanding := s.outstanding - multiset{Reading(generation)});
      IdleCarries(s, s1, done);
      CarriedInOrder(s, s1, done);
      ReceiveCarries(cfg, s1, generation, received, throws, done);
      SameStart(s, s1, Apply(cfg, s, e), done);
    case WriteEnds(op, outcome, fault) =>
      var s1 := s.(outstanding := s.outstanding - multiset{op});
      IdleCarries(s, s1, done);
      CarriedInOrder(s, s1, done);
      WriteCarries(cfg, s1, op, outcome, fault, done);
      SameStart(s, s1, Apply(cfg, s, e), DoneAfter(s, e, done));
    case LosesPort => IdleCarries(s, Apply(cfg, s, e), done);
    case ClosesDoor => IdleCarries(s, Apply(cfg, s, e), done);
    case PostsDestroy => IdleCarries(s, Apply(cfg, s, e), done);
  }

  // ---------------------------------------------------------------------
  // Runs
  // ---------------------------------------------------------------------

  /** On every connection, present or past, what was written is the first part of what was queued. */
  ghost predicate Prefixes(cfg: Config, events: seq<Event>, s: Controller)
  {
    && InOrder(s, WrittenOn(cfg, events, s.generation))
    && forall g: nat :: WrittenOn(cfg, events, g) <= QueuedOn(s.trace, g)
  }

  lemma {:induction false} AlwaysPrefixes(cfg: Config, events: seq<Event>)
    requires After(cfg, events).Reached?
    ensures Prefixes(cfg, events, After(cfg, events).controller)
  {
    hide Apply, Enabled, Core, InOrder, EndsWrite, Prefixes;
    if events == [] {
      NothingWritten(cfg);
    } else {
      var n := |events| - 1;
      var before := events[..n];
      AlwaysPrefixes(cfg, before);
      CoreAlways(cfg, before);
      PrefixStep(cfg, before, events[n]);
      assert before + [events[n]] == events;
    }
  }

  lemma NothingWritten(cfg: Config)
    ensures Prefixes(cfg, [], Initial(cfg))
  {
  }

  lemma WrittenSnoc(cfg: Config, events: seq<Event>, e: Event, g: nat)
    requires After(cfg, events).Reached?
    ensures var s := After(cfg, events).controller;
            WrittenOn(cfg, events + [e], g)
            == if g == s.generation then DoneAfter(s, e, WrittenOn(cfg, events, g)) else WrittenOn(cfg, events, g)
  {
    assert (events + [e])[..|events|] == events;
  }

  lemma PrefixStep(cfg: Config, events: seq<Event>, e: Event)
    requires After(cfg, events).Reached? && Enabled(After(cfg, events).controller, e)
    requires Core(After(cfg, events).controller) && Prefixes(cfg, events, After(cfg, events).controller)
    ensures Prefixes(cfg, events + [e], Apply(cfg, After(cfg, events).controller, e))
  {
    hide Apply, Core, InOrder, WrittenOn, EndsWrite, Enabled, QueuedOn;
    var s := After(cfg, events).controller;
    var r := Apply(cfg, s, e);
    var done := WrittenOn(cfg, events, s.generation);
    ApplyCarries(cfg, s, e, done);
    LaterIsNothing(s, done);
    var done' := DoneAfter(s, e, done);
    forall g: nat
      ensures WrittenOn(cfg, events + [e], g) <= QueuedOn(r.trace, g)
      ensures g == r.generation ==> WrittenOn(cfg, events + [e], g) == Still(s, r, done')
    {
      WrittenSnoc(cfg, events, e, g);
      assert WrittenOn(cfg, events, g) <= QueuedOn(s.trace, g) <= QueuedOn(r.trace, g);
    }
  }

  /** Over every run and on every connection, frames are written in the order in which they were
      queued, none twice and none left out; while the port is open the rest stands in the queue. */
  lemma FramesLeaveInOrder(cfg: Config, events: seq<Event>)
    requires After(cfg, events).Reached?
    ensures var s := After(cfg, events).controller;
            && (forall g: nat :: WrittenOn(cfg, events, g) <= QueuedOn(s.trace, g))
            && (L.PortUp(s) || s.queue != [] ==>
                  QueuedOn(s.trace, s.generation) == WrittenOn(cfg, events, s.generation) + BytesIn(s.queue))
  {
    AlwaysPrefixes(cfg, events);
  }

  /** Sending, when nothing goes wrong: on an open link with room in the queue and the gate open the
      frame is queued last, and something is being written; otherwise nothing is queued and a
      completion reports failure at once. */
  lemma SendIsQueued(cfg: Config, s: Controller, bytes: seq<byte>, ticket: Option<R.Completion>)
    ensures var r := AsyncSend(cfg, s, bytes, ticket, NoFault);
            var gate := !cfg.requireHandshake || s.running || |bytes| <= 2 || bytes[2] == 0xFF;
            if s.connected && L.PortUp(s) && |s.queue| < 1024 && gate then
              && r.queue == s.queue + [Request(s.ledger.submitted, bytes)] && r.writing
              && r.ledger.reports == s.ledger.reports
              && (s.writing ==> r.outstanding == s.outstanding)
              && (!s.writing ==> r.outstanding == s.outstanding + multiset{Writing(s.generation, r.queue[0])})
            else
              && r == s.(ledger := r.ledger)
              && (ticket.Some? ==> r.ledger.reports == s.ledger.reports + [Report(s.ledger.submitted, false)])
  {
  }
}
