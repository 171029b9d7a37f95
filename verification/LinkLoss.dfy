/** When a link goes down and when it comes up, event by event, and what is left of it then. */
module LinkLoss {
  import opened Checksums
  import opened Wire
  import opened StreamParser
  import opened SerialControl
  import opened ControllerChunk
  import S = ControllerSafety
  import opened ReadyTopic
  import H = Heartbeat
  import R = ReliableSending

  // ---------------------------------------------------------------------
  // What breaks a link
  // ---------------------------------------------------------------------

  /** The port is there and open. */
  predicate PortUp(s: Controller)
  {
    s.port == Present(true)
  }

  /** The frame would be queued on the link that is up, and memory or the write's start fails. */
  predicate SendBreaks(cfg: Config, s: Controller, bytes: seq<byte>, fault: Fault)
  {
    && PortUp(s) && |s.queue| < 1024
    && (!cfg.requireHandshake || s.running || |bytes| <= 2 || bytes[2] == 0xFF)
    && (fault == NoMemory || (fault == NoWrite && !s.writing))
  }

  /** A heartbeat that stayed unanswered for longer than the timeout, on a strict link. */
  predicate HeartbeatLost(cfg: Config, s: Controller, now: int)
  {
    && s.running && cfg.heartbeat.strict && cfg.heartbeat.timeout > 0
    && s.beat.awaiting && now - s.beat.startedAt > cfg.heartbeat.timeout
  }

  predicate TaskBreaks(cfg: Config, s: Controller, task: Task, choice: Choice)
  {
    match task
    case CheckConnection => !PortUp(s)
    case HeartbeatTimer => HeartbeatLost(cfg, s, choice.now)
    case Transmit(bytes) => SendBreaks(cfg, s, bytes, choice.fault)
    case ReliableSend(id, bytes) =>
      !R.HasFront(s.ledger.sender, id)
      && SendBreaks(cfg, s, Injected(cfg.protocol.algo, bytes, s.ledger.sender.counter), choice.fault)
    case Destroying => true
    case Drained => false
  }

  /** The frame that an attempt hands over. */
  function FrontFrame(cfg: Config, s: R.Sender, key: byte): seq<byte>
    requires R.HasFront(s, key)
  {
    var front := R.Front(s, key);
    if front.numbered then front.bytes else Injected(cfg.protocol.algo, front.bytes, s.counter)
  }

  /** The frame that a matching timer sends again. */
  predicate RetryBreaks(cfg: Config, s: Controller, t: R.Ticket, fault: Fault)
  {
    && R.HasFront(s.ledger.sender, t.key)
    && R.Front(s.ledger.sender, t.key).seqNo == t.seqNo && !R.Front(s.ledger.sender, t.key).inProgress
    && SendBreaks(cfg, s, FrontFrame(cfg, s.ledger.sender, t.key), fault)
  }

  /** A read that failed, that brought nothing because the port is closed, whose packets broke the
      link, or after which no new read could be started. */
  predicate ReadBreaks(cfg: Config, s: Controller, received: Received, throws: bool)
  {
    match received
    case ReadAborted => false
    case ReadFailed => true
    case Bytes(data, faults) =>
      || (data == [] && !PortUp(s))
      || (PortUp(s) && throws)
      || (data != [] && !Ingest(cfg, CompleteOp(s), data, faults, s.generation).connected)
  }

  /** A write that failed, or behind which the next one could not be started. */
  predicate WriteBreaks(s: Controller, op: Op, outcome: Outcome, fault: Fault)
    requires op.Writing?
  {
    match outcome
    case Succeeded =>
      PortUp(s) && fault == NoWrite && (if s.queue != [] && s.queue[0] == op.request then |s.queue| > 1
          else s.queue != [])
    case Aborted => false
    case Failed => true
  }

  predicate LinkBreaks(cfg: Config, s: Controller, e: Event)
    requires Enabled(s, e)
  {
    match e
    case Runs(choice) => TaskBreaks(cfg, s, s.tasks[0], choice)
    case Retries(t, fault) => RetryBreaks(cfg, s, t, fault)
    case ReadEnds(generation, received, throws) =>
      generation == s.generation
      && ReadBreaks(cfg, s.(outstanding := s.outstanding - multiset{Reading(generation)}), received, throws)
    case WriteEnds(op, outcome, fault) => op.generation == s.generation && WriteBreaks(s, op, outcome, fault)
    case _ => false
  }

  lemma SendBreaksIs(cfg: Config, s: Controller, bytes: seq<byte>, fault: Fault)
    requires s.connected
    ensures SendBreaks(cfg, s, bytes, fault) <==> SendFails(cfg, s, bytes, fault)
  {
  }

  lemma SendGoesDown(cfg: Config, s: Controller, bytes: seq<byte>, ticket: Option<R.Completion>, fault: Fault)
    requires s.connected
    ensures !AsyncSend(cfg, s, bytes, ticket, fault).connected <==> SendBreaks(cfg, s, bytes, fault)
  {
    hide AsyncSend, SendBreaks, SendFails;
    AsyncSendSign(cfg, s, bytes, ticket, fault);
    SendBreaksIs(cfg, s, bytes, fault);
  }

  lemma HandOverGoesDown(cfg: Config, s: Controller, sender: R.Sender, key: byte, fault: Fault)
    requires s.connected
    ensures !HandOver(cfg, s, sender, key, fault).connected
            <==> |sender.sent| > |s.ledger.sender.sent| && R.HasFront(sender, key)
                 && SendBreaks(cfg, s, R.Front(sender, key).bytes, fault)
  {
    hide AsyncSend;
    if R.HasFront(sender, key) {
      var front := R.Front(sender, key);
      SendGoesDown(
        cfg, s.(ledger := s.ledger.(sender := sender)), front.bytes,
        Some(R.Completion(key, front.seqNo, front.generation)), fault);
    }
  }

  lemma AttemptHandsOver(cfg: Config, s: R.Sender, key: byte)
    requires R.HasFront(s, key)
    ensures var s' := R.AttemptSend(SenderSettings(cfg), s, key);
            && R.HasFront(s', key)
            && (|s'.sent| > |s.sent| <==> !R.Front(s, key).inProgress)
            && (|s'.sent| > |s.sent| ==> R.Front(s', key).bytes == FrontFrame(cfg, s, key))
  {
    hide Injected, Increment, R.NextGeneration;
  }

  lemma SendHandsOver(cfg: Config, s: R.Sender, id: byte, bytes: seq<byte>)
    ensures var s' := R.Send(SenderSettings(cfg), s, id, bytes);
            && (|s'.sent| > |s.sent| <==> !R.HasFront(s, id))
            && R.HasFront(s', id)
            && (!R.HasFront(s, id) ==> R.Front(s', id).bytes == Injected(cfg.protocol.algo, bytes, s.counter))
  {
    hide R.AttemptSend, Injected;
    AttemptHandsOver(cfg, R.Queued(s, id, bytes), id);
  }

  lemma RetryHandsOver(cfg: Config, s: R.Sender, t: R.Ticket)
    ensures var s' := R.HandleRetryTimeout(SenderSettings(cfg), s, t);
            && (|s'.sent| > |s.sent|
                <==> R.HasFront(s, t.key) && R.Front(s, t.key).seqNo == t.seqNo && !R.Front(s, t.key).inProgress)
            && (|s'.sent| > |s.sent| ==>
                  R.HasFront(s', t.key) && R.Front(s', t.key).bytes == FrontFrame(cfg, s, t.key))
  {
    hide R.AttemptSend, Injected;
    if R.HasFront(s, t.key) {
      AttemptHandsOver(cfg, R.TimedOut(SenderSettings(cfg), s, t.key), t.key);
    }
  }

  lemma TaskGoesDown(cfg: Config, s: Controller, task: Task, choice: Choice)
    requires s.connected
    ensures !RunTask(cfg, s, task, choice).connected <==> TaskBreaks(cfg, s, task, choice)
  {
    hide Reset, AsyncSend, HandOver, R.Send, R.HandleRetryTimeout, SendBreaks;
    match task
    case Transmit(bytes) => SendGoesDown(cfg, s, bytes, None, choice.fault);
    case ReliableSend(id, bytes) =>
      SendHandsOver(cfg, s.ledger.sender, id, bytes);
      HandOverGoesDown(cfg, s, R.Send(SenderSettings(cfg), s.ledger.sender, id, bytes), id, choice.fault);
    case _ =>
  }

  lemma RetryGoesDown(cfg: Config, s: Controller, t: R.Ticket, fault: Fault)
    requires s.connected
    ensures !RetryTimeout(cfg, s, t, fault).connected <==> RetryBreaks(cfg, s, t, fault)
  {
    hide HandOver, R.Send, R.HandleRetryTimeout, SendBreaks;
    var sender := s.ledger.sender.(expired := s.ledger.sender.expired - multiset{t});
    RetryHandsOver(cfg, sender, t);
    HandOverGoesDown(cfg, s, R.HandleRetryTimeout(SenderSettings(cfg), sender, t), t.key, fault);
  }

  lemma CompletionIs(s: Controller)
    ensures var r := CompleteOp(s);
            r == s.(pendingOps := r.pendingOps, shutdown := r.shutdown, tasks := r.tasks)
  {
  }

  lemma WriteGoesDown(cfg: Config, s: Controller, op: Op, outcome: Outcome, fault: Fault)
    requires s.connected && op.Writing? && op.generation == s.generation
    ensures !HandleWrite(cfg, s, op, outcome, fault).connected <==> WriteBreaks(s, op, outcome, fault)
  {
    hide Reset, CompleteOp, Settle, SettleAll;
    CompletionIs(s);
    var s1 := CompleteOp(s);
    var rest := if s1.queue != [] && s1.queue[0] == op.request then s1.queue[1..] else s1.queue;
    var s2 := s1.(writing := false, queue := rest, ledger := Settle(s1.ledger, op.request, outcome.Succeeded?));
    if rest != [] && PortUp(s2) {
      StartNextWriteFails(cfg, s2, fault);
    }
  }

  lemma StartReceiveGoesDown(cfg: Config, s: Controller, throws: bool)
    ensures StartReceive(cfg, s, throws).connected <==> s.connected && !(PortUp(s) && throws)
  {
    hide Reset, CompleteOp;
  }

  // ---------------------------------------------------------------------
  // What is left of it
  // ---------------------------------------------------------------------

  /** The connection is over: its port closed, nothing queued, nothing being written. */
  predicate Over(s: Controller, r: Controller)
  {
    && !r.connected && r.generation == s.generation + 1 && r.port == Absent && r.queue == [] && !r.writing
  }

  /** As when the node was started, but for the connection's number: nothing buffered, no handshake
      done, no heartbeat awaited, and the topic says so. */
  predicate Down(cfg: Config, s: Controller, r: Controller)
  {
    && Over(s, r) && r.buffer == [] && r.running == !cfg.requireHandshake
    && r.beat == H.Beat(0, 0, false, s.beat.startedAt)
    && !r.ready && r.published == s.published + if s.ready then [false] else []
  }

  /** The link stays, or what is left of it is `Over`; after that nothing more happens to it. */
  predicate Falls(s: Controller, r: Controller)
  {
    && (r.connected ==> s.connected && r.port == s.port && r.generation == s.generation)
    && (s.connected && !r.connected ==> Over(s, r))
    && (!s.connected && s.port == Absent && s.queue == [] && !s.writing ==>
          r.port == Absent && r.queue == [] && !r.writing && r.generation == s.generation)
  }

  lemma ResetIsDown(cfg: Config, s: Controller)
    ensures Down(cfg, s, Reset(cfg, s))
  {
    hide SettleAll;
  }

  lemma StartNextWriteFalls(cfg: Config, s: Controller, fault: Fault)
    ensures var r := StartNextWrite(cfg, s, fault);
            Falls(s, r) && (s.connected && !r.connected ==> Down(cfg, s, r))
  {
    hide Reset, CompleteOp, SettleAll;
    var s1 := s.(writing := true, pendingOps := s.pendingOps + 1);
    CompletionIs(s1);
    ResetIsDown(cfg, CompleteOp(s1).(writing := false));
  }

  lemma AsyncSendFalls(cfg: Config, s: Controller, bytes: seq<byte>, ticket: Option<R.Completion>, fault: Fault)
    ensures var r := AsyncSend(cfg, s, bytes, ticket, fault);
            Falls(s, r) && (s.connected && !r.connected ==> Down(cfg, s, r))
  {
    hide Reset, StartNextWrite, Settle, Submit;
    var ledger, request := Submit(s.ledger, ticket), Request(s.ledger.submitted, bytes);
    ResetIsDown(cfg, s.(ledger := Settle(ledger, request, false)));
    StartNextWriteFalls(
      cfg, s.(ledger := ledger, queue := s.queue + [request], trace := s.trace + [Enqueued(s.generation, bytes)]),
          fault);
  }

  lemma HandOverFalls(cfg: Config, s: Controller, sender: R.Sender, key: byte, fault: Fault)
    ensures var r := HandOver(cfg, s, sender, key, fault);
            Falls(s, r) && (s.connected && !r.connected ==> Down(cfg, s, r))
  {
    hide AsyncSend;
    if R.HasFront(sender, key) {
      var front := R.Front(sender, key);
      AsyncSendFalls(
        cfg, s.(ledger := s.ledger.(sender := sender)), front.bytes,
        Some(R.Completion(key, front.seqNo, front.generation)), fault);
    }
  }

  lemma AckFalls(cfg: Config, s: Controller, a: Arrival)
    ensures Falls(s, HandleAck(cfg, s, a))
  {
    hide HandOver, R.OnAckReceived;
    if |a.pkt.payload| == 2 {
      var id, seqNo := a.pkt.payload[0], a.pkt.payload[1];
      HandOverFalls(cfg, s, R.OnAckReceived(SenderSettings(cfg), s.ledger.sender, id, seqNo), id, a.fault);
    }
  }

  lemma MoveFalls(cfg: Config, s: Controller, m: Move, heardOn: nat)
    ensures Falls(s, HandleMove(cfg, s, m, heardOn))
  {
    hide HandleAck, WordOf;
    if m.Takes? {
      AckFalls(cfg, HandleEcho(s, m.arrival.pkt), m.arrival);
    }
  }

  lemma {:induction false} MovesFall(cfg: Config, s: Controller, moves: seq<Move>, heardOn: nat)
    ensures Falls(s, HandleMoves(cfg, s, moves, heardOn))
  {
    hide HandleMove;
    if moves != [] {
      var n := |moves| - 1;
      MovesFall(cfg, s, moves[..n], heardOn);
      MoveFalls(cfg, HandleMoves(cfg, s, moves[..n], heardOn), moves[n], heardOn);
    }
  }

  lemma IngestFalls(cfg: Config, s: Controller, data: seq<byte>, faults: seq<Fault>, heardOn: nat)
    ensures Falls(s, Ingest(cfg, s, data, faults, heardOn))
  {
    hide Ingest;
    var moves := IngestMoves(cfg, s, data, faults, heardOn);
    MovesFall(cfg, s, moves, heardOn);
  }

  /** A read of this connection. */
  lemma ReadGoesDown(cfg: Config, s: Controller, received: Received, throws: bool)
    requires s.connected
    ensures var r := HandleReceive(cfg, s, s.generation, received, throws);
            && (!r.connected <==> ReadBreaks(cfg, s, received, throws))
            && (!r.connected ==> Over(s, r))
            && (!r.connected && (received.Bytes? ==> received.data == []) ==> Down(cfg, s, r))
  {
    hide Reset, CompleteOp, StartReceive, Ingest;
    CompletionIs(s);
    var s1 := CompleteOp(s);
    ResetIsDown(cfg, s1);
    if received.Bytes? {
      StartReceiveGoesDown(cfg, s1, throws);
      StartReceiveFalls(cfg, s1, throws);
      var s2 := Ingest(cfg, s1, received.data, received.faults, s1.generation);
      IngestFalls(cfg, s1, received.data, received.faults, s1.generation);
      StartReceiveGoesDown(cfg, s2, throws);
      StartReceiveFalls(cfg, s2, throws);
    }
  }

  lemma StartReceiveFalls(cfg: Config, s: Controller, throws: bool)
    ensures var r := StartReceive(cfg, s, throws);
            Falls(s, r) && (s.connected && !r.connected ==> Down(cfg, s, r))
  {
    hide Reset, CompleteOp;
    var s1 := s.(pendingOps := s.pendingOps + 1);
    CompletionIs(s1);
    ResetIsDown(cfg, CompleteOp(s1));
  }

  lemma WriteFalls(cfg: Config, s: Controller, op: Op, outcome: Outcome, fault: Fault)
    requires s.connected && op.Writing?
    ensures var r := HandleWrite(cfg, s, op, outcome, fault);
            Falls(s, r) && (!r.connected ==> Down(cfg, s, r)) && (op.generation != s.generation ==> r.connected)
  {
    hide Reset, CompleteOp, Settle, StartNextWrite;
    CompletionIs(s);
    var s1 := CompleteOp(s);
    var rest := if s1.queue != [] && s1.queue[0] == op.request then s1.queue[1..] else s1.queue;
    var s2 := s1.(writing := false, queue := rest, ledger := Settle(s1.ledger, op.request, outcome.Succeeded?));
    StartNextWriteFalls(cfg, s2, fault);
    ResetIsDown(cfg, s2);
  }

  lemma TaskFalls(cfg: Config, s: Controller, task: Task, choice: Choice)
    requires s.connected
    ensures var r := RunTask(cfg, s, task, choice);
            Falls(s, r) && (!r.connected ==> Down(cfg, s, r))
  {
    hide Reset, AsyncSend, HandOver, R.Send;
    ResetIsDown(cfg, s);
    match task
    case Transmit(bytes) => AsyncSendFalls(cfg, s, bytes, None, choice.fault);
    case ReliableSend(id, bytes) =>
      HandOverFalls(cfg, s, R.Send(SenderSettings(cfg), s.ledger.sender, id, bytes), id, choice.fault);
    case _ =>
  }

  lemma RetryFalls(cfg: Config, s: Controller, t: R.Ticket, fault: Fault)
    requires s.connected
    ensures var r := RetryTimeout(cfg, s, t, fault);
            Falls(s, r) && (!r.connected ==> Down(cfg, s, r))
  {
    hide HandOver, R.HandleRetryTimeout;
    var sender := s.ledger.sender.(expired := s.ledger.sender.expired - multiset{t});
    HandOverFalls(cfg, s, R.HandleRetryTimeout(SenderSettings(cfg), sender, t), t.key, fault);
  }

  // ---------------------------------------------------------------------
  // Down and up
  // ---------------------------------------------------------------------

  predicate BringsBytes(e: Event)
  {
    e.ReadEnds? && e.received.Bytes? && e.received.data != []
  }

  /** A link that is up goes down at exactly these events, and then nothing of it is left. Only
      within a chunk may packets behind the broken one still be looked at. */
  lemma LinkGoesDown(cfg: Config, s: Controller, e: Event)
    requires Enabled(s, e) && s.connected
    ensures var r := Apply(cfg, s, e);
            && (!r.connected <==> LinkBreaks(cfg, s, e))
            && (r.connected ==> r.generation == s.generation && (r.port == s.port || e.LosesPort?))
            && (!r.connected ==> Over(s, r))
            && (!r.connected && !BringsBytes(e) ==> Down(cfg, s, r))
  {
    hide RunTask, RetryTimeout, HandleReceive, HandleWrite, TaskBreaks, RetryBreaks, ReadBreaks, WriteBreaks,
         R.Expired;
    match e
    case Runs(choice) =>
      var s1 := s.(tasks := s.tasks[1..]);
      TaskGoesDown(cfg, s1, s.tasks[0], choice);
      TaskBreaksAlike(cfg, s, s1, s.tasks[0], choice);
      TaskFalls(cfg, s1, s.tasks[0], choice);
    case Retries(t, fault) =>
      RetryGoesDown(cfg, s, t, fault);
      RetryFalls(cfg, s, t, fault);
    case ReadEnds(generation, received, throws) =>
      var s1 := s.(outstanding := s.outstanding - multiset{Reading(generation)});
      if generation == s.generation {
        ReadGoesDown(cfg, s1, received, throws);
        ReadKeepsPort(cfg, s1, received, throws);
      } else {
        StaleReadIs(cfg, s1, generation, received, throws);
      }
    case WriteEnds(op, outcome, fault) =>
      var s1 := s.(outstanding := s.outstanding - multiset{op});
      WriteFalls(cfg, s1, op, outcome, fault);
      WriteBreaksAlike(s, s1, op, outcome, fault);
      if op.generation == s.generation {
        WriteGoesDown(cfg, s1, op, outcome, fault);
      }
    case _ =>
  }

  lemma TaskBreaksAlike(cfg: Config, s: Controller, s': Controller, task: Task, choice: Choice)
    requires s' == s.(tasks := s'.tasks)
    ensures TaskBreaks(cfg, s, task, choice) <==> TaskBreaks(cfg, s', task, choice)
  {
  }

  lemma WriteBreaksAlike(s: Controller, s': Controller, op: Op, outcome: Outcome, fault: Fault)
    requires s' == s.(outstanding := s'.outstanding) && op.Writing?
    ensures WriteBreaks(s, op, outcome, fault) <==> WriteBreaks(s', op, outcome, fault)
  {
  }

  lemma ReadKeepsPort(cfg: Config, s: Controller, received: Received, throws: bool)
    requires s.connected
    ensures Falls(s, HandleReceive(cfg, s, s.generation, received, throws))
  {
    hide Reset, CompleteOp, StartReceive, Ingest;
    CompletionIs(s);
    var s1 := CompleteOp(s);
    ResetIsDown(cfg, s1);
    if received.Bytes? {
      StartReceiveFalls(cfg, s1, throws);
      IngestFalls(cfg, s1, received.data, received.faults, s1.generation);
      StartReceiveFalls(cfg, Ingest(cfg, s1, received.data, received.faults, s1.generation), throws);
    }
  }

  lemma StaleReadIs(cfg: Config, s: Controller, generation: nat, received: Received, throws: bool)
    requires generation != s.generation
    ensures var r := HandleReceive(cfg, s, generation, received, throws);
            r == s.(pendingOps := r.pendingOps, shutdown := r.shutdown, tasks := r.tasks)
  {
  }

  /** A fresh link: it reads on its own connection, has nothing buffered or queued, and without
      handshakes runs and says so at once. */
  predicate Fresh(cfg: Config, s: Controller, r: Controller)
  {
    && r.connected && r.generation == s.generation + 1 && PortUp(r)
    && r.queue == [] && !r.writing && r.buffer == []
    && r.running == r.ready == !cfg.requireHandshake
    && r.beat == H.Beat(0, 0, false, s.beat.startedAt)
    && r.outstanding == s.outstanding + multiset{Reading(r.generation)}
  }

  /** A link that is down comes up exactly when the connection check finds a port that opens and the
      first read starts; with handshakes it then probes the other end, unless the node is closing. */
  lemma LinkComesUp(cfg: Config, s: Controller, e: Event)
    requires Enabled(s, e) && !s.connected
    ensures var r := Apply(cfg, s, e);
            && (r.connected
                <==> e.Runs? && s.tasks[0].CheckConnection? && e.choice.opening.Opens? && !e.choice.throws)
            && (r.connected ==> Fresh(cfg, s, r))
            && (r.connected && cfg.requireHandshake && !s.shutdown.closed ==>
                  && r.tasks != []
                  && r.tasks[|r.tasks| - 1]
                     == Transmit(FrameOf(cfg.protocol, HANDSHAKE_ID, BytesOf(cfg.localHash))))
  {
    hide RetryTimeout, HandleReceive, HandleWrite, R.Expired, AsyncSend, HandOver, CheckConnectionImpl, FrameOf,
        BytesOf,
         R.HandleRetryTimeout, R.Send, Reset;
    match e
    case Runs(choice) =>
      var s1 := s.(tasks := s.tasks[1..]);
      CheckComesUp(cfg, s1, choice.opening, choice.throws);
      if !s.tasks[0].CheckConnection? {
        StaysDown(cfg, s1, s.tasks[0], choice);
      }
    case Retries(t, fault) =>
      var sender := s.ledger.sender.(expired := s.ledger.sender.expired - multiset{t});
      HandOverFalls(cfg, s, R.HandleRetryTimeout(SenderSettings(cfg), sender, t), t.key, fault);
      assert RetryTimeout(cfg, s, t, fault)
          == HandOver(cfg, s, R.HandleRetryTimeout(SenderSettings(cfg), sender, t), t.key, fault) by {
        RetryIs(cfg, s, t, fault);
      }
    case ReadEnds(generation, received, throws) =>
      ReadStaysDown(cfg, s.(outstanding := s.outstanding - multiset{Reading(generation)}), generation, received,
          throws);
    case WriteEnds(op, outcome, fault) =>
      WriteStaysDown(cfg, s.(outstanding := s.outstanding - multiset{op}), op, outcome, fault);
    case _ =>
  }

  lemma RetryIs(cfg: Config, s: Controller, t: R.Ticket, fault: Fault)
    ensures var sender := s.ledger.sender.(expired := s.ledger.sender.expired - multiset{t});
            RetryTimeout(cfg, s, t, fault)
            == HandOver(cfg, s, R.HandleRetryTimeout(SenderSettings(cfg), sender, t), t.key, fault)
  {
  }

  lemma StaysDown(cfg: Config, s: Controller, task: Task, choice: Choice)
    requires !s.connected && !task.CheckConnection?
    ensures !RunTask(cfg, s, task, choice).connected
  {
    hide Reset, AsyncSend, HandOver, R.Send;
    match task
    case Transmit(bytes) => AsyncSendFalls(cfg, s, bytes, None, choice.fault);
    case ReliableSend(id, bytes) =>
      HandOverFalls(cfg, s, R.Send(SenderSettings(cfg), s.ledger.sender, id, bytes), id, choice.fault);
    case _ =>
  }

  lemma ReadStaysDown(cfg: Config, s: Controller, generation: nat, received: Received, throws: bool)
    requires !s.connected
    ensures !HandleReceive(cfg, s, generation, received, throws).connected
  {
    hide Reset, CompleteOp, StartReceive, Ingest;
    CompletionIs(s);
    var s1 := CompleteOp(s);
    StartReceiveFalls(cfg, s1, throws);
    if received.Bytes? {
      IngestFalls(cfg, s1, received.data, received.faults, generation);
      StartReceiveFalls(cfg, Ingest(cfg, s1, received.data, received.faults, generation), throws);
    }
  }

  lemma WriteStaysDown(cfg: Config, s: Controller, op: Op, outcome: Outcome, fault: Fault)
    requires !s.connected && op.Writing?
    ensures !HandleWrite(cfg, s, op, outcome, fault).connected
  {
    hide Reset, CompleteOp, Settle, SettleAll;
    CompletionIs(s);
  }

  lemma CheckComesUp(cfg: Config, s: Controller, opening: Opening, throws: bool)
    requires !s.connected
    ensures var r := CheckConnectionImpl(cfg, s, opening, throws);
            && (r.connected <==> opening.Opens? && !throws)
            && (r.connected ==> Fresh(cfg, s, r))
            && (r.connected && cfg.requireHandshake && !s.shutdown.closed ==>
                  && r.tasks != []
                  && r.tasks[|r.tasks| - 1] == Transmit(FrameOf(cfg.protocol, HANDSHAKE_ID, BytesOf(cfg.localHash))))
  {
    hide FrameOf, BytesOf, Reset;
    ResetIsDown(cfg, s);
    ResetKeepsOps(cfg, s);
  }

  lemma ResetKeepsOps(cfg: Config, s: Controller)
    ensures Reset(cfg, s).outstanding == s.outstanding && Reset(cfg, s).shutdown.closed == s.shutdown.closed
  {
    hide SettleAll;
  }

  /** When it does not come up, nothing of an earlier connection is left either. */
  lemma CheckFails(cfg: Config, s: Controller, choice: Choice)
    requires !s.connected && !CheckConnectionImpl(cfg, s, choice.opening, choice.throws).connected
    ensures var r := CheckConnectionImpl(cfg, s, choice.opening, choice.throws);
            match choice.opening
            case OpenFails => Down(cfg, s, r)
            case OpensClosed => r.port == Present(false) && Down(cfg, s, r.(port := Absent))
            case Opens => !PortUp(r) && r.generation == s.generation + 2 && r.queue == [] && r.buffer == [] && !r.ready
  {
    hide FrameOf, BytesOf, Reset, CompleteOp;
    ResetIsDown(cfg, s);
    ResetKeepsOps(cfg, s);
    forall t: Controller
      ensures Down(cfg, t, Reset(cfg, t))
    {
      ResetIsDown(cfg, t);
    }
    forall t: Controller
      ensures CompleteOp(t).generation == t.generation
    {
      CompletionIs(t);
    }
  }

  // ---------------------------------------------------------------------
  // What becomes of the queue
  // ---------------------------------------------------------------------

  /** A failure report for each request whose completion is live, front first. */
  function Failures(live: set<nat>, queue: seq<Request>): seq<Report>
  {
    if queue == [] then []
    else
      var n := |queue| - 1;
      Failures(live, queue[..n]) + if queue[n].uid in live then [Report(queue[n].uid, false)] else []
  }

  predicate Numbered(queue: seq<Request>)
  {
    forall i, j | 0 <= i < j < |queue| :: queue[i].uid < queue[j].uid
  }

  lemma {:induction false} SettlingReports(l: Ledger, queue: seq<Request>)
    requires Numbered(queue)
    ensures SettleAll(l, queue).reports == l.reports + Failures(l.live, queue)
    ensures forall u ::
              u in SettleAll(l, queue).live <==> u in l.live && forall i | 0 <= i < |queue| :: queue[i].uid != u
  {
    hide Told;
    if queue != [] {
      var n := |queue| - 1;
      SettlingReports(l, queue[..n]);
      forall u
        ensures u in SettleAll(l, queue).live <==> u in l.live && forall i | 0 <= i < |queue| :: queue[i].uid != u
      {
        assert forall i | 0 <= i < n :: queue[..n][i] == queue[i];
      }
    }
  }

  /** A reset reports failure for everything queued, in order, and once. */
  lemma ResetReports(cfg: Config, s: Controller)
    requires S.Core(s)
    ensures Reset(cfg, s).ledger.reports == s.ledger.reports + Failures(s.ledger.live, s.queue)
  {
    hide SettleAll, S.Current, S.Counted, S.Conserved, R.ClearAll;
    SettlingReports(Cleared(s.ledger, s.shutdown.closed), s.queue);
  }

  lemma FlushIs(cfg: Config, s: Controller, fault: Fault)
    requires Numbered(s.queue) && !s.writing && !PortUp(s)
    ensures var r := StartNextWrite(cfg, s, fault);
            && r == s.(ledger := r.ledger, queue := [])
            && r.ledger.reports == s.ledger.reports + Failures(s.ledger.live, s.queue)
  {
    hide SettleAll;
    SettlingReports(s.ledger, s.queue);
  }

  /** When a write has ended well but the port is gone, everything behind it is given up: the write
      is reported as a success, the rest as failures. */
  lemma LostPortFlushes(cfg: Config, s: Controller, e: Event)
    requires S.Core(s) && Enabled(s, e) && e.WriteEnds? && e.outcome.Succeeded?
    requires e.op.generation == s.generation && !PortUp(s)
    ensures var r := Apply(cfg, s, e);
            && s.queue != [] && s.queue[0] == e.op.request
            && r.connected && r.queue == [] && !r.writing
            && r.ledger.reports
               == s.ledger.reports
                  + (if e.op.request.uid in s.ledger.live then [Report(e.op.request.uid, true)] else [])
                  + Failures(s.ledger.live, s.queue[1..])
  {
    hide StartNextWrite, CompleteOp, Told, S.Counted, S.Conserved;
    var s1 := CompleteOp(s.(outstanding := s.outstanding - multiset{e.op}));
    CompletionIs(s.(outstanding := s.outstanding - multiset{e.op}));
    var rest := s.queue[1..];
    var l := Settle(s.ledger, e.op.request, true);
    FlushIs(cfg, s1.(writing := false, queue := rest, ledger := l), e.fault);
    FailuresAlike(l.live, s.ledger.live, rest);
  }

  lemma {:induction false} FailuresAlike(live: set<nat>, live': set<nat>, queue: seq<Request>)
    requires forall i | 0 <= i < |queue| :: queue[i].uid in live <==> queue[i].uid in live'
    ensures Failures(live, queue) == Failures(live', queue)
  {
    if queue != [] {
      FailuresAlike(live, live', queue[..|queue| - 1]);
    }
  }
}
