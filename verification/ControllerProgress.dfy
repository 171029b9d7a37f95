/** No stall: while a link is usable a read is always under way, and a queue that is not empty is
    always being written, unless the operating system aborts an operation of the present connection. */
module ControllerProgress {
  import opened Checksums
  import opened StreamParser
  import opened SerialControl
  import opened ControllerChunk
  import opened ControllerSafety
  import H = Heartbeat
  import R = ReliableSending

  predicate QueueMoves(s: Controller)
  {
    s.queue != [] ==> s.writing
  }

  predicate Listens(s: Controller)
  {
    Usable(s) ==> s.outstanding[Reading(s.generation)] == 1
  }

  predicate Moves(s: Controller)
  {
    QueueMoves(s) && Listens(s)
  }

  /** If the link is usable afterwards, it was before, with the same read under way. */
  ghost predicate ReadKept(s: Controller, s': Controller)
  {
    Usable(s') ==> Usable(s) && s'.generation == s.generation
                   && s'.outstanding[Reading(s.generation)] == s.outstanding[Reading(s.generation)]
  }

  lemma ResetMoves(cfg: Config, s: Controller)
    ensures Moves(Reset(cfg, s)) && !Reset(cfg, s).connected && ReadKept(s, Reset(cfg, s))
    ensures var s' := CompleteOp(s);
            && s'.queue == s.queue && s'.writing == s.writing && s'.outstanding == s.outstanding
            && s'.connected == s.connected && s'.port == s.port && s'.generation == s.generation
  {
    hide SettleAll;
  }

  lemma StartReceiveMoves(cfg: Config, s: Controller, throws: bool)
    requires QueueMoves(s) && s.outstanding[Reading(s.generation)] == 0
    ensures Moves(StartReceive(cfg, s, throws))
  {
    hide Reset, CompleteOp;
    var s1 := s.(pendingOps := s.pendingOps + 1);
    ResetMoves(cfg, CompleteOp(s1));
  }

  /** Whatever the state, starting the next write leaves no frame waiting behind nothing. */
  lemma StartNextWriteMoves(cfg: Config, s: Controller, fault: Fault)
    ensures QueueMoves(StartNextWrite(cfg, s, fault)) && ReadKept(s, StartNextWrite(cfg, s, fault))
  {
    hide Reset, CompleteOp, SettleAll;
    var s1 := s.(writing := true, pendingOps := s.pendingOps + 1);
    ResetMoves(cfg, s1);
    ResetMoves(cfg, CompleteOp(s1).(writing := false));
  }

  lemma AsyncSendMoves(cfg: Config, s: Controller, bytes: seq<byte>, ticket: Option<R.Completion>, fault: Fault)
    requires QueueMoves(s)
    ensures QueueMoves(AsyncSend(cfg, s, bytes, ticket, fault)) && ReadKept(s, AsyncSend(cfg, s, bytes, ticket, fault))
  {
    hide Reset, StartNextWrite, Settle, Submit;
    var ledger, request := Submit(s.ledger, ticket), Request(s.ledger.submitted, bytes);
    ResetMoves(cfg, s.(ledger := Settle(ledger, request, false)));
    StartNextWriteMoves(
      cfg, s.(ledger := ledger, queue := s.queue + [request], trace := s.trace + [Enqueued(s.generation, bytes)]),
          fault);
  }

  lemma HandOverMoves(cfg: Config, s: Controller, sender: R.Sender, key: byte, fault: Fault)
    requires QueueMoves(s)
    ensures QueueMoves(HandOver(cfg, s, sender, key, fault)) && ReadKept(s, HandOver(cfg, s, sender, key, fault))
  {
    hide AsyncSend;
    if R.HasFront(sender, key) {
      var front := R.Front(sender, key);
      AsyncSendMoves(
        cfg, s.(ledger := s.ledger.(sender := sender)), front.bytes,
        Some(R.Completion(key, front.seqNo, front.generation)), fault);
    }
  }

  lemma HandlePacketMoves(cfg: Config, s: Controller, a: Arrival, heardOn: nat)
    requires QueueMoves(s)
    ensures QueueMoves(HandlePacket(cfg, s, a, heardOn)) && ReadKept(s, HandlePacket(cfg, s, a, heardOn))
  {
    hide HandOver, HandlePacket, H.Echoed, WordOf, R.OnAckReceived;
    if |a.pkt.payload| == 2 {
      var id, seqNo := a.pkt.payload[0], a.pkt.payload[1];
      var sender := R.OnAckReceived(SenderSettings(cfg), s.ledger.sender, id, seqNo);
      HandOverMoves(cfg, HandleEcho(s, a.pkt), sender, id, a.fault);
    }
    DeliveringIsSameWork(cfg, s, a, heardOn);
  }

  lemma {:induction false} HandleMovesMove(cfg: Config, s: Controller, moves: seq<Move>, heardOn: nat)
    requires QueueMoves(s)
    ensures QueueMoves(HandleMoves(cfg, s, moves, heardOn)) && ReadKept(s, HandleMoves(cfg, s, moves, heardOn))
  {
    hide HandlePacket;
    if moves != [] {
      var n := |moves| - 1;
      HandleMovesMove(cfg, s, moves[..n], heardOn);
      if moves[n].Takes? {
        HandlePacketMoves(cfg, HandleMoves(cfg, s, moves[..n], heardOn), moves[n].arrival, heardOn);
      }
    }
  }

  /** The system aborts a read that the present connection needs, or a write with frames behind it. */
  ghost predicate Stalls(s: Controller, e: Event)
  {
    || (e.ReadEnds? && e.generation == s.generation && e.received.ReadAborted? && Usable(s))
    || (e.WriteEnds? && e.op.generation == s.generation && e.outcome.Aborted? && |s.queue| > 1)
  }

  lemma HandleWriteMoves(cfg: Config, before: Controller, s: Controller, op: Op, outcome: Outcome, fault: Fault)
    requires Ended(before, s, op) && op.Writing? && Moves(before)
    ensures Moves(HandleWrite(cfg, s, op, outcome, fault))
            <==> !(op.generation == s.generation && outcome.Aborted? && |s.queue| > 1)
  {
    hide LedgerOk, Reset, StartNextWrite, Settle, CompleteOp;
    assert before.outstanding[Reading(s.generation)] == s.outstanding[Reading(s.generation)];
    ResetMoves(cfg, s);
    if op.generation == s.generation {
      var s1 := CompleteOp(s);
      var s2 := s1.(writing := false, queue := s1.queue[1..],
          ledger := Settle(s1.ledger, op.request, outcome.Succeeded?));
      StartNextWriteMoves(cfg, s2, fault);
      ResetMoves(cfg, s2);
    }
  }

  lemma HandleReceiveMoves(cfg: Config, before: Controller, s: Controller, generation: nat, received: Received,
      throws: bool)
    requires Ended(before, s, Reading(generation)) && Moves(before)
    ensures Moves(HandleReceive(cfg, s, generation, received, throws))
            <==> !(generation == s.generation && received.ReadAborted? && Usable(s))
  {
    hide Ended, Reset, StartReceive, CompleteOp, Ingest, HandleMoves, ReadKept;
    ReadCountedOff(before, s, generation);
    ResetMoves(cfg, s);
    if generation == s.generation {
      var s1 := CompleteOp(s);
      ResetMoves(cfg, s1);
      StartReceiveMoves(cfg, s1, throws);
      if received.Bytes? {
        var moves := IngestMoves(cfg, s1, received.data, received.faults, generation);
        HandleMovesMove(cfg, s1, moves, generation);
        AfterChunk(cfg, s1, Ingest(cfg, s1, received.data, received.faults, generation), throws);
      }
    }
  }

  lemma ReadCountedOff(before: Controller, s: Controller, generation: nat)
    requires Ended(before, s, Reading(generation)) && Moves(before)
    ensures QueueMoves(s)
    ensures generation == s.generation ==> s.outstanding[Reading(s.generation)] == 0
    ensures generation != s.generation ==> Moves(s)
  {
    hide LedgerOk;
  }

  lemma AfterChunk(cfg: Config, s: Controller, s': Controller, throws: bool)
    requires s.outstanding[Reading(s.generation)] == 0 && QueueMoves(s') && ReadKept(s, s')
    ensures Moves(StartReceive(cfg, s', throws))
  {
    hide Reset, CompleteOp;
    if Usable(s') {
      StartReceiveMoves(cfg, s', throws);
    }
  }

  lemma CheckConnectionMoves(cfg: Config, s: Controller, opening: Opening, throws: bool)
    requires Core(s) && Moves(s)
    ensures Moves(CheckConnectionImpl(cfg, s, opening, throws))
  {
    hide LedgerOk, Reset, StartReceive, HandshakeFrame;
    ResetMoves(cfg, s);
    ResetKeeps(cfg, s);
    var s1 := Reset(cfg, s);
    var s2 := s1.(port := Present(true), connected := true, shutdown := s1.shutdown.(requested := false),
                  running := !cfg.requireHandshake);
    NoReadYet(s1);
    StartReceiveMoves(cfg, s2, throws);
    StartReceiveMoves(cfg, PublishReady(s2, true), throws);
  }

  lemma NoReadYet(s: Controller)
    requires Core(s) && !s.connected
    ensures s.outstanding[Reading(s.generation)] == 0 && s.queue == []
  {
    assert Reading(s.generation) !in s.outstanding;
  }

  lemma RunTaskMoves(cfg: Config, s: Controller, task: Task, choice: Choice)
    requires Core(s) && Moves(s)
    ensures Moves(RunTask(cfg, s, task, choice))
  {
    hide Core, CheckConnectionImpl, AsyncSend, HandOver, Reset, HandshakeFrame, HeartbeatFrame, H.Tick, R.Send;
    ResetMoves(cfg, s);
    match task
    case CheckConnection => CheckConnectionMoves(cfg, s, choice.opening, choice.throws);
    case HeartbeatTimer =>
    case Transmit(bytes) => AsyncSendMoves(cfg, s, bytes, None, choice.fault);
    case ReliableSend(id, bytes) =>
      HandOverMoves(cfg, s, R.Send(SenderSettings(cfg), s.ledger.sender, id, bytes), id, choice.fault);
    case Destroying =>
    case Drained =>
  }

  /** A step stalls a link that was moving exactly when it is one of those two aborts. */
  lemma ApplyMoves(cfg: Config, s: Controller, e: Event)
    requires Core(s) && Moves(s) && Enabled(s, e)
    ensures Moves(Apply(cfg, s, e)) <==> !Stalls(s, e)
  {
    hide Loose, Current, RunTask, HandOver, HandleReceive, HandleWrite, R.HandleRetryTimeout, R.Expired;
    match e
    case Runs(choice) =>
      var s1 := s.(tasks := s.tasks[1..]);
      SameWorkKeeps(s, s1);
      RunTaskMoves(cfg, s1, s.tasks[0], choice);
    case Expires(_) =>
    case Retries(t, fault) =>
      var sender := s.ledger.sender.(expired := s.ledger.sender.expired - multiset{t});
      HandOverMoves(cfg, s, R.HandleRetryTimeout(SenderSettings(cfg), sender, t), t.key, fault);
    case ReadEnds(generation, received, throws) =>
      HandleReceiveMoves(cfg, s, s.(outstanding := s.outstanding - multiset{Reading(generation)}), generation,
          received, throws);
    case WriteEnds(op, outcome, fault) =>
      HandleWriteMoves(cfg, s, s.(outstanding := s.outstanding - multiset{op}), op, outcome, fault);
    case Posts(_) =>
    case LosesPort =>
    case ClosesDoor =>
    case PostsDestroy =>
  }

  /** No step of the run stalls. */
  ghost predicate NeverStalls(cfg: Config, events: seq<Event>)
    requires After(cfg, events).Reached?
  {
    events != [] ==>
      var before, e := events[..|events| - 1], events[|events| - 1];
      NeverStalls(cfg, before) && !Stalls(After(cfg, before).controller, e)
  }

  ghost predicate AlwaysMoving(cfg: Config, events: seq<Event>)
    requires After(cfg, events).Reached?
  {
    && Moves(After(cfg, events).controller)
    && (events != [] ==> AlwaysMoving(cfg, events[..|events| - 1]))
  }

  lemma {:induction false} MovesSteps(cfg: Config, events: seq<Event>)
    requires After(cfg, events).Reached?
    ensures AlwaysMoving(cfg, events) <==> NeverStalls(cfg, events)
    ensures NeverStalls(cfg, events) ==> Moves(After(cfg, events).controller)
  {
    hide Core, Moves, Stalls, Apply, Enabled;
    if events == [] {
      InitialMoves(cfg);
    } else {
      var n := |events| - 1;
      MovesSteps(cfg, events[..n]);
      CoreAlways(cfg, events[..n]);
      if NeverStalls(cfg, events[..n]) {
        ApplyMoves(cfg, After(cfg, events[..n]).controller, events[n]);
      }
    }
  }

  lemma InitialMoves(cfg: Config)
    ensures Moves(Initial(cfg))
  {
  }

  /** Throughout a run a usable link is listened to and a frame in the queue is on its way, exactly
      when no step of the run is such an abort. */
  lemma MovesIffNeverStalls(cfg: Config, events: seq<Event>)
    requires After(cfg, events).Reached?
    ensures AlwaysMoving(cfg, events) <==> NeverStalls(cfg, events)
  {
    MovesSteps(cfg, events);
  }

  /** The first connection, being read. */
  lemma FirstConnection(cfg: Config) returns (events: seq<Event>)
    ensures |events| == 2 && After(cfg, events).Reached?
    ensures var s := After(cfg, events).controller;
            Usable(s) && s.generation == 1 && s.outstanding == multiset{Reading(1)}
  {
    hide HandshakeFrame;
    var post, run := Posts(CheckConnection), Runs(Choice(Opens, false, NoFault, 0));
    events := [post, run];
    assert [post][..0] == [] && events[..1] == [post];
    assert After(cfg, [post]) == Reached(Apply(cfg, Initial(cfg), post));
  }

  /** Its first read is aborted: the link stays usable, and deaf. */
  lemma DeafRun(cfg: Config) returns (events: seq<Event>)
    ensures After(cfg, events).Reached?
    ensures var s := After(cfg, events).controller; Usable(s) && !Listens(s)
  {
    hide RunTask, HandleWrite;
    var before := FirstConnection(cfg);
    var abort := ReadEnds(1, ReadAborted, false);
    events := before + [abort];
    assert events[..2] == before;
  }
}
