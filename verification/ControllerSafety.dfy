/** What every run of the connection controller keeps. */
module ControllerSafety {
  import opened Checksums
  import opened StreamParser
  import opened SerialControl
  import opened ControllerChunk
  import H = Heartbeat
  import R = ReliableSending

  // ---------------------------------------------------------------------
  // The invariant
  // ---------------------------------------------------------------------

  ghost predicate Reported(reports: seq<Report>, uid: nat)
  {
    exists i | 0 <= i < |reports| :: reports[i].uid == uid
  }

  ghost predicate IsQueued(queue: seq<Request>, uid: nat)
  {
    exists i | 0 <= i < |queue| :: queue[i].uid == uid
  }

  /** Every completion asked for is live or has been called, never both and never twice. */
  ghost predicate Conserved(l: Ledger)
  {
    && (forall u | u in l.tickets :: u < l.submitted && (u in l.live || Reported(l.reports, u)))
    && l.live <= l.tickets.Keys
    && (forall i | 0 <= i < |l.reports| :: l.reports[i].uid in l.tickets && l.reports[i].uid !in l.live)
    && (forall i, j | 0 <= i < j < |l.reports| :: l.reports[i].uid != l.reports[j].uid)
  }

  /** The live completions are those of the queued requests, which are in the order of their numbers. */
  ghost predicate QueueLive(queue: seq<Request>, l: Ledger)
  {
    && |queue| <= MAX_TX_QUEUE_SIZE
    && (forall i, j | 0 <= i < j < |queue| :: queue[i].uid < queue[j].uid)
    && (forall i | 0 <= i < |queue| ::
        queue[i].uid < l.submitted && (queue[i].uid in l.tickets ==> queue[i].uid in l.live))
    && (forall u | u in l.live :: IsQueued(queue, u))
  }

  ghost predicate LedgerOk(queue: seq<Request>, l: Ledger)
  {
    Conserved(l) && QueueLive(queue, l)
  }

  /** No operation belongs to a later connection than the present one. */
  ghost predicate Counted(pendingOps: nat, outstanding: multiset<Op>, generation: nat)
  {
    && pendingOps == |outstanding|
    && forall op | op in outstanding :: op.generation <= generation
  }

  /** Of the present connection there is at most one read, and at most one write, of the front. */
  ghost predicate Current(s: Controller)
  {
    && (forall op | op in s.outstanding && op.generation == s.generation ::
          s.connected && (op.Writing? ==> s.writing && s.queue != [] && op.request == s.queue[0]))
    && (s.writing ==> s.queue != [] && s.outstanding[Writing(s.generation, s.queue[0])] == 1)
    && s.outstanding[Reading(s.generation)] <= 1
    && (if s.connected then s.port.Present? else s.queue == [] && !s.writing)
  }

  /** What a reset needs to restore the invariant from the middle of a handler. */
  ghost predicate Loose(s: Controller)
  {
    LedgerOk(s.queue, s.ledger) && Counted(s.pendingOps, s.outstanding, s.generation)
  }

  ghost predicate Core(s: Controller)
  {
    Loose(s) && Current(s)
  }

  // ---------------------------------------------------------------------
  // Completions
  // ---------------------------------------------------------------------

  /** What the sender does on its own does not touch the books. */
  lemma AnySenderKeeps(queue: seq<Request>, l: Ledger, sender: R.Sender)
    requires LedgerOk(queue, l)
    ensures LedgerOk(queue, l.(sender := sender))
  {
  }

  lemma SettleKeeps(l: Ledger, request: Request, success: bool)
    requires Conserved(l)
    ensures Conserved(Settle(l, request, success))
  {
    var l' := Settle(l, request, success);
    forall u | u in l'.tickets
      ensures u in l'.live || Reported(l'.reports, u)
    {
      if request.uid in l.live && u == request.uid {
        assert l'.reports[|l.reports|].uid == u;
      } else if u !in l.live {
        var i :| 0 <= i < |l.reports| && l.reports[i].uid == u;
        assert l'.reports[i].uid == u;
      }
    }
  }

  lemma {:induction false} SettleAllKeeps(l: Ledger, requests: seq<Request>)
    requires Conserved(l)
    ensures Conserved(SettleAll(l, requests))
  {
    hide Conserved, Settle;
    if requests != [] {
      var n := |requests| - 1;
      SettleAllKeeps(l, requests[..n]);
      SettleKeeps(SettleAll(l, requests[..n]), requests[n], false);
    }
  }

  /** No completion of those requests is left live, and all that was called reports failure. */
  lemma {:induction false} SettleAllIs(l: Ledger, requests: seq<Request>)
    ensures var l' := SettleAll(l, requests);
            && l' == l.(live := l'.live, reports := l'.reports, sender := l'.sender)
            && l.reports <= l'.reports
            && (forall i | |l.reports| <= i < |l'.reports| :: !l'.reports[i].success)
            && l'.live <= l.live
            && (forall i | 0 <= i < |requests| :: requests[i].uid !in l'.live)
  {
    if requests != [] {
      var n := |requests| - 1;
      var before := requests[..n];
      SettleAllIs(l, before);
      assert forall i | 0 <= i < n :: requests[i] == before[i];
    }
  }

  /** Calling the completions of the whole queue leaves none live. */
  lemma FlushSettles(queue: seq<Request>, l: Ledger)
    requires LedgerOk(queue, l)
    ensures var l' := SettleAll(l, queue);
            l'.live == {} && l'.submitted == l.submitted && LedgerOk([], l')
  {
    SettleAllIs(l, queue);
    SettleAllKeeps(l, queue);
    var l' := SettleAll(l, queue);
    forall u | u in l.live
      ensures u !in l'.live
    {
      var i :| 0 <= i < |queue| && queue[i].uid == u;
    }
  }

  // ---------------------------------------------------------------------
  // Resets and operations
  // ---------------------------------------------------------------------

  lemma ResetKeeps(cfg: Config, s: Controller)
    requires Loose(s)
    ensures Core(Reset(cfg, s)) && !Reset(cfg, s).connected
    ensures Reset(cfg, s).outstanding == s.outstanding && Reset(cfg, s).generation == s.generation + 1
  {
    hide LedgerOk, SettleAll, R.ClearAll;
    AnySenderKeeps(s.queue, s.ledger, R.ClearAll(s.ledger.sender));
    FlushSettles(s.queue, Cleared(s.ledger, s.shutdown.closed));
  }

  lemma CompleteOpIs(s: Controller)
    requires s.pendingOps > 0
    ensures var drains := s.shutdown.requested && s.pendingOps == 1 && s.shutdown.callback;
            CompleteOp(s) == s.(pendingOps := s.pendingOps - 1,
                                shutdown := if drains then s.shutdown.(callback := false) else s.shutdown,
                                tasks := if drains then s.tasks + [Drained] else s.tasks)
  {
  }

  lemma StartReceiveKeeps(cfg: Config, s: Controller, throws: bool)
    requires Core(s) && s.outstanding[Reading(s.generation)] == 0
    ensures Core(StartReceive(cfg, s, throws))
  {
    hide Reset, CompleteOp, LedgerOk;
    if Usable(s) {
      var s1 := s.(pendingOps := s.pendingOps + 1);
      CompleteOpIs(s1);
      ResetKeeps(cfg, CompleteOp(s1));
    }
  }

  /** A step on connection `generation` that starts no read and leaves the other connections' work. */
  ghost predicate NoNewRead(s: Controller, s': Controller)
  {
    s.generation <= s'.generation && s'.outstanding[Reading(s'.generation)] <= s.outstanding[Reading(s.generation)]
  }

  lemma WriteStarted(s: Controller)
    requires Core(s) && !s.writing && s.queue != [] && s.connected
    ensures var s' := s.(writing := true, pendingOps := s.pendingOps + 1,
                         outstanding := s.outstanding + multiset{Writing(s.generation, s.queue[0])});
            Core(s') && NoNewRead(s, s')
  {
    hide LedgerOk;
    assert Writing(s.generation, s.queue[0]) !in s.outstanding;
  }

  lemma WriteNotStarted(cfg: Config, s: Controller)
    requires Core(s) && !s.writing
    ensures var s' := Reset(cfg, CompleteOp(s.(writing := true, pendingOps := s.pendingOps + 1)).(writing := false));
            Core(s') && NoNewRead(s, s')
  {
    hide Reset, CompleteOp, LedgerOk;
    var s1 := s.(writing := true, pendingOps := s.pendingOps + 1);
    CompleteOpIs(s1);
    ResetKeeps(cfg, CompleteOp(s1).(writing := false));
  }

  lemma StartNextWriteKeeps(cfg: Config, s: Controller, fault: Fault)
    requires Core(s)
    ensures Core(StartNextWrite(cfg, s, fault)) && NoNewRead(s, StartNextWrite(cfg, s, fault))
  {
    if !s.writing && s.queue != [] {
      if !Usable(s) {
        hide LedgerOk;
        FlushSettles(s.queue, s.ledger);
      } else if fault == NoWrite {
        WriteNotStarted(cfg, s);
        hide Reset, CompleteOp, Core, NoNewRead;
      } else {
        WriteStarted(s);
        hide Core, NoNewRead, Reset, CompleteOp;
      }
    }
  }

  // ---------------------------------------------------------------------
  // Handlers
  // ---------------------------------------------------------------------

  lemma SubmitKeeps(queue: seq<Request>, l: Ledger, ticket: Option<R.Completion>, bytes: seq<byte>)
    requires LedgerOk(queue, l)
    ensures LedgerOk(queue, Settle(Submit(l, ticket), Request(l.submitted, bytes), false))
    ensures |queue| < MAX_TX_QUEUE_SIZE ==> LedgerOk(queue + [Request(l.submitted, bytes)], Submit(l, ticket))
  {
    var request := Request(l.submitted, bytes);
    var l1 := Submit(l, ticket);
    var more := queue + [request];
    assert Conserved(l1);
    SettleKeeps(l1, request, false);
    forall u | u in l1.live
      ensures IsQueued(more, u)
    {
      if u in l.live {
        var i :| 0 <= i < |queue| && queue[i].uid == u;
        assert more[i].uid == u;
      } else {
        assert more[|queue|].uid == u;
      }
    }
  }

  lemma AsyncSendKeeps(cfg: Config, s: Controller, bytes: seq<byte>, ticket: Option<R.Completion>, fault: Fault)
    requires Core(s)
    ensures Core(AsyncSend(cfg, s, bytes, ticket, fault)) && NoNewRead(s, AsyncSend(cfg, s, bytes, ticket, fault))
  {
    hide LedgerOk, Reset, StartNextWrite, Settle, Submit;
    SubmitKeeps(s.queue, s.ledger, ticket, bytes);
    var request := Request(s.ledger.submitted, bytes);
    var rejected := s.(ledger := Settle(Submit(s.ledger, ticket), request, false));
    ResetKeeps(cfg, rejected);
    if Usable(s) && |s.queue| < MAX_TX_QUEUE_SIZE {
      var queued := s.(ledger := Submit(s.ledger, ticket), queue := s.queue + [request],
                       trace := s.trace + [Enqueued(s.generation, bytes)]);
      StartNextWriteKeeps(cfg, queued, fault);
    }
  }

  lemma HandOverKeeps(cfg: Config, s: Controller, sender: R.Sender, key: byte, fault: Fault)
    requires Core(s)
    ensures Core(HandOver(cfg, s, sender, key, fault)) && NoNewRead(s, HandOver(cfg, s, sender, key, fault))
  {
    hide LedgerOk, AsyncSend;
    AnySenderKeeps(s.queue, s.ledger, sender);
    if R.HasFront(sender, key) {
      var front := R.Front(sender, key);
      AsyncSendKeeps(
        cfg, s.(ledger := s.ledger.(sender := sender)), front.bytes,
        Some(R.Completion(key, front.seqNo, front.generation)), fault);
    }
  }

  lemma HandleAckKeeps(cfg: Config, s: Controller, a: Arrival)
    requires Core(s)
    ensures Core(HandleAck(cfg, s, a)) && NoNewRead(s, HandleAck(cfg, s, a))
  {
    hide Core, HandOver, R.OnAckReceived;
    if |a.pkt.payload| == 2 {
      var id, seqNo := a.pkt.payload[0], a.pkt.payload[1];
      HandOverKeeps(cfg, s, R.OnAckReceived(SenderSettings(cfg), s.ledger.sender, id, seqNo), id, a.fault);
    }
    SameWorkKeeps(s, s);
  }

  /** The front is popped and settled together. */
  lemma PopKeeps(queue: seq<Request>, l: Ledger, success: bool)
    requires LedgerOk(queue, l) && queue != []
    ensures LedgerOk(queue[1..], Settle(l, queue[0], success))
  {
    SettleKeeps(l, queue[0], success);
    var l' := Settle(l, queue[0], success);
    forall u | u in l'.live
      ensures IsQueued(queue[1..], u)
    {
      var i :| 0 <= i < |queue| && queue[i].uid == u;
      assert queue[1..][i - 1].uid == u;
    }
  }

  /** One operation fewer, not yet counted down. */
  ghost predicate Ended(before: Controller, s: Controller, op: Op)
  {
    Core(before) && op in before.outstanding && s == before.(outstanding := before.outstanding - multiset{op})
  }

  lemma HandleWriteKeeps(cfg: Config, before: Controller, s: Controller, op: Op, outcome: Outcome, fault: Fault)
    requires Ended(before, s, op) && op.Writing?
    ensures Core(HandleWrite(cfg, s, op, outcome, fault))
  {
    hide LedgerOk, Reset, StartNextWrite, Settle, CompleteOp;
    CompleteOpIs(s);
    if op.generation == s.generation {
      var s1 := CompleteOp(s);
      PopKeeps(s.queue, s.ledger, outcome.Succeeded?);
      var s2 := s1.(writing := false, queue := s1.queue[1..],
          ledger := Settle(s1.ledger, op.request, outcome.Succeeded?));
      assert Core(s2);
      StartNextWriteKeeps(cfg, s2, fault);
      ResetKeeps(cfg, s2);
    }
  }

  /** The two states differ in nothing that the invariant looks at. */
  ghost predicate SameWork(s: Controller, s': Controller)
  {
    && s'.connected == s.connected && s'.generation == s.generation && s'.port == s.port
    && s'.queue == s.queue && s'.writing == s.writing && s'.ledger == s.ledger
    && s'.pendingOps == s.pendingOps && s'.outstanding == s.outstanding
  }

  lemma SameWorkKeeps(s: Controller, s': Controller)
    requires Core(s) && SameWork(s, s')
    ensures Core(s') && NoNewRead(s, s')
  {
  }

  lemma DeliveringIsSameWork(cfg: Config, s: Controller, a: Arrival, heardOn: nat)
    ensures SameWork(HandleAck(cfg, HandleEcho(s, a.pkt), a), HandlePacket(cfg, s, a, heardOn))
  {
    hide HandleAck, HandleEcho, DispatchPayload, Admits;
  }

  lemma HandlePacketKeeps(cfg: Config, s: Controller, a: Arrival, heardOn: nat)
    requires Core(s)
    ensures Core(HandlePacket(cfg, s, a, heardOn)) && NoNewRead(s, HandlePacket(cfg, s, a, heardOn))
  {
    hide Core, HandleAck, HandlePacket, H.Echoed, WordOf;
    var s0 := HandleEcho(s, a.pkt);
    SameWorkKeeps(s, s0);
    HandleAckKeeps(cfg, s0, a);
    DeliveringIsSameWork(cfg, s, a, heardOn);
    SameWorkKeeps(HandleAck(cfg, s0, a), HandlePacket(cfg, s, a, heardOn));
  }

  lemma {:induction false} HandleMovesKeep(cfg: Config, s: Controller, moves: seq<Move>, heardOn: nat)
    requires Core(s)
    ensures Core(HandleMoves(cfg, s, moves, heardOn)) && NoNewRead(s, HandleMoves(cfg, s, moves, heardOn))
  {
    hide Core, HandlePacket;
    if moves == [] {
      SameWorkKeeps(s, s);
    } else {
      var n := |moves| - 1;
      var before := HandleMoves(cfg, s, moves[..n], heardOn);
      HandleMovesKeep(cfg, s, moves[..n], heardOn);
      match moves[n]
      case Takes(a) => HandlePacketKeeps(cfg, before, a, heardOn);
      case Holds(buffer) => SameWorkKeeps(before, before.(buffer := buffer));
    }
  }

  lemma IngestKeeps(cfg: Config, s: Controller, data: seq<byte>, faults: seq<Fault>, heardOn: nat)
    requires Core(s)
    ensures Core(Ingest(cfg, s, data, faults, heardOn)) && NoNewRead(s, Ingest(cfg, s, data, faults, heardOn))
  {
    hide Core, Ingest, HandleMoves;
    var moves := IngestMoves(cfg, s, data, faults, heardOn);
    HandleMovesKeep(cfg, s, moves, heardOn);
  }

  lemma ReadEndedKeeps(before: Controller, s: Controller, generation: nat)
    requires Ended(before, s, Reading(generation))
    ensures var s1 := CompleteOp(s);
            s1.generation == s.generation && Core(s1)
            && (generation == s.generation ==> s1.outstanding[Reading(s1.generation)] == 0)
  {
    hide LedgerOk, CompleteOp;
    CompleteOpIs(s);
  }

  lemma HandleReceiveKeeps(cfg: Config, before: Controller, s: Controller, generation: nat, received: Received,
      throws: bool)
    requires Ended(before, s, Reading(generation))
    ensures Core(HandleReceive(cfg, s, generation, received, throws))
  {
    hide Ended, Reset, StartReceive, CompleteOp, Ingest, Current, Counted, LedgerOk;
    ReadEndedKeeps(before, s, generation);
    if generation == s.generation {
      var s1 := CompleteOp(s);
      ResetKeeps(cfg, s1);
      StartReceiveKeeps(cfg, s1, throws);
      if received.Bytes? {
        IngestKeeps(cfg, s1, received.data, received.faults, generation);
        StartReceiveKeeps(cfg, Ingest(cfg, s1, received.data, received.faults, generation), throws);
      }
    }
  }

  lemma CheckConnectionKeeps(cfg: Config, s: Controller, opening: Opening, throws: bool)
    requires Core(s)
    ensures Core(CheckConnectionImpl(cfg, s, opening, throws))
  {
    hide LedgerOk, Reset, StartReceive, HandshakeFrame;
    ResetKeeps(cfg, s);
    var s1 := Reset(cfg, s);
    if !s.connected && opening == Opens {
      var s2 := s1.(port := Present(true), connected := true, shutdown := s1.shutdown.(requested := false),
                    running := !cfg.requireHandshake);
      var s3 := if cfg.requireHandshake then s2 else PublishReady(s2, true);
      assert Core(s3) && s3.outstanding[Reading(s3.generation)] == 0;
      StartReceiveKeeps(cfg, s3, throws);
    }
  }

  lemma HeartbeatTimerKeeps(cfg: Config, s: Controller, now: int)
    requires Core(s)
    ensures Core(HandleHeartbeatTimer(cfg, s, now))
  {
    hide LedgerOk, Reset, HandshakeFrame, HeartbeatFrame, H.Tick;
    ResetKeeps(cfg, s);
  }

  lemma DestroyKeeps(cfg: Config, s: Controller)
    requires Core(s)
    ensures Core(Destroy(cfg, s))
  {
    hide LedgerOk, Reset;
    ResetKeeps(cfg, s);
  }

  lemma RunTaskKeeps(cfg: Config, s: Controller, task: Task, choice: Choice)
    requires Core(s)
    ensures Core(RunTask(cfg, s, task, choice))
  {
    hide LedgerOk, CheckConnectionImpl, HandleHeartbeatTimer, AsyncSend, HandOver, Destroy, R.Send;
    match task
    case CheckConnection => CheckConnectionKeeps(cfg, s, choice.opening, choice.throws);
    case HeartbeatTimer => HeartbeatTimerKeeps(cfg, s, choice.now);
    case Transmit(bytes) => AsyncSendKeeps(cfg, s, bytes, None, choice.fault);
    case ReliableSend(id, bytes) =>
      HandOverKeeps(cfg, s, R.Send(SenderSettings(cfg), s.ledger.sender, id, bytes), id, choice.fault);
    case Destroying => DestroyKeeps(cfg, s);
    case Drained =>
  }

  lemma RetryTimeoutKeeps(cfg: Config, s: Controller, ticket: R.Ticket, fault: Fault)
    requires Core(s)
    ensures Core(RetryTimeout(cfg, s, ticket, fault))
  {
    hide Core, HandOver, R.HandleRetryTimeout;
    var sender := s.ledger.sender.(expired := s.ledger.sender.expired - multiset{ticket});
    HandOverKeeps(cfg, s, R.HandleRetryTimeout(SenderSettings(cfg), sender, ticket), ticket.key, fault);
  }

  lemma ApplyKeeps(cfg: Config, s: Controller, e: Event)
    requires Core(s) && Enabled(s, e)
    ensures Core(Apply(cfg, s, e))
  {
    hide LedgerOk, RunTask, HandOver, HandleReceive, HandleWrite, R.HandleRetryTimeout, R.Expired;
    match e
    case Runs(choice) => RunTaskKeeps(cfg, s.(tasks := s.tasks[1..]), s.tasks[0], choice);
    case Expires(timer) => AnySenderKeeps(s.queue, s.ledger, R.Expired(s.ledger.sender, timer));
    case Retries(ticket, fault) => RetryTimeoutKeeps(cfg, s, ticket, fault);
    case ReadEnds(generation, received, throws) =>
      HandleReceiveKeeps(cfg, s, s.(outstanding := s.outstanding - multiset{Reading(generation)}), generation,
          received, throws);
    case WriteEnds(op, outcome, fault) =>
      HandleWriteKeeps(cfg, s, s.(outstanding := s.outstanding - multiset{op}), op, outcome, fault);
    case Posts(_) =>
    case LosesPort =>
    case ClosesDoor =>
    case PostsDestroy =>
  }

  lemma {:induction false} CoreAlways(cfg: Config, events: seq<Event>)
    requires After(cfg, events).Reached?
    ensures Core(After(cfg, events).controller)
  {
    hide Core, Apply, Enabled;
    if events == [] {
      InitialCore(cfg);
    } else {
      var n := |events| - 1;
      CoreAlways(cfg, events[..n]);
      ApplyKeeps(cfg, After(cfg, events[..n]).controller, events[n]);
    }
  }

  lemma InitialCore(cfg: Config)
    ensures Core(Initial(cfg))
  {
  }

  // ---------------------------------------------------------------------
  // Exactly-once completion
  // ---------------------------------------------------------------------

  /** How often the completion of `uid` has been called. */
  function CallsOf(reports: seq<Report>, uid: nat): nat
  {
    if reports == [] then 0
    else
      var n := |reports| - 1;
      CallsOf(reports[..n], uid) + if reports[n].uid == uid then 1 else 0
  }

  lemma {:induction false} CallsOfDistinct(reports: seq<Report>, uid: nat)
    requires forall i, j | 0 <= i < j < |reports| :: reports[i].uid != reports[j].uid
    ensures CallsOf(reports, uid) == if Reported(reports, uid) then 1 else 0
  {
    if reports != [] {
      var n := |reports| - 1;
      var before := reports[..n];
      CallsOfDistinct(before, uid);
      if Reported(reports, uid) {
        var i :| 0 <= i < |reports| && reports[i].uid == uid;
        assert i < n ==> before[i].uid == uid;
      }
      if Reported(before, uid) {
        var i :| 0 <= i < n && before[i].uid == uid;
        assert reports[i].uid == uid;
      }
    }
  }

  /** In every reachable state a request that came with a completion either waits in the queue, its
      completion never called, or has left it, its completion called once; and nothing else is
      ever called. */
  lemma ExactlyOnce(cfg: Config, events: seq<Event>, uid: nat)
    requires After(cfg, events).Reached?
    ensures var s := After(cfg, events).controller;
            CallsOf(s.ledger.reports, uid) == if uid in s.ledger.tickets && !IsQueued(s.queue, uid) then 1 else 0
  {
    CoreAlways(cfg, events);
    var s := After(cfg, events).controller;
    CallsOfDistinct(s.ledger.reports, uid);
    if IsQueued(s.queue, uid) {
      var i :| 0 <= i < |s.queue| && s.queue[i].uid == uid;
      assert uid in s.ledger.tickets ==> uid in s.ledger.live;
    }
  }

  /** The queue is bounded, at most one write of the present connection is under way and it writes
      the front of the queue, at most one read is, and the operations are counted exactly. */
  lemma OneWriteAtATime(cfg: Config, events: seq<Event>)
    requires After(cfg, events).Reached?
    ensures var s := After(cfg, events).controller;
            && |s.queue| <= MAX_TX_QUEUE_SIZE
            && s.pendingOps == |s.outstanding|
            && s.outstanding[Reading(s.generation)] <= 1
            && (forall r: Request :: s.outstanding[Writing(s.generation, r)]
                  == if s.writing && s.queue != [] && r == s.queue[0] then 1 else 0)
            && (!s.connected ==> s.queue == [])
  {
    CoreAlways(cfg, events);
    var s := After(cfg, events).controller;
    forall r: Request
      ensures s.outstanding[Writing(s.generation, r)] == if s.writing && s.queue != [] && r == s.queue[0] then 1 else 0
    {
      assert Writing(s.generation, r) in s.outstanding ==> s.writing && r == s.queue[0];
    }
  }

  // ---------------------------------------------------------------------
  // What a completion says
  // ---------------------------------------------------------------------

  /** Every completion called in between reports failure. */
  ghost predicate OnlyFailures(s: Controller, s': Controller)
  {
    && s.ledger.reports <= s'.ledger.reports
    && forall i | |s.ledger.reports| <= i < |s'.ledger.reports| :: !s'.ledger.reports[i].success
  }

  lemma ResetFails(cfg: Config, s: Controller)
    ensures OnlyFailures(s, Reset(cfg, s)) && CompleteOp(s).ledger == s.ledger
  {
    hide SettleAll, R.ClearAll;
    SettleAllIs(Cleared(s.ledger, s.shutdown.closed), s.queue);
  }

  lemma StartReceiveFails(cfg: Config, s: Controller, throws: bool)
    ensures OnlyFailures(s, StartReceive(cfg, s, throws))
  {
    hide Reset, CompleteOp;
    var s1 := s.(pendingOps := s.pendingOps + 1);
    ResetFails(cfg, s1);
    ResetFails(cfg, CompleteOp(s1));
  }

  lemma StartNextWriteFails(cfg: Config, s: Controller, fault: Fault)
    ensures OnlyFailures(s, StartNextWrite(cfg, s, fault))
  {
    hide Reset, CompleteOp, SettleAll;
    SettleAllIs(s.ledger, s.queue);
    var s1 := s.(writing := true, pendingOps := s.pendingOps + 1);
    ResetFails(cfg, s1);
    ResetFails(cfg, CompleteOp(s1).(writing := false));
  }

  lemma AsyncSendFails(cfg: Config, s: Controller, bytes: seq<byte>, ticket: Option<R.Completion>, fault: Fault)
    ensures OnlyFailures(s, AsyncSend(cfg, s, bytes, ticket, fault))
  {
    hide Reset, StartNextWrite;
    var ledger, request := Submit(s.ledger, ticket), Request(s.ledger.submitted, bytes);
    ResetFails(cfg, s.(ledger := Settle(ledger, request, false)));
    StartNextWriteFails(
      cfg, s.(ledger := ledger, queue := s.queue + [request], trace := s.trace + [Enqueued(s.generation, bytes)]),
          fault);
  }

  lemma HandOverFails(cfg: Config, s: Controller, sender: R.Sender, key: byte, fault: Fault)
    ensures OnlyFailures(s, HandOver(cfg, s, sender, key, fault))
  {
    hide AsyncSend;
    if R.HasFront(sender, key) {
      var front := R.Front(sender, key);
      AsyncSendFails(
        cfg, s.(ledger := s.ledger.(sender := sender)), front.bytes,
        Some(R.Completion(key, front.seqNo, front.generation)), fault);
    }
  }

  lemma HandlePacketFails(cfg: Config, s: Controller, a: Arrival, heardOn: nat)
    ensures OnlyFailures(s, HandlePacket(cfg, s, a, heardOn))
  {
    hide HandOver, HandlePacket, H.Echoed, WordOf, R.OnAckReceived;
    var s0 := HandleEcho(s, a.pkt);
    if |a.pkt.payload| == 2 {
      var id, seqNo := a.pkt.payload[0], a.pkt.payload[1];
      HandOverFails(cfg, s0, R.OnAckReceived(SenderSettings(cfg), s.ledger.sender, id, seqNo), id, a.fault);
    }
    DeliveringIsSameWork(cfg, s, a, heardOn);
  }

  lemma {:induction false} HandleMovesFail(cfg: Config, s: Controller, moves: seq<Move>, heardOn: nat)
    ensures OnlyFailures(s, HandleMoves(cfg, s, moves, heardOn))
  {
    hide HandlePacket;
    if moves != [] {
      var n := |moves| - 1;
      HandleMovesFail(cfg, s, moves[..n], heardOn);
      if moves[n].Takes? {
        HandlePacketFails(cfg, HandleMoves(cfg, s, moves[..n], heardOn), moves[n].arrival, heardOn);
      }
    }
  }

  lemma HandleReceiveFails(cfg: Config, s: Controller, generation: nat, received: Received, throws: bool)
    ensures OnlyFailures(s, HandleReceive(cfg, s, generation, received, throws))
  {
    hide Reset, StartReceive, CompleteOp, Ingest, HandleMoves;
    ResetFails(cfg, s);
    var s1 := CompleteOp(s);
    ResetFails(cfg, s1);
    StartReceiveFails(cfg, s1, throws);
    if received.Bytes? {
      var moves := IngestMoves(cfg, s1, received.data, received.faults, generation);
      HandleMovesFail(cfg, s1, moves, generation);
      StartReceiveFails(cfg, Ingest(cfg, s1, received.data, received.faults, generation), throws);
    }
  }

  lemma CheckConnectionFails(cfg: Config, s: Controller, opening: Opening, throws: bool)
    ensures OnlyFailures(s, CheckConnectionImpl(cfg, s, opening, throws))
  {
    hide StartReceive, Reset, HandshakeFrame;
    ResetFails(cfg, s);
    var s1 := Reset(cfg, s);
    var s2 := s1.(port := Present(true), connected := true, shutdown := s1.shutdown.(requested := false),
                  running := !cfg.requireHandshake);
    StartReceiveFails(cfg, s2, throws);
    StartReceiveFails(cfg, PublishReady(s2, true), throws);
  }

  lemma RunTaskFails(cfg: Config, s: Controller, task: Task, choice: Choice)
    ensures OnlyFailures(s, RunTask(cfg, s, task, choice))
  {
    hide CheckConnectionImpl, AsyncSend, HandOver, Reset, HandshakeFrame, HeartbeatFrame, H.Tick, R.Send;
    ResetFails(cfg, s);
    match task
    case CheckConnection => CheckConnectionFails(cfg, s, choice.opening, choice.throws);
    case HeartbeatTimer =>
    case Transmit(bytes) => AsyncSendFails(cfg, s, bytes, None, choice.fault);
    case ReliableSend(id, bytes) =>
      HandOverFails(cfg, s, R.Send(SenderSettings(cfg), s.ledger.sender, id, bytes), id, choice.fault);
    case Destroying =>
    case Drained =>
  }

  /** The completion of a write that ended on the present connection says how it ended; whatever is
      called besides says failure. */
  lemma HandleWriteTells(cfg: Config, before: Controller, s: Controller, op: Op, outcome: Outcome, fault: Fault)
    requires Ended(before, s, op) && op.Writing?
    ensures var s' := HandleWrite(cfg, s, op, outcome, fault);
            if op.generation == s.generation && op.request.uid in s.ledger.live then
              var told := s.ledger.reports + [Report(op.request.uid, outcome.Succeeded?)];
              OnlyFailures(s.(ledger := s.ledger.(reports := told)), s')
            else OnlyFailures(s, s')
  {
    hide LedgerOk, Reset, StartNextWrite, CompleteOp;
    CompleteOpIs(s);
    var s1 := CompleteOp(s);
    var rest := if s1.queue != [] && s1.queue[0] == op.request then s1.queue[1..] else s1.queue;
    var s2 := s1.(writing := false, queue := rest, ledger := Settle(s1.ledger, op.request, outcome.Succeeded?));
    StartNextWriteFails(cfg, s2, fault);
    ResetFails(cfg, s2);
  }

  /** A completion reports success only when the write of that very request, the front of the
      queue, has just succeeded on the connection it was queued for. */
  lemma SuccessMeansWritten(cfg: Config, s: Controller, e: Event, i: nat)
    requires Core(s) && Enabled(s, e)
    requires |s.ledger.reports| <= i < |Apply(cfg, s, e).ledger.reports|
    requires Apply(cfg, s, e).ledger.reports[i].success
    ensures e.WriteEnds? && e.outcome.Succeeded? && e.op.generation == s.generation
    ensures s.queue != [] && e.op.request == s.queue[0] && e.op.request.uid == Apply(cfg, s, e).ledger.reports[i].uid
  {
    hide LedgerOk, RunTask, HandOver, HandleReceive, HandleWrite, R.HandleRetryTimeout, R.Expired;
    match e
    case Runs(choice) => RunTaskFails(cfg, s.(tasks := s.tasks[1..]), s.tasks[0], choice);
    case Expires(_) =>
    case Retries(t, fault) =>
      var sender := s.ledger.sender.(expired := s.ledger.sender.expired - multiset{t});
      HandOverFails(cfg, s, R.HandleRetryTimeout(SenderSettings(cfg), sender, t), t.key, fault);
    case ReadEnds(generation, received, throws) =>
      HandleReceiveFails(cfg, s.(outstanding := s.outstanding - multiset{Reading(generation)}), generation, received,
          throws);
    case WriteEnds(op, outcome, fault) =>
      HandleWriteTells(cfg, s, s.(outstanding := s.outstanding - multiset{op}), op, outcome, fault);
    case Posts(_) =>
    case LosesPort =>
    case ClosesDoor =>
    case PostsDestroy =>
  }
}
