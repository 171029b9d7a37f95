/** Shutting down: the destructor is released exactly once, when no operation is under way, and
    nothing starts after its task. */
module ControllerShutdown {
  import opened Checksums
  import opened StreamParser
  import opened SerialControl
  import opened ControllerChunk
  import opened ControllerSafety
  import H = Heartbeat
  import R = ReliableSending

  // ---------------------------------------------------------------------
  // Before the destructor's task
  // ---------------------------------------------------------------------

  /** The step leaves the shutdown alone and posts nothing but frames to transmit, and not even
      those once the door is closed. */
  ghost predicate Undisturbed(s: Controller, s': Controller)
  {
    && s'.shutdown == s.shutdown.(requested := s'.shutdown.requested)
    && s.tasks <= s'.tasks && (s.shutdown.closed ==> s'.tasks == s.tasks)
    && forall k | |s.tasks| <= k < |s'.tasks| :: s'.tasks[k].Transmit?
  }

  lemma ResetQuiet(cfg: Config, s: Controller)
    requires !s.shutdown.callback
    ensures Undisturbed(s, Reset(cfg, s)) && Undisturbed(s, CompleteOp(s))
  {
    hide SettleAll;
  }

  lemma StartReceiveQuiet(cfg: Config, s: Controller, throws: bool)
    requires !s.shutdown.callback
    ensures Undisturbed(s, StartReceive(cfg, s, throws))
  {
    hide Reset, CompleteOp;
    var s1 := s.(pendingOps := s.pendingOps + 1);
    ResetQuiet(cfg, s1);
    ResetQuiet(cfg, CompleteOp(s1));
  }

  lemma StartNextWriteQuiet(cfg: Config, s: Controller, fault: Fault)
    requires !s.shutdown.callback
    ensures Undisturbed(s, StartNextWrite(cfg, s, fault))
  {
    hide Reset, CompleteOp, SettleAll;
    var s1 := s.(writing := true, pendingOps := s.pendingOps + 1);
    ResetQuiet(cfg, s1);
    ResetQuiet(cfg, CompleteOp(s1).(writing := false));
  }

  lemma AsyncSendQuiet(cfg: Config, s: Controller, bytes: seq<byte>, ticket: Option<R.Completion>, fault: Fault)
    requires !s.shutdown.callback
    ensures Undisturbed(s, AsyncSend(cfg, s, bytes, ticket, fault))
  {
    hide Reset, StartNextWrite, Settle, Submit;
    var ledger, request := Submit(s.ledger, ticket), Request(s.ledger.submitted, bytes);
    ResetQuiet(cfg, s.(ledger := Settle(ledger, request, false)));
    StartNextWriteQuiet(
      cfg, s.(ledger := ledger, queue := s.queue + [request], trace := s.trace + [Enqueued(s.generation, bytes)]),
          fault);
  }

  lemma HandleWriteQuiet(cfg: Config, s: Controller, op: Op, outcome: Outcome, fault: Fault)
    requires !s.shutdown.callback && op.Writing?
    ensures Undisturbed(s, HandleWrite(cfg, s, op, outcome, fault))
  {
    hide Reset, StartNextWrite, Settle, CompleteOp;
    ResetQuiet(cfg, s);
    var s1 := CompleteOp(s);
    var rest := if s1.queue != [] && s1.queue[0] == op.request then s1.queue[1..] else s1.queue;
    var s2 := s1.(writing := false, queue := rest, ledger := Settle(s1.ledger, op.request, outcome.Succeeded?));
    StartNextWriteQuiet(cfg, s2, fault);
    ResetQuiet(cfg, s2);
  }

  lemma DeliveringQuiet(cfg: Config, s: Controller, a: Arrival, heardOn: nat)
    ensures Undisturbed(HandleAck(cfg, HandleEcho(s, a.pkt), a), HandlePacket(cfg, s, a, heardOn))
    ensures Undisturbed(s, HandleEcho(s, a.pkt))
  {
    hide HandleAck, DispatchPayload, Admits, H.Echoed, WordOf;
  }

  lemma HandOverQuiet(cfg: Config, s: Controller, sender: R.Sender, key: byte, fault: Fault)
    requires !s.shutdown.callback
    ensures Undisturbed(s, HandOver(cfg, s, sender, key, fault))
  {
    hide AsyncSend;
    if R.HasFront(sender, key) {
      var front := R.Front(sender, key);
      AsyncSendQuiet(
        cfg, s.(ledger := s.ledger.(sender := sender)), front.bytes,
        Some(R.Completion(key, front.seqNo, front.generation)), fault);
    }
  }

  lemma HandleAckQuiet(cfg: Config, s: Controller, a: Arrival)
    requires !s.shutdown.callback
    ensures Undisturbed(s, HandleAck(cfg, s, a))
  {
    hide HandOver, R.OnAckReceived;
    if |a.pkt.payload| == 2 {
      var id, seqNo := a.pkt.payload[0], a.pkt.payload[1];
      HandOverQuiet(cfg, s, R.OnAckReceived(SenderSettings(cfg), s.ledger.sender, id, seqNo), id, a.fault);
    }
  }

  lemma HandlePacketQuiet(cfg: Config, s: Controller, a: Arrival, heardOn: nat)
    requires !s.shutdown.callback
    ensures Undisturbed(s, HandlePacket(cfg, s, a, heardOn))
  {
    hide HandleEcho, HandleAck, HandlePacket;
    DeliveringQuiet(cfg, s, a, heardOn);
    HandleAckQuiet(cfg, HandleEcho(s, a.pkt), a);
  }

  lemma {:induction false} HandleMovesQuiet(cfg: Config, s: Controller, moves: seq<Move>, heardOn: nat)
    requires !s.shutdown.callback
    ensures Undisturbed(s, HandleMoves(cfg, s, moves, heardOn))
  {
    hide HandlePacket;
    if moves != [] {
      var n := |moves| - 1;
      HandleMovesQuiet(cfg, s, moves[..n], heardOn);
      if moves[n].Takes? {
        HandlePacketQuiet(cfg, HandleMoves(cfg, s, moves[..n], heardOn), moves[n].arrival, heardOn);
      }
    }
  }

  lemma HandleReceiveQuiet(cfg: Config, s: Controller, generation: nat, received: Received, throws: bool)
    requires !s.shutdown.callback
    ensures Undisturbed(s, HandleReceive(cfg, s, generation, received, throws))
  {
    hide Reset, StartReceive, CompleteOp, Ingest, HandleMoves;
    ResetQuiet(cfg, s);
    var s1 := CompleteOp(s);
    ResetQuiet(cfg, s1);
    StartReceiveQuiet(cfg, s1, throws);
    if received.Bytes? {
      var moves := IngestMoves(cfg, s1, received.data, received.faults, generation);
      HandleMovesQuiet(cfg, s1, moves, generation);
      StartReceiveQuiet(cfg, Ingest(cfg, s1, received.data, received.faults, generation), throws);
    }
  }

  lemma CheckConnectionQuiet(cfg: Config, s: Controller, opening: Opening, throws: bool)
    requires !s.shutdown.callback
    ensures Undisturbed(s, CheckConnectionImpl(cfg, s, opening, throws))
  {
    hide Reset, StartReceive, HandshakeFrame;
    ResetQuiet(cfg, s);
    var s1 := Reset(cfg, s);
    var s2 := s1.(port := Present(true), connected := true, shutdown := s1.shutdown.(requested := false),
                  running := !cfg.requireHandshake);
    StartReceiveQuiet(cfg, s2, throws);
    StartReceiveQuiet(cfg, PublishReady(s2, true), throws);
  }

  lemma HeartbeatTimerQuiet(cfg: Config, s: Controller, now: int)
    requires !s.shutdown.callback
    ensures Undisturbed(s, HandleHeartbeatTimer(cfg, s, now))
  {
    hide Reset, HandshakeFrame, HeartbeatFrame, H.Tick;
    ResetQuiet(cfg, s);
  }

  // ---------------------------------------------------------------------
  // The invariant
  // ---------------------------------------------------------------------

  /** Before the destructor's task has run: nobody waits, and that task, once posted, is the last. */
  ghost predicate Before(s: Controller)
  {
    && !s.shutdown.callback && s.shutdown.signals == 0
    && (s.shutdown.posted ==> s.shutdown.closed && s.tasks != [])
    && forall k | 0 <= k < |s.tasks| ::
         !s.tasks[k].Drained? && (s.tasks[k].Destroying? <==> s.shutdown.posted && k == |s.tasks| - 1)
  }

  /** Afterwards: the sender holds no message,
      and the destructor waits as long as operations are under way; when the last of them
      has ended it has been released, or the task that releases it is the only one left. */
  ghost predicate Afterwards(s: Controller)
  {
    && s.shutdown.closed && s.shutdown.posted && s.shutdown.requested && !s.connected
    && s.ledger.sender.pending == map[]
    && if s.shutdown.callback then s.pendingOps > 0 && s.tasks == [] && s.shutdown.signals == 0
       else
         && s.pendingOps == 0
         && ((s.tasks == [] && s.shutdown.signals == 1) || (s.tasks == [Drained] && s.shutdown.signals == 0))
  }

  ghost predicate DrainOk(s: Controller)
  {
    if s.shutdown.destroyed then Afterwards(s) else Before(s)
  }

  lemma {:induction false} SettlingEmpty(l: Ledger, requests: seq<Request>)
    requires l.sender.pending == map[]
    ensures SettleAll(l, requests).sender.pending == map[]
  {
    if requests != [] {
      SettlingEmpty(l, requests[..|requests| - 1]);
    }
  }

  lemma ResetForgets(cfg: Config, s: Controller)
    requires s.shutdown.closed
    ensures Reset(cfg, s).ledger.sender.pending == map[]
  {
    hide SettleAll;
    SettlingEmpty(Cleared(s.ledger, true), s.queue);
  }

  lemma DestroyDrains(cfg: Config, s: Controller)
    requires !s.shutdown.callback && s.shutdown.signals == 0 && s.shutdown.closed && s.shutdown.posted && s.tasks == []
    ensures DrainOk(Destroy(cfg, s)) && Destroy(cfg, s).shutdown.destroyed
  {
    ResetForgets(cfg, s);
    hide SettleAll;
  }

  lemma RunTaskQuiet(cfg: Config, s: Controller, task: Task, choice: Choice)
    requires !s.shutdown.callback && !task.Destroying? && !task.Drained?
    ensures Undisturbed(s, RunTask(cfg, s, task, choice))
  {
    hide CheckConnectionImpl, HandleHeartbeatTimer, AsyncSend, HandOver, R.Send;
    match task
    case CheckConnection => CheckConnectionQuiet(cfg, s, choice.opening, choice.throws);
    case HeartbeatTimer => HeartbeatTimerQuiet(cfg, s, choice.now);
    case Transmit(bytes) => AsyncSendQuiet(cfg, s, bytes, None, choice.fault);
    case ReliableSend(id, bytes) =>
      HandOverQuiet(cfg, s, R.Send(SenderSettings(cfg), s.ledger.sender, id, bytes), id, choice.fault);
  }

  /** Running the first task of the queue before the destructor's own. */
  lemma FirstTaskDrains(cfg: Config, s: Controller, choice: Choice)
    requires !s.shutdown.destroyed && Before(s) && s.tasks != []
    ensures DrainOk(RunTask(cfg, s.(tasks := s.tasks[1..]), s.tasks[0], choice))
  {
    hide RunTask, Destroy;
    var s1 := s.(tasks := s.tasks[1..]);
    if s.tasks[0].Destroying? {
      DestroyDrains(cfg, s1);
      RunDestroying(cfg, s1, choice);
    } else {
      RunTaskQuiet(cfg, s1, s.tasks[0], choice);
      assert Before(s1);
    }
  }

  lemma RunDestroying(cfg: Config, s: Controller, choice: Choice)
    ensures RunTask(cfg, s, Destroying, choice) == Destroy(cfg, s)
  {
  }

  lemma BeforeKeeps(cfg: Config, s: Controller, e: Event)
    requires !s.shutdown.destroyed && Before(s) && Enabled(s, e)
    ensures DrainOk(Apply(cfg, s, e))
  {
    hide RunTask, HandOver, HandleReceive, HandleWrite, R.HandleRetryTimeout, R.Expired;
    match e
    case Runs(choice) => FirstTaskDrains(cfg, s, choice);
    case Expires(_) =>
    case Retries(t, fault) =>
      var sender := s.ledger.sender.(expired := s.ledger.sender.expired - multiset{t});
      HandOverQuiet(cfg, s, R.HandleRetryTimeout(SenderSettings(cfg), sender, t), t.key, fault);
    case ReadEnds(generation, received, throws) =>
      HandleReceiveQuiet(cfg, s.(outstanding := s.outstanding - multiset{Reading(generation)}), generation, received,
          throws);
    case WriteEnds(op, outcome, fault) =>
      HandleWriteQuiet(cfg, s.(outstanding := s.outstanding - multiset{op}), op, outcome, fault);
    case Posts(_) =>
    case LosesPort =>
    case ClosesDoor =>
    case PostsDestroy =>
  }

  // ---------------------------------------------------------------------
  // After the destructor's task
  // ---------------------------------------------------------------------

  /** No operation starts, no frame is queued or handed over by the sender, which holds no message;
      no packet reaches a topic. */
  ghost predicate NothingStarts(s: Controller, s': Controller)
  {
    && s'.shutdown.destroyed && !s'.connected
    && s'.outstanding <= s.outstanding
    && s'.queue == s.queue && s'.trace == s.trace
    && s'.ledger.sender.pending == map[] && s'.ledger.sender.sent == s.ledger.sender.sent
    && s'.ledger.submitted == s.ledger.submitted
  }

  /** An operation of an earlier connection ends. */
  lemma StaleOpEnds(before: Controller, s: Controller, op: Op)
    requires Ended(before, s, op) && before.shutdown.destroyed && Afterwards(before)
    ensures op.generation != s.generation
    ensures Afterwards(CompleteOp(s)) && NothingStarts(before, CompleteOp(s))
  {
    hide CompleteOp, LedgerOk;
    CompleteOpIs(s);
  }

  lemma StaleHandlers(cfg: Config, s: Controller, generation: nat, received: Received, throws: bool,
                      op: Op, outcome: Outcome, fault: Fault)
    requires op.Writing?
    ensures generation != s.generation ==> HandleReceive(cfg, s, generation, received, throws) == CompleteOp(s)
    ensures op.generation != s.generation ==> HandleWrite(cfg, s, op, outcome, fault) == CompleteOp(s)
  {
    hide Reset, StartReceive, StartNextWrite, Ingest, Settle;
  }

  /** A timer of a message that is gone. */
  lemma NothingToRetry(cfg: Config, s: Controller, t: R.Ticket, fault: Fault)
    requires s.ledger.sender.pending == map[]
    ensures var sender := s.ledger.sender.(expired := s.ledger.sender.expired - multiset{t});
            RetryTimeout(cfg, s, t, fault) == s.(ledger := s.ledger.(sender := sender))
  {
    hide AsyncSend;
  }

  /** What is left to happen: operations of earlier connections end, and late timers do nothing. */
  lemma AfterwardsKeeps(cfg: Config, s: Controller, e: Event)
    requires Core(s) && s.shutdown.destroyed && Afterwards(s) && Enabled(s, e)
    ensures var s' := Apply(cfg, s, e);
            s'.shutdown.destroyed && Afterwards(s') && NothingStarts(s, s')
  {
    hide Core, RetryTimeout, HandleReceive, HandleWrite, CompleteOp;
    match e
    case Expires(_) =>
    case Retries(t, fault) =>
      NothingToRetry(cfg, s, t, fault);
    case ReadEnds(generation, received, throws) =>
      var s0 := s.(outstanding := s.outstanding - multiset{Reading(generation)});
      StaleOpEnds(s, s0, Reading(generation));
      StaleHandlers(cfg, s0, generation, received, throws, Writing(0, Request(0, [])), Failed, NoFault);
    case WriteEnds(op, outcome, fault) =>
      var s0 := s.(outstanding := s.outstanding - multiset{op});
      StaleOpEnds(s, s0, op);
      StaleHandlers(cfg, s0, s0.generation, ReadAborted, false, op, outcome, fault);
    case Runs(_) =>
    case Posts(_) =>
    case LosesPort =>
    case ClosesDoor =>
    case PostsDestroy =>
  }

  lemma {:induction false} DrainAlways(cfg: Config, events: seq<Event>)
    requires After(cfg, events).Reached?
    ensures Core(After(cfg, events).controller) && DrainOk(After(cfg, events).controller)
  {
    hide Core, Before, Afterwards, Apply, Enabled;
    CoreAlways(cfg, events);
    if events == [] {
      InitialDrain(cfg);
    } else {
      var n := |events| - 1;
      DrainAlways(cfg, events[..n]);
      var s := After(cfg, events[..n]).controller;
      if s.shutdown.destroyed {
        AfterwardsKeeps(cfg, s, events[n]);
      } else {
        BeforeKeeps(cfg, s, events[n]);
      }
    }
  }

  lemma InitialDrain(cfg: Config)
    ensures DrainOk(Initial(cfg))
  {
  }

  /** The destructor is released at most once, only after its task has run, and only when no
      operation of any connection is under way and no task is left on the strand. Once its task has
      run and no operation is under way, it has been released or its release is the next task. */
  lemma ReleasedOnce(cfg: Config, events: seq<Event>)
    requires After(cfg, events).Reached?
    ensures var s := After(cfg, events).controller;
            && s.shutdown.signals <= 1
            && (s.shutdown.signals == 1 ==> s.shutdown.destroyed && s.outstanding == multiset{} && s.tasks == [])
            && (s.shutdown.destroyed && s.outstanding == multiset{} && s.shutdown.signals == 0 ==> s.tasks == [Drained])
            && (s.shutdown.destroyed && s.outstanding != multiset{} ==> s.shutdown.callback && s.shutdown.signals == 0)
  {
    DrainAlways(cfg, events);
    var s := After(cfg, events).controller;
  }

  /** From the destructor's task on, whatever happens, nothing starts any more. */
  lemma {:induction false} NothingAfterDestroy(cfg: Config, events: seq<Event>, more: seq<Event>)
    requires After(cfg, events + more).Reached? && After(cfg, events).Reached?
    requires After(cfg, events).controller.shutdown.destroyed
    ensures NothingStarts(After(cfg, events).controller, After(cfg, events + more).controller)
  {
    hide Core, Afterwards, Before, Apply, Enabled;
    if more == [] {
      assert events + more == events;
      DrainAlways(cfg, events);
      AfterwardsCut(After(cfg, events).controller);
    } else {
      var n := |more| - 1;
      assert (events + more)[..|events| + n] == events + more[..n];
      NothingAfterDestroy(cfg, events, more[..n]);
      var s := After(cfg, events + more[..n]).controller;
      DrainAlways(cfg, events + more[..n]);
      AfterwardsKeeps(cfg, s, more[n]);
    }
  }

  lemma AfterwardsCut(s: Controller)
    requires Afterwards(s)
    ensures !s.connected && s.ledger.sender.pending == map[]
  {
  }
}
