/** The sender inside the controller does what the sender does on its own: whatever the connection
    goes through, its states are those of runs of the stand-alone sender, whose completions carry the
    outcomes that the controller reported. */
module SenderRefinement {
  import opened Checksums
  import opened Wire
  import opened StreamParser
  import opened SerialControl
  import opened ControllerChunk
  import opened ControllerSender
  import C = CompletionOutcome
  import R = ReliableSending

  // ---------------------------------------------------------------------
  // The relation
  // ---------------------------------------------------------------------

  /** A request with this completion was reported with this outcome. */
  ghost predicate Answered(l: Ledger, c: R.Completion, success: bool)
  {
    exists u | u in l.tickets && u < l.submitted && l.tickets[u] == c :: Report(u, success) in l.reports
  }

  /** The stand-alone sender comes to the same state by these events. */
  ghost predicate IsRun(cfg: Config, l: Ledger, events: seq<R.Event>)
  {
    && R.After(SenderSettings(cfg), events) == R.Reached(l.sender)
    && forall i | 0 <= i < |events| && events[i].DoComplete? ::
         Answered(l, events[i].completion, events[i].success)
  }

  ghost predicate Simulated(cfg: Config, l: Ledger)
  {
    exists events: seq<R.Event> :: IsRun(cfg, l, events)
  }

  /** Tickets and reports are only added. */
  ghost predicate Grows(l: Ledger, l': Ledger)
  {
    && l.submitted <= l'.submitted && l.reports <= l'.reports
    && forall u | u in l.tickets && u < l.submitted :: u in l'.tickets && l'.tickets[u] == l.tickets[u]
  }

  lemma StaysAnswered(l: Ledger, l': Ledger, c: R.Completion, success: bool)
    requires Grows(l, l') && Answered(l, c, success)
    ensures Answered(l', c, success)
  {
    var u :| u in l.tickets && u < l.submitted && l.tickets[u] == c && Report(u, success) in l.reports;
    assert l'.tickets[u] == c;
    var j :| 0 <= j < |l.reports| && l.reports[j] == Report(u, success);
    assert l'.reports[j] == l.reports[j];
  }

  lemma BooksGrow(cfg: Config, l: Ledger, l': Ledger)
    requires Simulated(cfg, l) && Grows(l, l') && l'.sender == l.sender
    ensures Simulated(cfg, l')
  {
    hide Answered, Grows, R.After;
    var events: seq<R.Event> :| IsRun(cfg, l, events);
    forall i | 0 <= i < |events| && events[i].DoComplete?
      ensures Answered(l', events[i].completion, events[i].success)
    {
      StaysAnswered(l, l', events[i].completion, events[i].success);
    }
    assert IsRun(cfg, l', events);
  }

  /** One more event. */
  lemma SenderSteps(cfg: Config, l: Ledger, l': Ledger, e: R.Event)
    requires Simulated(cfg, l) && Grows(l, l')
    requires R.Enabled(l.sender, e) && l'.sender == R.Apply(SenderSettings(cfg), l.sender, e)
    requires e.DoComplete? ==> Answered(l', e.completion, e.success)
    ensures Simulated(cfg, l')
  {
    hide Answered, Grows, R.Apply, R.Enabled;
    var events: seq<R.Event> :| IsRun(cfg, l, events);
    var more := events + [e];
    assert more[..|events|] == events;
    forall i | 0 <= i < |more| && more[i].DoComplete?
      ensures Answered(l', more[i].completion, more[i].success)
    {
      if i < |events| {
        assert more[i] == events[i];
        StaysAnswered(l, l', events[i].completion, events[i].success);
      }
    }
    assert IsRun(cfg, l', more);
  }

  // ---------------------------------------------------------------------
  // The ledger
  // ---------------------------------------------------------------------

  lemma SettleRefines(cfg: Config, l: Ledger, request: Request, success: bool)
    requires Tied(l) && Simulated(cfg, l)
    ensures Simulated(cfg, Settle(l, request, success))
  {
    hide R.Inv, R.HandleSendCompletion, Simulated;
    if request.uid in l.live {
      var l' := Settle(l, request, success);
      var c := l.tickets[request.uid];
      assert l'.reports[|l.reports|] == Report(request.uid, success);
      assert Answered(l', c, success);
      SenderSteps(cfg, l, l', R.DoComplete(c, success));
    }
  }

  lemma {:induction false} SettleAllRefines(cfg: Config, l: Ledger, requests: seq<Request>)
    requires Tied(l) && Simulated(cfg, l)
    ensures Tied(SettleAll(l, requests)) && Simulated(cfg, SettleAll(l, requests))
  {
    hide Tied, Settle, Simulated;
    if requests != [] {
      var n := |requests| - 1;
      SettleAllRefines(cfg, l, requests[..n]);
      SettleTied(SettleAll(l, requests[..n]), requests[n], false);
      SettleRefines(cfg, SettleAll(l, requests[..n]), requests[n], false);
    }
  }

  lemma SubmitRefines(cfg: Config, l: Ledger, ticket: Option<R.Completion>)
    requires Simulated(cfg, l)
    ensures Simulated(cfg, Submit(l, ticket))
  {
    hide Simulated;
    BooksGrow(cfg, l, Submit(l, ticket));
  }

  // ---------------------------------------------------------------------
  // Handlers
  // ---------------------------------------------------------------------

  /** Before the destructor, tied to the controller and on a run of its own. */
  ghost predicate Refines(cfg: Config, s: Controller)
  {
    Open(s) && Simulated(cfg, s.ledger)
  }

  ghost predicate KeepsOn(cfg: Config, s: Controller, r: Controller)
  {
    Refines(cfg, s) ==> Refines(cfg, r)
  }

  lemma ResetRefines(cfg: Config, s: Controller)
    ensures KeepsOn(cfg, s, Reset(cfg, s)) && KeepsOn(cfg, s, CompleteOp(s))
  {
    hide SettleAll, Tied, R.ClearAll, Simulated;
    ResetTied(cfg, s);
    if Refines(cfg, s) {
      SettleAllRefines(cfg, s.ledger, s.queue);
    }
  }

  lemma StartReceiveRefines(cfg: Config, s: Controller, throws: bool)
    ensures KeepsOn(cfg, s, StartReceive(cfg, s, throws))
  {
    hide Reset, CompleteOp, Tied, Simulated;
    var s1 := s.(pendingOps := s.pendingOps + 1);
    ResetRefines(cfg, s1);
    ResetRefines(cfg, CompleteOp(s1));
  }

  lemma StartNextWriteRefines(cfg: Config, s: Controller, fault: Fault)
    ensures KeepsOn(cfg, s, StartNextWrite(cfg, s, fault))
  {
    hide Reset, CompleteOp, SettleAll, Tied, Simulated;
    var s1 := s.(writing := true, pendingOps := s.pendingOps + 1);
    ResetRefines(cfg, s1);
    ResetRefines(cfg, CompleteOp(s1).(writing := false));
    if Refines(cfg, s) {
      SettleAllRefines(cfg, s.ledger, s.queue);
    }
  }

  lemma AsyncSendRefines(cfg: Config, s: Controller, bytes: seq<byte>, ticket: Option<R.Completion>, fault: Fault)
    requires !s.shutdown.closed && TiedBut(s.ledger, Extra(ticket)) && Simulated(cfg, s.ledger)
    ensures Refines(cfg, AsyncSend(cfg, s, bytes, ticket, fault))
  {
    hide Reset, StartNextWrite, Settle, Submit, Tied, TiedBut, Simulated;
    var ledger, request := Submit(s.ledger, ticket), Request(s.ledger.submitted, bytes);
    SubmitTied(s.ledger, ticket);
    SubmitRefines(cfg, s.ledger, ticket);
    SettleTied(ledger, request, false);
    SettleRefines(cfg, ledger, request, false);
    ResetRefines(cfg, s.(ledger := Settle(ledger, request, false)));
    StartNextWriteRefines(
      cfg, s.(ledger := ledger, queue := s.queue + [request], trace := s.trace + [Enqueued(s.generation, bytes)]),
          fault);
  }

  /** The sender's own step, and the sending of what it hands over. */
  lemma HandOverRefines(cfg: Config, s: Controller, e: R.Event, sender: R.Sender, fault: Fault)
    requires Refines(cfg, s) && R.Enabled(s.ledger.sender, e) && !e.DoComplete?
    requires sender == R.Apply(SenderSettings(cfg), s.ledger.sender, e)
    requires HandsOver(s.ledger.sender, sender, R.KeyOf(e))
    ensures Refines(cfg, HandOver(cfg, s, sender, R.KeyOf(e), fault))
  {
    hide AsyncSend, R.Inv, R.Apply, Simulated, R.KeyOf;
    var l := s.ledger.(sender := sender);
    TiedInv(s.ledger);
    R.ApplyKeepsInv(SenderSettings(cfg), s.ledger.sender, e);
    SenderSteps(cfg, s.ledger, l, e);
    HandOverTied(cfg, s, sender, R.KeyOf(e), fault);
    if |sender.sent| > |s.ledger.sender.sent| {
      var front := R.Front(sender, R.KeyOf(e));
      var c := R.Completion(R.KeyOf(e), front.seqNo, front.generation);
      assert sender.completions - multiset{c} == s.ledger.sender.completions - multiset{};
      assert TiedBut(l, Extra(Some(c)));
      AsyncSendRefines(cfg, s.(ledger := l), front.bytes, Some(c), fault);
    }
  }

  lemma AckRefines(cfg: Config, s: Controller, a: Arrival)
    requires Refines(cfg, s)
    ensures Refines(cfg, HandleAck(cfg, s, a))
  {
    hide HandOver, HandsOver, R.OnAckReceived, Refines;
    if |a.pkt.payload| == 2 {
      var id, seqNo := a.pkt.payload[0], a.pkt.payload[1];
      AckHandsOver(SenderSettings(cfg), s.ledger.sender, id, seqNo);
      HandOverRefines(
        cfg, s, R.DoAck(id, seqNo), R.OnAckReceived(SenderSettings(cfg), s.ledger.sender, id, seqNo), a.fault);
    }
  }

  lemma PacketRefines(cfg: Config, s: Controller, a: Arrival, heardOn: nat)
    requires Refines(cfg, s)
    ensures Refines(cfg, HandlePacket(cfg, s, a, heardOn))
  {
    hide Tied, HandleAck, DispatchPayload, Admits, WordOf, Simulated;
    AckRefines(cfg, HandleEcho(s, a.pkt), a);
  }

  lemma {:induction false} MovesRefine(cfg: Config, s: Controller, moves: seq<Move>, heardOn: nat)
    requires Refines(cfg, s)
    ensures Refines(cfg, HandleMoves(cfg, s, moves, heardOn))
  {
    hide Tied, HandlePacket, Simulated;
    if moves != [] {
      var n := |moves| - 1;
      MovesRefine(cfg, s, moves[..n], heardOn);
      if moves[n].Takes? {
        PacketRefines(cfg, HandleMoves(cfg, s, moves[..n], heardOn), moves[n].arrival, heardOn);
      }
    }
  }

  lemma ReceiveRefines(cfg: Config, s: Controller, generation: nat, received: Received, throws: bool)
    requires Refines(cfg, s)
    ensures Refines(cfg, HandleReceive(cfg, s, generation, received, throws))
  {
    hide Reset, StartReceive, CompleteOp, Ingest, HandleMoves, Refines;
    ResetRefines(cfg, s);
    var s1 := CompleteOp(s);
    ResetRefines(cfg, s1);
    StartReceiveRefines(cfg, s1, throws);
    if received.Bytes? {
      var moves := IngestMoves(cfg, s1, received.data, received.faults, generation);
      MovesRefine(cfg, s1, moves, generation);
      StartReceiveRefines(cfg, Ingest(cfg, s1, received.data, received.faults, generation), throws);
    }
  }

  lemma WriteRefines(cfg: Config, s: Controller, op: Op, outcome: Outcome, fault: Fault)
    requires Refines(cfg, s) && op.Writing?
    ensures Refines(cfg, HandleWrite(cfg, s, op, outcome, fault))
  {
    hide Reset, StartNextWrite, Settle, CompleteOp, Tied, Simulated;
    ResetRefines(cfg, s);
    var s1 := CompleteOp(s);
    var rest := if s1.queue != [] && s1.queue[0] == op.request then s1.queue[1..] else s1.queue;
    SettleTied(s1.ledger, op.request, outcome.Succeeded?);
    SettleRefines(cfg, s1.ledger, op.request, outcome.Succeeded?);
    var s2 := s1.(writing := false, queue := rest, ledger := Settle(s1.ledger, op.request, outcome.Succeeded?));
    StartNextWriteRefines(cfg, s2, fault);
    ResetRefines(cfg, s2);
  }

  lemma CheckRefines(cfg: Config, s: Controller, opening: Opening, throws: bool)
    requires Refines(cfg, s)
    ensures Refines(cfg, CheckConnectionImpl(cfg, s, opening, throws))
  {
    hide Reset, StartReceive, HandshakeFrame, Tied, Simulated;
    ResetRefines(cfg, s);
    var s1 := Reset(cfg, s);
    var s2 := s1.(port := Present(true), connected := true, shutdown := s1.shutdown.(requested := false),
                  running := !cfg.requireHandshake);
    StartReceiveRefines(cfg, s2, throws);
    StartReceiveRefines(cfg, PublishReady(s2, true), throws);
  }

  lemma TaskRefines(cfg: Config, s: Controller, task: Task, choice: Choice)
    requires Refines(cfg, s)
    ensures Refines(cfg, RunTask(cfg, s, task, choice))
  {
    hide CheckConnectionImpl, AsyncSend, HandOver, HandsOver, R.Send, Reset, HandshakeFrame, HeartbeatFrame, TiedBut,
         Simulated;
    ResetRefines(cfg, s);
    match task
    case CheckConnection => CheckRefines(cfg, s, choice.opening, choice.throws);
    case HeartbeatTimer =>
    case Transmit(bytes) => AsyncSendRefines(cfg, s, bytes, None, choice.fault);
    case ReliableSend(id, bytes) =>
      SendHandsOver(SenderSettings(cfg), s.ledger.sender, id, bytes);
      HandOverRefines(
        cfg, s, R.DoSend(id, bytes), R.Send(SenderSettings(cfg), s.ledger.sender, id, bytes), choice.fault);
    case Destroying =>
    case Drained =>
  }

  lemma RetryRefines(cfg: Config, s: Controller, t: R.Ticket, fault: Fault)
    requires Refines(cfg, s) && t in s.ledger.sender.expired
    ensures Refines(cfg, RetryTimeout(cfg, s, t, fault))
  {
    hide HandOver, HandsOver, R.HandleRetryTimeout, Refines;
    var sender := s.ledger.sender.(expired := s.ledger.sender.expired - multiset{t});
    var sender' := R.HandleRetryTimeout(SenderSettings(cfg), sender, t);
    TimeoutHandsOver(SenderSettings(cfg), sender, t);
    HandsOverAlike(s.ledger.sender, sender, sender', t.key);
    HandOverRefines(cfg, s, R.DoTimeout(t), sender', fault);
  }

  lemma HandsOverAlike(s: R.Sender, s1: R.Sender, s': R.Sender, key: byte)
    requires HandsOver(s1, s', key) && s1.sent == s.sent && s1.completions == s.completions
    ensures HandsOver(s, s', key)
  {
  }

  lemma ExpiryRefines(cfg: Config, s: Controller, timer: R.EntryId)
    requires Refines(cfg, s) && timer in s.ledger.sender.armed
    ensures Simulated(cfg, s.ledger.(sender := R.Expired(s.ledger.sender, timer)))
  {
    hide R.Expired, Simulated, Open;
    SenderSteps(cfg, s.ledger, s.ledger.(sender := R.Expired(s.ledger.sender, timer)), R.DoExpire(timer));
  }

  lemma ApplyRefines(cfg: Config, s: Controller, e: Event)
    requires Refines(cfg, s) && Enabled(s, e) && !e.ClosesDoor?
    ensures Refines(cfg, Apply(cfg, s, e))
  {
    hide Tied, RunTask, RetryTimeout, HandleReceive, HandleWrite, R.Expired, Simulated;
    match e
    case Runs(choice) => TaskRefines(cfg, s.(tasks := s.tasks[1..]), s.tasks[0], choice);
    case Expires(timer) =>
      ExpiryRefines(cfg, s, timer);
      ExpiryTied(s.ledger, timer);
    case Retries(t, fault) => RetryRefines(cfg, s, t, fault);
    case ReadEnds(generation, received, throws) =>
      ReceiveRefines(cfg, s.(outstanding := s.outstanding - multiset{Reading(generation)}), generation, received,
          throws);
    case WriteEnds(op, outcome, fault) =>
      WriteRefines(cfg, s.(outstanding := s.outstanding - multiset{op}), op, outcome, fault);
    case Posts(_) =>
    case LosesPort =>
    case PostsDestroy =>
  }

  /** Until the destructor begins, every state that the sender gets into inside the controller is one
      that it gets into on its own, by completions with the outcomes the controller reported. What
      holds of all runs of the sender therefore holds inside the controller. */
  lemma {:induction false} SenderIsSimulated(cfg: Config, events: seq<Event>)
    requires After(cfg, events).Reached? && NeverCloses(events)
    ensures Refines(cfg, After(cfg, events).controller)
  {
    hide Refines, Apply, Enabled;
    if events == [] {
      NothingToSimulate(cfg);
    } else {
      var n := |events| - 1;
      SenderIsSimulated(cfg, events[..n]);
      ApplyRefines(cfg, After(cfg, events[..n]).controller, events[n]);
    }
  }

  lemma NothingToSimulate(cfg: Config)
    ensures Refines(cfg, Initial(cfg))
  {
    InitialOpen(cfg);
    assert IsRun(cfg, Initial(cfg).ledger, []);
  }

  // ---------------------------------------------------------------------
  // What an acknowledgement presupposes
  // ---------------------------------------------------------------------

  lemma {:induction false} LastReportIsAnswered(events: seq<R.Event>, l: Ledger, c: R.Completion)
    requires forall i | 0 <= i < |events| && events[i].DoComplete? ::
               Answered(l, events[i].completion, events[i].success)
    requires C.LastReport(events, c).Some?
    ensures Answered(l, c, C.LastReport(events, c).value)
  {
    hide Answered;
    var n := |events| - 1;
    if !(events[n].DoComplete? && events[n].completion == c) {
      LastReportIsAnswered(events[..n], l, c);
    }
  }

  /** A message that awaits its acknowledgement, and so could be taken off the queue, was reported as
      written in its current attempt: the write of a request with that attempt's completion ended
      well on the connection it was started on. */
  lemma AwaitingWasWritten(cfg: Config, events: seq<Event>, key: byte)
    requires After(cfg, events).Reached? && NeverCloses(events)
    requires R.HasFront(After(cfg, events).controller.ledger.sender, key)
    requires R.Front(After(cfg, events).controller.ledger.sender, key).awaiting
    ensures var s := After(cfg, events).controller;
            Answered(s.ledger, C.AttemptOf(s.ledger.sender, key), true)
  {
    hide Answered, Open;
    var l := After(cfg, events).controller.ledger;
    SenderIsSimulated(cfg, events);
    var run: seq<R.Event> :| IsRun(cfg, l, run);
    C.AwaitsIffWritten(SenderSettings(cfg), run, key);
    LastReportIsAnswered(run, l, C.AttemptOf(l.sender, key));
  }

  // ---------------------------------------------------------------------
  // Which messages are queued
  // ---------------------------------------------------------------------

  lemma SettleKeepsMessages(l: Ledger, request: Request, success: bool, k: byte)
    ensures R.Uids(Settle(l, request, success).sender, k) == R.Uids(l.sender, k)
  {
    hide R.HandleSendCompletion;
    if request.uid in l.live && request.uid in l.tickets {
      var c := l.tickets[request.uid];
      R.CompletionUids(l.sender.(completions := l.sender.completions - multiset{c}), c, success, k);
    }
  }

  lemma {:induction false} SettleAllKeepsMessages(l: Ledger, requests: seq<Request>, k: byte)
    ensures R.Uids(SettleAll(l, requests).sender, k) == R.Uids(l.sender, k)
  {
    hide Settle, R.Uids;
    if requests != [] {
      var n := |requests| - 1;
      SettleAllKeepsMessages(l, requests[..n], k);
      SettleKeepsMessages(SettleAll(l, requests[..n]), requests[n], false, k);
    }
  }

  lemma ResetKeepsMessages(cfg: Config, s: Controller, k: byte)
    requires !s.shutdown.closed
    ensures R.Uids(Reset(cfg, s).ledger.sender, k) == R.Uids(s.ledger.sender, k)
    ensures CompleteOp(s).ledger == s.ledger && CompleteOp(s).shutdown.closed == s.shutdown.closed
  {
    hide SettleAll, R.ClearAll, R.Uids;
    SettleAllKeepsMessages(s.ledger, s.queue, k);
  }

  lemma SendKeepsMessages(cfg: Config, s: Controller, bytes: seq<byte>, ticket: Option<R.Completion>, fault: Fault,
                          k: byte)
    requires !s.shutdown.closed
    ensures R.Uids(AsyncSend(cfg, s, bytes, ticket, fault).ledger.sender, k) == R.Uids(s.ledger.sender, k)
  {
    hide Reset, StartNextWrite, Settle, R.Uids;
    var ledger, request := Submit(s.ledger, ticket), Request(s.ledger.submitted, bytes);
    SettleKeepsMessages(ledger, request, false, k);
    ResetKeepsMessages(cfg, s.(ledger := Settle(ledger, request, false)), k);
    NextWriteKeepsMessages(
      cfg, s.(ledger := ledger, queue := s.queue + [request], trace := s.trace + [Enqueued(s.generation, bytes)]),
      fault, k);
  }

  lemma NextWriteKeepsMessages(cfg: Config, s: Controller, fault: Fault, k: byte)
    requires !s.shutdown.closed
    ensures R.Uids(StartNextWrite(cfg, s, fault).ledger.sender, k) == R.Uids(s.ledger.sender, k)
  {
    hide Reset, CompleteOp, SettleAll, R.Uids;
    SettleAllKeepsMessages(s.ledger, s.queue, k);
    var s1 := s.(writing := true, pendingOps := s.pendingOps + 1);
    ResetKeepsMessages(cfg, s1, k);
    ResetKeepsMessages(cfg, CompleteOp(s1).(writing := false), k);
  }

  lemma HandOverKeepsMessages(cfg: Config, s: Controller, sender: R.Sender, key: byte, fault: Fault, k: byte)
    requires !s.shutdown.closed
    ensures R.Uids(HandOver(cfg, s, sender, key, fault).ledger.sender, k) == R.Uids(sender, k)
  {
    hide AsyncSend, R.Uids;
    if R.HasFront(sender, key) {
      var front := R.Front(sender, key);
      SendKeepsMessages(
        cfg, s.(ledger := s.ledger.(sender := sender)), front.bytes,
        Some(R.Completion(key, front.seqNo, front.generation)), fault, k);
    }
  }

  /** An acknowledgement packet takes off exactly the message it names, if that one awaits it; no other
      packet touches the sender. */
  lemma AckTakesOff(cfg: Config, s: Controller, a: Arrival, heardOn: nat, k: byte)
    requires !s.shutdown.closed
    ensures var before, after := s.ledger.sender, HandlePacket(cfg, s, a, heardOn).ledger.sender;
            if a.pkt.id == ACK_ID && |a.pkt.payload| == 2 && k == a.pkt.payload[0]
               && R.HasFront(before, k) && R.Front(before, k).seqNo == a.pkt.payload[1] && R.Front(before, k).awaiting
            then R.Uids(before, k) != [] && R.Uids(after, k) == R.Uids(before, k)[1..]
            else R.Uids(after, k) == R.Uids(before, k)
    ensures a.pkt.id != ACK_ID || |a.pkt.payload| != 2 ==>
              HandlePacket(cfg, s, a, heardOn).ledger == s.ledger
  {
    hide HandOver, R.OnAckReceived, R.Uids, WordOf;
    if a.pkt.id == ACK_ID && |a.pkt.payload| == 2 {
      var s1 := HandleEcho(s, a.pkt);
      var id, seqNo := a.pkt.payload[0], a.pkt.payload[1];
      R.AckUids(SenderSettings(cfg), s.ledger.sender, id, seqNo, k);
      HandOverKeepsMessages(cfg, s1, R.OnAckReceived(SenderSettings(cfg), s.ledger.sender, id, seqNo), id, a.fault, k);
    }
  }

  /** A reliable message given to the node is queued last among those of its ID, whatever becomes of
      the link; the other tasks, timers and writes neither add nor drop a message. */
  lemma OnlySendsQueue(cfg: Config, s: Controller, e: Event, k: byte)
    requires Enabled(s, e) && !s.shutdown.closed && !e.ReadEnds?
    ensures var before, after := s.ledger.sender, Apply(cfg, s, e).ledger.sender;
            R.Uids(after, k)
            == R.Uids(before, k)
               + if e.Runs? && s.tasks[0].ReliableSend? && s.tasks[0].id == k then [before.nextUid] else []
  {
    hide RunTask, RetryTimeout, HandleWrite;
    match e
    case Runs(choice) => TaskQueues(cfg, s.(tasks := s.tasks[1..]), s.tasks[0], choice, k);
    case Retries(t, fault) => RetryQueues(cfg, s, t, fault, k);
    case WriteEnds(op, outcome, fault) =>
      WriteQueues(cfg, s.(outstanding := s.outstanding - multiset{op}), op, outcome, fault, k);
    case _ =>
  }

  lemma TaskQueues(cfg: Config, s: Controller, task: Task, choice: Choice, k: byte)
    requires !s.shutdown.closed
    ensures R.Uids(RunTask(cfg, s, task, choice).ledger.sender, k)
         == R.Uids(s.ledger.sender, k)
            + if task.ReliableSend? && task.id == k then [s.ledger.sender.nextUid] else []
  {
    hide Reset, AsyncSend, HandOver, CheckConnectionImpl, R.Send, R.Uids;
    ResetKeepsMessages(cfg, s, k);
    match task
    case CheckConnection => CheckQueues(cfg, s, choice.opening, choice.throws, k);
    case Transmit(bytes) => SendKeepsMessages(cfg, s, bytes, None, choice.fault, k);
    case ReliableSend(id, bytes) =>
      R.SendUids(SenderSettings(cfg), s.ledger.sender, id, bytes, k);
      HandOverKeepsMessages(cfg, s, R.Send(SenderSettings(cfg), s.ledger.sender, id, bytes), id, choice.fault, k);
    case _ =>
  }

  lemma StartReceiveQueues(cfg: Config, s: Controller, throws: bool, k: byte)
    requires !s.shutdown.closed
    ensures R.Uids(StartReceive(cfg, s, throws).ledger.sender, k) == R.Uids(s.ledger.sender, k)
  {
    hide Reset, CompleteOp, R.Uids;
    var s1 := s.(pendingOps := s.pendingOps + 1);
    ResetKeepsMessages(cfg, s1, k);
    ResetKeepsMessages(cfg, CompleteOp(s1), k);
  }

  lemma CheckQueues(cfg: Config, s: Controller, opening: Opening, throws: bool, k: byte)
    requires !s.shutdown.closed
    ensures R.Uids(CheckConnectionImpl(cfg, s, opening, throws).ledger.sender, k) == R.Uids(s.ledger.sender, k)
  {
    hide Reset, StartReceive, R.Uids, HandshakeFrame, Open;
    ResetKeepsMessages(cfg, s, k);
    ResetTied(cfg, s);
    var s1 := Reset(cfg, s);
    var s2 := s1.(port := Present(true), connected := true, shutdown := s1.shutdown.(requested := false),
                  running := !cfg.requireHandshake);
    StartReceiveQueues(cfg, s2, throws, k);
    StartReceiveQueues(cfg, PublishReady(s2, true), throws, k);
  }

  lemma RetryQueues(cfg: Config, s: Controller, t: R.Ticket, fault: Fault, k: byte)
    requires !s.shutdown.closed
    ensures R.Uids(RetryTimeout(cfg, s, t, fault).ledger.sender, k) == R.Uids(s.ledger.sender, k)
  {
    hide HandOver, R.HandleRetryTimeout;
    var sender := s.ledger.sender.(expired := s.ledger.sender.expired - multiset{t});
    R.TimeoutUids(SenderSettings(cfg), sender, t, k);
    HandOverKeepsMessages(cfg, s, R.HandleRetryTimeout(SenderSettings(cfg), sender, t), t.key, fault, k);
  }

  lemma WriteQueues(cfg: Config, s: Controller, op: Op, outcome: Outcome, fault: Fault, k: byte)
    requires !s.shutdown.closed && op.Writing?
    ensures R.Uids(HandleWrite(cfg, s, op, outcome, fault).ledger.sender, k) == R.Uids(s.ledger.sender, k)
  {
    hide Reset, StartNextWrite, Settle, CompleteOp, R.Uids;
    ResetKeepsMessages(cfg, s, k);
    var s1 := CompleteOp(s);
    var rest := if s1.queue != [] && s1.queue[0] == op.request then s1.queue[1..] else s1.queue;
    SettleKeepsMessages(s1.ledger, op.request, outcome.Succeeded?, k);
    var s2 := s1.(writing := false, queue := rest, ledger := Settle(s1.ledger, op.request, outcome.Succeeded?));
    NextWriteKeepsMessages(cfg, s2, fault, k);
    ResetKeepsMessages(cfg, s2, k);
  }
}
