/** The reliable sender inside the controller: whatever resets, rejections and failed writes come,
    the completions it waits for are exactly those that the controller still has to call. */
module ControllerSender {
  import opened Checksums
  import opened Wire
  import opened StreamParser
  import opened SerialControl
  import opened ControllerChunk
  import opened ControllerSafety
  import P = ControllerProgress
  import H = Heartbeat
  import R = ReliableSending

  // ---------------------------------------------------------------------
  // The invariant
  // ---------------------------------------------------------------------

  /** The completions of the live requests are all different, and they are what the sender waits
      for, apart from `extra` that it is about to hand over. */
  ghost predicate TiedBut(l: Ledger, extra: multiset<R.Completion>)
  {
    && R.Inv(l.sender)
    && extra <= l.sender.completions
    && (forall u | u in l.live :: u < l.submitted && u in l.tickets && l.tickets[u] in l.sender.completions - extra)
    && (forall c | c in l.sender.completions - extra :: exists u :: u in l.live && u in l.tickets && l.tickets[u] == c)
    && (forall u, v | u in l.live && v in l.live && u in l.tickets && v in l.tickets && u != v ::
          l.tickets[u] != l.tickets[v])
  }

  ghost predicate Tied(l: Ledger)
  {
    TiedBut(l, multiset{})
  }

  /** The door is open and the sender is tied to the controller. */
  ghost predicate Open(s: Controller)
  {
    !s.shutdown.closed && Tied(s.ledger)
  }

  ghost predicate StaysOpen(s: Controller, s': Controller)
  {
    s'.shutdown.closed == s.shutdown.closed && (Open(s) ==> Open(s'))
  }

  function Extra(ticket: Option<R.Completion>): multiset<R.Completion>
  {
    match ticket
    case Some(c) => multiset{c}
    case None => multiset{}
  }

  // ---------------------------------------------------------------------
  // The sender's steps
  // ---------------------------------------------------------------------

  /** A step of the sender about `key` either hands over nothing, or the front's current attempt with
      one new completion. */
  ghost predicate HandsOver(s: R.Sender, s': R.Sender, key: byte)
  {
    if |s'.sent| <= |s.sent| then s'.completions == s.completions
    else
      && R.HasFront(s', key)
      && var front := R.Front(s', key);
         s'.completions == s.completions + multiset{R.Completion(key, front.seqNo, front.generation)}
  }

  lemma AttemptHandsOver(cfg: R.Settings, s: R.Sender, key: byte)
    ensures HandsOver(s, R.AttemptSend(cfg, s, key), key)
  {
    hide Injected, Increment, R.NextGeneration;
  }

  lemma SendHandsOver(cfg: R.Settings, s: R.Sender, key: byte, bytes: seq<byte>)
    ensures HandsOver(s, R.Send(cfg, s, key, bytes), key)
  {
    hide R.AttemptSend;
    AttemptHandsOver(cfg, R.Queued(s, key, bytes), key);
  }

  lemma AckHandsOver(cfg: R.Settings, s: R.Sender, key: byte, seqNo: byte)
    ensures HandsOver(s, R.OnAckReceived(cfg, s, key, seqNo), key)
  {
    hide R.AttemptSend;
    if R.Accepts(s, key, seqNo) {
      AttemptHandsOver(cfg, R.Popped(s, key), key);
    }
  }

  lemma TimeoutHandsOver(cfg: R.Settings, s: R.Sender, t: R.Ticket)
    ensures HandsOver(s, R.HandleRetryTimeout(cfg, s, t), t.key)
  {
    hide R.AttemptSend;
    if R.HasFront(s, t.key) {
      AttemptHandsOver(cfg, R.TimedOut(cfg, s, t.key), t.key);
    }
  }

  // ---------------------------------------------------------------------
  // Completions
  // ---------------------------------------------------------------------

  lemma ToldIs(sender: R.Sender, c: R.Completion, success: bool)
    requires R.Inv(sender) && c in sender.completions
    ensures R.Inv(Told(sender, c, success))
    ensures Told(sender, c, success).completions == sender.completions - multiset{c}
    ensures sender.completions[c] == 1
  {
    assert R.KeyOk(sender, c.key) && R.CompletionOk(sender, c);
    hide R.Inv, R.KeyOk;
    R.ApplyKeepsInv(R.Settings(NoChecksum, 0), sender, R.DoComplete(c, success));
  }

  lemma SettleTied(l: Ledger, request: Request, success: bool)
    requires Tied(l)
    ensures Tied(Settle(l, request, success))
  {
    hide R.Inv, Told;
    if request.uid in l.live {
      var c := l.tickets[request.uid];
      ToldIs(l.sender, c, success);
      var l' := Settle(l, request, success);
      forall d | d in l'.sender.completions - multiset{}
        ensures exists u :: u in l'.live && u in l'.tickets && l'.tickets[u] == d
      {
        assert d in l.sender.completions - multiset{};
        var u :| u in l.live && u in l.tickets && l.tickets[u] == d;
        assert u in l'.live;
      }
    }
  }

  lemma {:induction false} SettleAllTied(l: Ledger, requests: seq<Request>)
    requires Tied(l)
    ensures Tied(SettleAll(l, requests))
  {
    hide Tied, Settle;
    if requests != [] {
      var n := |requests| - 1;
      SettleAllTied(l, requests[..n]);
      SettleTied(SettleAll(l, requests[..n]), requests[n], false);
    }
  }

  lemma SubmitTied(l: Ledger, ticket: Option<R.Completion>)
    requires TiedBut(l, Extra(ticket))
    ensures Tied(Submit(l, ticket))
  {
    hide R.Inv;
    match ticket
    case None =>
    case Some(c) => SubmitTicketTied(l, c);
  }

  lemma SubmitTicketTied(l: Ledger, c: R.Completion)
    requires TiedBut(l, multiset{c})
    ensures Tied(Submit(l, Some(c)))
  {
    hide R.Inv;
    ExtraOnce(l.sender, c);
    var l' := Submit(l, Some(c));
    assert c !in l.sender.completions - multiset{c};
    forall d | d in l'.sender.completions - multiset{}
      ensures exists u :: u in l'.live && u in l'.tickets && l'.tickets[u] == d
    {
      if d == c {
        assert l.submitted in l'.live && l'.tickets[l.submitted] == d;
      } else {
        assert d in l.sender.completions - multiset{c};
        var u :| u in l.live && u in l.tickets && l.tickets[u] == d;
        assert u in l'.live && l'.tickets[u] == d;
      }
    }
  }

  lemma ExtraOnce(sender: R.Sender, c: R.Completion)
    requires R.Inv(sender) && c in sender.completions
    ensures sender.completions[c] == 1
  {
    assert R.KeyOk(sender, c.key) && R.CompletionOk(sender, c);
  }

  // ---------------------------------------------------------------------
  // Handlers
  // ---------------------------------------------------------------------

  lemma ResetTied(cfg: Config, s: Controller)
    ensures StaysOpen(s, Reset(cfg, s)) && StaysOpen(s, CompleteOp(s))
  {
    hide SettleAll, Tied, R.ClearAll;
    if Tied(s.ledger) {
      SettleAllTied(s.ledger, s.queue);
    }
  }

  lemma StartReceiveTied(cfg: Config, s: Controller, throws: bool)
    ensures StaysOpen(s, StartReceive(cfg, s, throws))
  {
    hide Reset, CompleteOp, Tied;
    var s1 := s.(pendingOps := s.pendingOps + 1);
    ResetTied(cfg, s1);
    ResetTied(cfg, CompleteOp(s1));
  }

  lemma StartNextWriteTied(cfg: Config, s: Controller, fault: Fault)
    ensures StaysOpen(s, StartNextWrite(cfg, s, fault))
  {
    hide Reset, CompleteOp, SettleAll, Tied;
    var s1 := s.(writing := true, pendingOps := s.pendingOps + 1);
    ResetTied(cfg, s1);
    ResetTied(cfg, CompleteOp(s1).(writing := false));
    if Tied(s.ledger) {
      SettleAllTied(s.ledger, s.queue);
    }
  }

  lemma AsyncSendTied(cfg: Config, s: Controller, bytes: seq<byte>, ticket: Option<R.Completion>, fault: Fault)
    requires !s.shutdown.closed && TiedBut(s.ledger, Extra(ticket))
    ensures Open(AsyncSend(cfg, s, bytes, ticket, fault))
  {
    hide Reset, StartNextWrite, Settle, Submit, Tied, TiedBut;
    var ledger, request := Submit(s.ledger, ticket), Request(s.ledger.submitted, bytes);
    SubmitTied(s.ledger, ticket);
    SettleTied(ledger, request, false);
    ResetTied(cfg, s.(ledger := Settle(ledger, request, false)));
    StartNextWriteTied(
      cfg, s.(ledger := ledger, queue := s.queue + [request], trace := s.trace + [Enqueued(s.generation, bytes)]),
          fault);
  }

  lemma HandOverTied(cfg: Config, s: Controller, sender: R.Sender, key: byte, fault: Fault)
    requires Open(s) && R.Inv(sender) && HandsOver(s.ledger.sender, sender, key)
    ensures Open(HandOver(cfg, s, sender, key, fault))
  {
    hide AsyncSend, R.Inv;
    if |sender.sent| > |s.ledger.sender.sent| {
      var front := R.Front(sender, key);
      var c := R.Completion(key, front.seqNo, front.generation);
      var l := s.ledger.(sender := sender);
      assert sender.completions - multiset{c} == s.ledger.sender.completions - multiset{};
      assert TiedBut(l, Extra(Some(c)));
      AsyncSendTied(cfg, s.(ledger := l), front.bytes, Some(c), fault);
    }
  }

  lemma HandleAckTied(cfg: Config, s: Controller, a: Arrival)
    requires Open(s)
    ensures Open(HandleAck(cfg, s, a))
  {
    hide HandOver, HandsOver, R.Inv, R.OnAckReceived, R.Apply;
    if |a.pkt.payload| == 2 {
      var id, seqNo := a.pkt.payload[0], a.pkt.payload[1];
      AckHandsOver(SenderSettings(cfg), s.ledger.sender, id, seqNo);
      SenderStep(cfg, s.ledger.sender, R.DoAck(id, seqNo));
      HandOverTied(cfg, s, R.OnAckReceived(SenderSettings(cfg), s.ledger.sender, id, seqNo), id, a.fault);
    }
  }

  /** The sender's own steps keep its invariant. */
  lemma SenderStep(cfg: Config, s: R.Sender, e: R.Event)
    requires R.Inv(s) && R.Enabled(s, e)
    ensures e.DoAck? ==> R.Inv(R.OnAckReceived(SenderSettings(cfg), s, e.key, e.seqNo))
    ensures e.DoSend? ==> R.Inv(R.Send(SenderSettings(cfg), s, e.key, e.bytes))
    ensures e.DoTimeout? ==>
              R.Inv(R.HandleRetryTimeout(SenderSettings(cfg), s.(expired := s.expired - multiset{e.ticket}), e.ticket))
    ensures e.DoExpire? ==> R.Inv(R.Expired(s, e.timer))
  {
    hide R.Inv, R.OnAckReceived, R.Send, R.HandleRetryTimeout, R.Expired;
    R.ApplyKeepsInv(SenderSettings(cfg), s, e);
  }

  lemma HandlePacketTied(cfg: Config, s: Controller, a: Arrival, heardOn: nat)
    requires Open(s)
    ensures Open(HandlePacket(cfg, s, a, heardOn))
  {
    hide Tied, HandleAck, DispatchPayload, Admits, H.Echoed, WordOf;
    HandleAckTied(cfg, HandleEcho(s, a.pkt), a);
  }

  lemma {:induction false} HandleMovesTied(cfg: Config, s: Controller, moves: seq<Move>, heardOn: nat)
    requires Open(s)
    ensures Open(HandleMoves(cfg, s, moves, heardOn))
  {
    hide Tied, HandlePacket;
    if moves != [] {
      var n := |moves| - 1;
      HandleMovesTied(cfg, s, moves[..n], heardOn);
      if moves[n].Takes? {
        HandlePacketTied(cfg, HandleMoves(cfg, s, moves[..n], heardOn), moves[n].arrival, heardOn);
      }
    }
  }

  lemma HandleReceiveTied(cfg: Config, s: Controller, generation: nat, received: Received, throws: bool)
    requires Open(s)
    ensures Open(HandleReceive(cfg, s, generation, received, throws))
  {
    hide Reset, StartReceive, CompleteOp, Ingest, HandleMoves, Tied;
    ResetTied(cfg, s);
    var s1 := CompleteOp(s);
    ResetTied(cfg, s1);
    StartReceiveTied(cfg, s1, throws);
    if received.Bytes? {
      var moves := IngestMoves(cfg, s1, received.data, received.faults, generation);
      HandleMovesTied(cfg, s1, moves, generation);
      StartReceiveTied(cfg, Ingest(cfg, s1, received.data, received.faults, generation), throws);
    }
  }

  lemma HandleWriteTied(cfg: Config, s: Controller, op: Op, outcome: Outcome, fault: Fault)
    requires Open(s) && op.Writing?
    ensures Open(HandleWrite(cfg, s, op, outcome, fault))
  {
    hide Reset, StartNextWrite, Settle, CompleteOp, Tied;
    ResetTied(cfg, s);
    var s1 := CompleteOp(s);
    var rest := if s1.queue != [] && s1.queue[0] == op.request then s1.queue[1..] else s1.queue;
    SettleTied(s1.ledger, op.request, outcome.Succeeded?);
    var s2 := s1.(writing := false, queue := rest, ledger := Settle(s1.ledger, op.request, outcome.Succeeded?));
    StartNextWriteTied(cfg, s2, fault);
    ResetTied(cfg, s2);
  }

  lemma CheckConnectionTied(cfg: Config, s: Controller, opening: Opening, throws: bool)
    requires Open(s)
    ensures Open(CheckConnectionImpl(cfg, s, opening, throws))
  {
    hide Reset, StartReceive, HandshakeFrame, Tied;
    ResetTied(cfg, s);
    var s1 := Reset(cfg, s);
    var s2 := s1.(port := Present(true), connected := true, shutdown := s1.shutdown.(requested := false),
                  running := !cfg.requireHandshake);
    StartReceiveTied(cfg, s2, throws);
    StartReceiveTied(cfg, PublishReady(s2, true), throws);
  }

  lemma TiedInv(l: Ledger)
    requires Tied(l)
    ensures R.Inv(l.sender)
  {
    hide R.Inv;
  }

  lemma SendReliablyTied(cfg: Config, s: Controller, id: byte, bytes: seq<byte>, fault: Fault)
    requires Open(s)
    ensures Open(SendReliably(cfg, s, id, bytes, fault))
  {
    hide Tied, HandOver, R.Send, R.Inv, HandsOver;
    TiedInv(s.ledger);
    SendHandsOver(SenderSettings(cfg), s.ledger.sender, id, bytes);
    SenderStep(cfg, s.ledger.sender, R.DoSend(id, bytes));
    HandOverTied(cfg, s, R.Send(SenderSettings(cfg), s.ledger.sender, id, bytes), id, fault);
  }

  lemma RunTaskTied(cfg: Config, s: Controller, task: Task, choice: Choice)
    requires Open(s)
    ensures Open(RunTask(cfg, s, task, choice))
  {
    hide CheckConnectionImpl, AsyncSend, SendReliably, Reset, HandshakeFrame, HeartbeatFrame, H.Tick, TiedBut;
    ResetTied(cfg, s);
    match task
    case CheckConnection => CheckConnectionTied(cfg, s, choice.opening, choice.throws);
    case HeartbeatTimer =>
    case Transmit(bytes) => AsyncSendTied(cfg, s, bytes, None, choice.fault);
    case ReliableSend(id, bytes) => SendReliablyTied(cfg, s, id, bytes, choice.fault);
    case Destroying =>
    case Drained =>
  }

  lemma RetryTimeoutTied(cfg: Config, s: Controller, t: R.Ticket, fault: Fault)
    requires Open(s) && t in s.ledger.sender.expired
    ensures Open(RetryTimeout(cfg, s, t, fault))
  {
    hide HandOver, R.Inv, R.HandleRetryTimeout;
    var sender := s.ledger.sender.(expired := s.ledger.sender.expired - multiset{t});
    TimeoutHandsOver(SenderSettings(cfg), sender, t);
    SenderStep(cfg, s.ledger.sender, R.DoTimeout(t));
    HandOverTied(cfg, s, R.HandleRetryTimeout(SenderSettings(cfg), sender, t), t.key, fault);
  }

  lemma ExpiryTied(l: Ledger, timer: R.EntryId)
    requires Tied(l) && timer in l.sender.armed
    ensures Tied(l.(sender := R.Expired(l.sender, timer)))
  {
    hide R.Inv;
    R.ApplyKeepsInv(R.Settings(NoChecksum, 0), l.sender, R.DoExpire(timer));
  }

  lemma ApplyTied(cfg: Config, s: Controller, e: Event)
    requires Open(s) && Enabled(s, e)
    ensures e.ClosesDoor? || Open(Apply(cfg, s, e))
  {
    hide Tied, RunTask, RetryTimeout, HandleReceive, HandleWrite, R.Expired;
    match e
    case Runs(choice) => RunTaskTied(cfg, s.(tasks := s.tasks[1..]), s.tasks[0], choice);
    case Expires(timer) => ExpiryTied(s.ledger, timer);
    case Retries(t, fault) => RetryTimeoutTied(cfg, s, t, fault);
    case ReadEnds(generation, received, throws) =>
      HandleReceiveTied(cfg, s.(outstanding := s.outstanding - multiset{Reading(generation)}), generation, received,
          throws);
    case WriteEnds(op, outcome, fault) =>
      HandleWriteTied(cfg, s.(outstanding := s.outstanding - multiset{op}), op, outcome, fault);
    case Posts(_) =>
    case LosesPort =>
    case ClosesDoor =>
    case PostsDestroy =>
  }

  /** As long as the destructor has not begun. */
  ghost predicate NeverCloses(events: seq<Event>)
  {
    forall i | 0 <= i < |events| :: !events[i].ClosesDoor?
  }

  lemma {:induction false} OpenAlways(cfg: Config, events: seq<Event>)
    requires After(cfg, events).Reached? && NeverCloses(events)
    ensures Open(After(cfg, events).controller)
  {
    hide Open, Apply, Enabled;
    if events == [] {
      InitialOpen(cfg);
    } else {
      var n := |events| - 1;
      OpenAlways(cfg, events[..n]);
      ApplyTied(cfg, After(cfg, events[..n]).controller, events[n]);
    }
  }

  lemma InitialOpen(cfg: Config)
    ensures Open(Initial(cfg))
  {
    R.InitialInv();
  }

  // ---------------------------------------------------------------------
  // No lost wake-up, end to end
  // ---------------------------------------------------------------------

  /** The frame of this attempt waits in the queue, and calling its completion is still to come. */
  ghost predicate InQueue(s: Controller, c: R.Completion)
  {
    exists i | 0 <= i < |s.queue| ::
      s.queue[i].uid in s.ledger.live && s.queue[i].uid in s.ledger.tickets && s.ledger.tickets[s.queue[i].uid] == c
  }

  /** In every reachable state before the destructor, through resets, failed openings, full queues,
      blocked frames and failed writes, the front of every reliable queue is numbered, and either
      the frame of its current attempt is in the transmit queue and its completion will be called,
      or a retry timer with its sequence byte is armed or has expired. */
  lemma NeverForgotten(cfg: Config, events: seq<Event>, key: byte)
    requires After(cfg, events).Reached? && NeverCloses(events)
    requires key in After(cfg, events).controller.ledger.sender.pending
    ensures var s := After(cfg, events).controller;
            var sender := s.ledger.sender;
            && R.HasFront(sender, key)
            && var front := R.Front(sender, key);
               && front.numbered && (front.awaiting ==> !front.inProgress)
               && if front.inProgress then InQueue(s, R.Completion(key, front.seqNo, front.generation))
                  else R.Alive(sender, key, front)
  {
    OpenAlways(cfg, events);
    CoreAlways(cfg, events);
    FrontOk(After(cfg, events).controller, key);
  }

  lemma FrontOk(s: Controller, key: byte)
    requires Open(s) && Core(s) && key in s.ledger.sender.pending
    ensures var sender := s.ledger.sender;
            && R.HasFront(sender, key)
            && var front := R.Front(sender, key);
               && front.numbered && (front.awaiting ==> !front.inProgress)
               && if front.inProgress then InQueue(s, R.Completion(key, front.seqNo, front.generation))
                  else R.Alive(sender, key, front)
  {
    hide Current, Counted, Conserved;
    var sender := s.ledger.sender;
    assert R.KeyOk(sender, key);
    var front := R.Front(sender, key);
    if front.inProgress {
      var c := R.Completion(key, front.seqNo, front.generation);
      assert c in sender.completions - multiset{};
      var u :| u in s.ledger.live && u in s.ledger.tickets && s.ledger.tickets[u] == c;
      assert IsQueued(s.queue, u);
    }
  }

  /** Moreover, unless the system aborts an operation of the present connection, that queue is being
      written: an attempt that is under way ends by a write, a reset or a refusal, never by silence. */
  lemma AttemptsAreWritten(cfg: Config, events: seq<Event>, key: byte)
    requires After(cfg, events).Reached? && NeverCloses(events) && P.NeverStalls(cfg, events)
    requires var sender := After(cfg, events).controller.ledger.sender;
             R.HasFront(sender, key) && R.Front(sender, key).inProgress
    ensures var s := After(cfg, events).controller;
            s.connected && s.queue != [] && Writing(s.generation, s.queue[0]) in s.outstanding
  {
    NeverForgotten(cfg, events, key);
    P.MovesSteps(cfg, events);
    OneWriteAtATime(cfg, events);
  }
}
