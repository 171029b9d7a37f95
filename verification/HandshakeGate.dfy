/** The handshake gate and the ready topic over whole runs of the controller. */
module HandshakeGate {
  import opened Checksums
  import opened Wire
  import opened StreamParser
  import opened SerialControl
  import opened ControllerChunk
  import H = Heartbeat
  import R = ReliableSending

  // ---------------------------------------------------------------------
  // The gate
  // ---------------------------------------------------------------------

  ghost predicate AcceptedBefore(trace: seq<Observation>, i: nat, generation: nat)
    requires i <= |trace|
  {
    exists j | 0 <= j < i :: trace[j].Accepted? && trace[j].generation == generation
  }

  /** The hash was accepted on the connection whose read brought it. */
  ghost predicate HeardBefore(trace: seq<Observation>, i: nat, generation: nat)
    requires i <= |trace|
  {
    exists j | 0 <= j < i :: trace[j] == Accepted(generation, generation)
  }

  /** Before a hash has been accepted on a connection, only handshake frames are queued there and
      only handshake packets reach a topic. */
  ghost predicate GatedAt(trace: seq<Observation>, i: nat)
    requires i < |trace|
  {
    var o := trace[i];
    && (o.Enqueued? && |o.bytes| > 2 && o.bytes[2] != HANDSHAKE_ID ==> HeardBefore(trace, i, o.generation))
    && (o.Dispatched? && o.id != HANDSHAKE_ID ==> AcceptedBefore(trace, i, o.generation))
  }

  ghost predicate Gated(trace: seq<Observation>)
  {
    forall i | 0 <= i < |trace| :: GatedAt(trace, i)
  }

  ghost predicate GateOk(s: Controller)
  {
    && Gated(s.trace)
    && (s.running ==> AcceptedBefore(s.trace, |s.trace|, s.generation))
    && (s.running && s.connected ==> HeardBefore(s.trace, |s.trace|, s.generation))
  }

  /** The step shows nothing; it either stays on the connection or ends it. */
  ghost predicate Unseen(s: Controller, s': Controller)
  {
    && s'.trace == s.trace
    && (s'.running ==> s.running && s'.generation == s.generation && (s'.connected ==> s.connected))
    && (s'.connected ==> s.connected && s'.generation == s.generation)
  }

  lemma ResetUnseen(cfg: Config, s: Controller)
    requires cfg.requireHandshake
    ensures Unseen(s, Reset(cfg, s)) && Unseen(s, CompleteOp(s))
    ensures !Reset(cfg, s).connected && !Reset(cfg, s).running
    ensures CompleteOp(s).connected == s.connected && CompleteOp(s).generation == s.generation
  {
    hide SettleAll;
  }

  lemma StartReceiveUnseen(cfg: Config, s: Controller, throws: bool)
    requires cfg.requireHandshake
    ensures Unseen(s, StartReceive(cfg, s, throws))
  {
    hide Reset, CompleteOp;
    var s1 := s.(pendingOps := s.pendingOps + 1);
    ResetUnseen(cfg, s1);
    ResetUnseen(cfg, CompleteOp(s1));
  }

  lemma StartNextWriteUnseen(cfg: Config, s: Controller, fault: Fault)
    requires cfg.requireHandshake
    ensures Unseen(s, StartNextWrite(cfg, s, fault))
  {
    hide Reset, CompleteOp, SettleAll;
    var s1 := s.(writing := true, pendingOps := s.pendingOps + 1);
    ResetUnseen(cfg, s1);
    ResetUnseen(cfg, CompleteOp(s1).(writing := false));
  }

  lemma HandleWriteUnseen(cfg: Config, s: Controller, op: Op, outcome: Outcome, fault: Fault)
    requires cfg.requireHandshake && op.Writing?
    ensures Unseen(s, HandleWrite(cfg, s, op, outcome, fault))
  {
    hide Reset, StartNextWrite, Settle, CompleteOp;
    ResetUnseen(cfg, s);
    var s1 := CompleteOp(s);
    var rest := if s1.queue != [] && s1.queue[0] == op.request then s1.queue[1..] else s1.queue;
    var s2 := s1.(writing := false, queue := rest, ledger := Settle(s1.ledger, op.request, outcome.Succeeded?));
    StartNextWriteUnseen(cfg, s2, fault);
    ResetUnseen(cfg, s2);
  }

  lemma UnseenKeeps(s: Controller, s': Controller)
    requires GateOk(s) && Unseen(s, s')
    ensures GateOk(s')
  {
  }

  /** One more observation keeps a trace gated when it passes the gate itself. */
  lemma GatedSnoc(trace: seq<Observation>, o: Observation)
    requires Gated(trace)
    requires o.Enqueued? && |o.bytes| > 2 && o.bytes[2] != HANDSHAKE_ID ==> HeardBefore(trace, |trace|, o.generation)
    requires o.Dispatched? && o.id != HANDSHAKE_ID ==> AcceptedBefore(trace, |trace|, o.generation)
    ensures Gated(trace + [o])
    ensures forall g :: AcceptedBefore(trace, |trace|, g) ==> AcceptedBefore(trace + [o], |trace| + 1, g)
    ensures forall g :: HeardBefore(trace, |trace|, g) ==> HeardBefore(trace + [o], |trace| + 1, g)
  {
    var trace' := trace + [o];
    forall i: nat, g | i <= |trace|
      ensures AcceptedBefore(trace, i, g) ==> AcceptedBefore(trace', i, g)
      ensures HeardBefore(trace, i, g) ==> HeardBefore(trace', i, g)
    {
      assert forall j | 0 <= j < i :: trace'[j] == trace[j];
    }
    forall i | 0 <= i < |trace'|
      ensures GatedAt(trace', i)
    {
      assert i < |trace| ==> GatedAt(trace, i) && trace'[i] == trace[i];
    }
  }

  lemma AsyncSendGated(cfg: Config, s: Controller, bytes: seq<byte>, ticket: Option<R.Completion>, fault: Fault)
    requires cfg.requireHandshake && GateOk(s)
    ensures var s' := AsyncSend(cfg, s, bytes, ticket, fault);
            GateOk(s') && (s'.connected ==> s.connected && s'.generation == s.generation)
  {
    hide Reset, StartNextWrite, Settle, Submit, Gated, AcceptedBefore, HeardBefore;
    var ledger, request := Submit(s.ledger, ticket), Request(s.ledger.submitted, bytes);
    var rejected := s.(ledger := Settle(ledger, request, false));
    ResetUnseen(cfg, rejected);
    if Usable(s) && !Blocked(cfg, s, bytes) {
      var queued := s.(ledger := ledger, queue := s.queue + [request],
                       trace := s.trace + [Enqueued(s.generation, bytes)]);
      GatedSnoc(s.trace, Enqueued(s.generation, bytes));
      StartNextWriteUnseen(cfg, queued, fault);
    }
  }

  lemma ProcessHandshakeGated(cfg: Config, s: Controller, payload: seq<byte>, heardOn: nat)
    requires GateOk(s) && (s.connected ==> s.generation == heardOn)
    ensures GateOk(ProcessHandshake(cfg, s, payload, heardOn))
  {
    hide Gated, Admits;
    if Admits(cfg, payload) {
      var o := Accepted(s.generation, heardOn);
      GatedSnoc(s.trace, o);
      assert (s.trace + [o])[|s.trace|] == o;
    }
  }

  lemma DispatchGated(cfg: Config, s: Controller, pkt: Packet)
    requires GateOk(s) && (s.running || pkt.id == HANDSHAKE_ID)
    ensures GateOk(Dispatch(cfg, s, pkt))
  {
    hide Gated, DispatchPayload, AcceptedBefore, HeardBefore;
    GatedSnoc(s.trace, Dispatched(s.generation, pkt.id, DispatchPayload(cfg, pkt)));
  }

  /** Inside a chunk the connection may end but not change. */
  ghost predicate StillOn(s: Controller, heardOn: nat)
  {
    s.connected ==> s.generation == heardOn
  }

  lemma HandOverGated(cfg: Config, s: Controller, sender: R.Sender, key: byte, fault: Fault)
    requires cfg.requireHandshake && GateOk(s)
    ensures var s' := HandOver(cfg, s, sender, key, fault);
            GateOk(s') && (s'.connected ==> s.connected && s'.generation == s.generation)
  {
    hide AsyncSend, Gated, AcceptedBefore, HeardBefore;
    if R.HasFront(sender, key) {
      var front := R.Front(sender, key);
      AsyncSendGated(
        cfg, s.(ledger := s.ledger.(sender := sender)), front.bytes,
        Some(R.Completion(key, front.seqNo, front.generation)), fault);
    }
  }

  lemma HandlePacketGated(cfg: Config, s: Controller, a: Arrival, heardOn: nat)
    requires cfg.requireHandshake && GateOk(s) && StillOn(s, heardOn)
    ensures GateOk(HandlePacket(cfg, s, a, heardOn)) && StillOn(HandlePacket(cfg, s, a, heardOn), heardOn)
  {
    hide HandOver, Admits, DispatchPayload, H.Echoed, WordOf, Gated, AcceptedBefore, HeardBefore, R.OnAckReceived;
    var s0 := HandleEcho(s, a.pkt);
    if |a.pkt.payload| == 2 {
      var id, seqNo := a.pkt.payload[0], a.pkt.payload[1];
      HandOverGated(cfg, s0, R.OnAckReceived(SenderSettings(cfg), s.ledger.sender, id, seqNo), id, a.fault);
    }
    DeliverGated(cfg, HandleAck(cfg, s0, a), a, heardOn);
  }

  lemma DeliverGated(cfg: Config, s: Controller, a: Arrival, heardOn: nat)
    requires cfg.requireHandshake && GateOk(s) && StillOn(s, heardOn)
    ensures a.pkt.id == HANDSHAKE_ID ==>
              var s' := Dispatch(cfg, if s.running then s else ProcessHandshake(cfg, s, a.pkt.payload, heardOn), a.pkt);
              GateOk(s') && StillOn(s', heardOn)
    ensures s.running ==> GateOk(Dispatch(cfg, s, a.pkt)) && StillOn(Dispatch(cfg, s, a.pkt), heardOn)
  {
    hide GateOk, DispatchPayload, Admits;
    ProcessHandshakeGated(cfg, s, a.pkt.payload, heardOn);
    if a.pkt.id == HANDSHAKE_ID {
      DispatchGated(cfg, if s.running then s else ProcessHandshake(cfg, s, a.pkt.payload, heardOn), a.pkt);
    }
    if s.running {
      DispatchGated(cfg, s, a.pkt);
    }
  }

  lemma {:induction false} HandleMovesGated(cfg: Config, s: Controller, moves: seq<Move>, heardOn: nat)
    requires cfg.requireHandshake && GateOk(s) && StillOn(s, heardOn)
    ensures GateOk(HandleMoves(cfg, s, moves, heardOn)) && StillOn(HandleMoves(cfg, s, moves, heardOn), heardOn)
  {
    hide Gated, AcceptedBefore, HeardBefore, HandlePacket;
    if moves != [] {
      var n := |moves| - 1;
      HandleMovesGated(cfg, s, moves[..n], heardOn);
      if moves[n].Takes? {
        HandlePacketGated(cfg, HandleMoves(cfg, s, moves[..n], heardOn), moves[n].arrival, heardOn);
      }
    }
  }

  lemma HandleReceiveGated(cfg: Config, s: Controller, generation: nat, received: Received, throws: bool)
    requires cfg.requireHandshake && GateOk(s)
    ensures GateOk(HandleReceive(cfg, s, generation, received, throws))
  {
    hide GateOk, Unseen, Reset, StartReceive, CompleteOp, Ingest, HandleMoves;
    ResetUnseen(cfg, s);
    var s1 := CompleteOp(s);
    UnseenKeeps(s, s1);
    ResetUnseen(cfg, s1);
    UnseenKeeps(s1, Reset(cfg, s1));
    StartReceiveUnseen(cfg, s1, throws);
    UnseenKeeps(s1, StartReceive(cfg, s1, throws));
    if received.Bytes? && generation == s1.generation {
      var s2 := Ingest(cfg, s1, received.data, received.faults, generation);
      var moves := IngestMoves(cfg, s1, received.data, received.faults, generation);
      HandleMovesGated(cfg, s1, moves, generation);
      StartReceiveUnseen(cfg, s2, throws);
      UnseenKeeps(s2, StartReceive(cfg, s2, throws));
    }
  }

  lemma CheckConnectionGated(cfg: Config, s: Controller, opening: Opening, throws: bool)
    requires cfg.requireHandshake && GateOk(s)
    ensures GateOk(CheckConnectionImpl(cfg, s, opening, throws))
  {
    hide Reset, StartReceive, HandshakeFrame, Gated, AcceptedBefore, HeardBefore;
    ResetUnseen(cfg, s);
    var s1 := Reset(cfg, s);
    var s2 := s1.(port := Present(true), connected := true, shutdown := s1.shutdown.(requested := false),
                  running := !cfg.requireHandshake);
    StartReceiveUnseen(cfg, s2, throws);
  }

  lemma RunTaskGated(cfg: Config, s: Controller, task: Task, choice: Choice)
    requires cfg.requireHandshake && GateOk(s)
    ensures GateOk(RunTask(cfg, s, task, choice))
  {
    hide CheckConnectionImpl, AsyncSend, HandOver, R.Send, Reset, HandshakeFrame, HeartbeatFrame, H.Tick, Gated,
        AcceptedBefore, HeardBefore;
    match task
    case CheckConnection => CheckConnectionGated(cfg, s, choice.opening, choice.throws);
    case HeartbeatTimer => ResetUnseen(cfg, s);
    case Transmit(bytes) => AsyncSendGated(cfg, s, bytes, None, choice.fault);
    case ReliableSend(id, bytes) =>
      HandOverGated(cfg, s, R.Send(SenderSettings(cfg), s.ledger.sender, id, bytes), id, choice.fault);
    case Destroying => ResetUnseen(cfg, s);
    case Drained =>
  }

  lemma ApplyGated(cfg: Config, s: Controller, e: Event)
    requires cfg.requireHandshake && GateOk(s) && Enabled(s, e)
    ensures GateOk(Apply(cfg, s, e))
  {
    hide RunTask, HandOver, R.HandleRetryTimeout, R.Expired, HandleReceive, HandleWrite, Gated, AcceptedBefore,
        HeardBefore;
    match e
    case Runs(choice) => RunTaskGated(cfg, s.(tasks := s.tasks[1..]), s.tasks[0], choice);
    case Expires(_) =>
    case Retries(t, fault) =>
      var sender := s.ledger.sender.(expired := s.ledger.sender.expired - multiset{t});
      HandOverGated(cfg, s, R.HandleRetryTimeout(SenderSettings(cfg), sender, t), t.key, fault);
    case ReadEnds(generation, received, throws) =>
      HandleReceiveGated(cfg, s.(outstanding := s.outstanding - multiset{Reading(generation)}), generation, received,
          throws);
    case WriteEnds(op, outcome, fault) =>
      HandleWriteUnseen(cfg, s.(outstanding := s.outstanding - multiset{op}), op, outcome, fault);
    case Posts(_) =>
    case LosesPort =>
    case ClosesDoor =>
    case PostsDestroy =>
  }

  /** With the handshake required, on every connection no frame but a handshake is queued and no
      packet but a handshake reaches a topic before a hash has been accepted on that connection;
      for the frames, one that a read of that very connection brought. */
  lemma {:induction false} GateHolds(cfg: Config, events: seq<Event>)
    requires cfg.requireHandshake && After(cfg, events).Reached?
    ensures GateOk(After(cfg, events).controller)
    ensures Gated(After(cfg, events).controller.trace)
  {
    hide Apply, Enabled;
    if events != [] {
      var n := |events| - 1;
      GateHolds(cfg, events[..n]);
      ApplyGated(cfg, After(cfg, events[..n]).controller, events[n]);
    }
  }
}
