/** Why the condition on sequence bytes is exact: along any history of assignments in which two
    consecutive messages of one ID share a sequence byte, some run loses a message. */
module Collision {
  import opened Checksums
  import opened Wire
  import opened Transport
  import opened Delivery
  import R = ReliableSending

  ghost predicate Reaches(su: Setup, start: Link, l: Link)
    requires ValidSetup(su)
  {
    exists events :: After(su, start, events) == Reached(l)
  }

  lemma ReachesNext(su: Setup, start: Link, l: Link, e: Event)
    requires ValidSetup(su) && Reaches(su, start, l) && Enabled(su, l, e)
    ensures Reaches(su, start, Apply(su, l, e))
  {
    hide Apply, Enabled;
    var events :| After(su, start, events) == Reached(l);
    assert (events + [e])[..|events|] == events;
    assert After(su, start, events + [e]) == Reached(Apply(su, l, e));
  }

  // ---------------------------------------------------------------------
  // States at rest
  // ---------------------------------------------------------------------

  /** The only message of `id` waits for an acknowledgement, with its timer armed. */
  ghost predicate Parked(s: R.Sender, id: byte)
  {
    && id in s.pending && |s.pending[id]| == 1
    && Waiting(s, id)
  }

  ghost predicate Waiting(s: R.Sender, id: byte)
  {
    Ticking(s, id) && R.Front(s, id).awaiting
  }

  /** The front of `id` is not being written and its timer is armed. */
  ghost predicate Ticking(s: R.Sender, id: byte)
  {
    && R.HasFront(s, id)
    && var front := R.Front(s, id);
       && front.numbered && !front.inProgress
       && R.EntryId(id, front.uid) in s.armed
       && s.armed[R.EntryId(id, front.uid)] == R.Ticket(id, front.seqNo)
  }

  /** The front of `id` is being written. */
  ghost predicate Writing(s: R.Sender, id: byte)
  {
    && R.HasFront(s, id)
    && var front := R.Front(s, id);
       && front.numbered && front.inProgress
       && R.Completion(id, front.seqNo, front.generation) in s.completions
  }

  /** Nothing is on the way; the only queues are those of the parked IDs. */
  ghost predicate Settled(su: Setup, l: Link, parked: set<byte>)
    requires ValidSetup(su)
  {
    && LinkInv(su, l)
    && l.data == [] && l.acks == []
    && l.sender.pending.Keys == parked
    && forall k | k in parked :: Parked(l.sender, k)
  }

  // ---------------------------------------------------------------------
  // The sender's part of each event
  // ---------------------------------------------------------------------

  lemma Sending(cfg: R.Settings, s: R.Sender, id: byte, bytes: seq<byte>)
    requires id !in s.pending
    ensures var s' := R.Send(cfg, s, id, bytes);
            && Writing(s', id) && |s'.pending[id]| == 1
            && s'.order == s.order + [id] && |s'.sent| == |s.sent| + 1
            && s'.pending.Keys == s.pending.Keys + {id}
  {
    hide Injected, Increment, R.NextGeneration;
  }

  lemma QueueingBehind(cfg: R.Settings, s: R.Sender, id: byte, bytes: seq<byte>)
    requires Parked(s, id)
    ensures var s' := R.Send(cfg, s, id, bytes);
            && Waiting(s', id) && |s'.pending[id]| == 2 && R.Front(s', id) == R.Front(s, id)
            && s'.order == s.order && s'.sent == s.sent
            && s'.pending.Keys == s.pending.Keys
  {
    hide Injected, Increment, R.NextGeneration;
  }

  ghost function Completed(s: R.Sender, id: byte): R.Event
    requires R.HasFront(s, id)
  {
    R.DoComplete(R.Completion(id, R.Front(s, id).seqNo, R.Front(s, id).generation), true)
  }

  lemma Completing(cfg: R.Settings, s: R.Sender, id: byte)
    requires Writing(s, id)
    ensures R.Enabled(s, Completed(s, id))
    ensures var s' := R.Apply(cfg, s, Completed(s, id));
            && Waiting(s', id) && |s'.pending[id]| == |s.pending[id]|
            && R.Front(s', id).seqNo == R.Front(s, id).seqNo
            && s'.order == s.order && s'.sent == s.sent
            && s'.pending.Keys == s.pending.Keys
  {
  }

  ghost function TimerOf(s: R.Sender, id: byte): R.Event
    requires R.HasFront(s, id)
  {
    R.DoExpire(R.EntryId(id, R.Front(s, id).uid))
  }

  ghost function HandlerOf(s: R.Sender, id: byte): R.Event
    requires R.HasFront(s, id)
  {
    R.DoTimeout(R.Ticket(id, R.Front(s, id).seqNo))
  }

  lemma Expiring(cfg: R.Settings, s: R.Sender, id: byte)
    requires Ticking(s, id)
    ensures R.Enabled(s, TimerOf(s, id))
    ensures var s' := R.Apply(cfg, s, TimerOf(s, id));
            && s'.pending == s.pending && s'.order == s.order && s'.sent == s.sent
            && R.Enabled(s', HandlerOf(s, id))
  {
  }

  lemma Resending(cfg: R.Settings, s: R.Sender, id: byte)
    requires R.HasFront(s, id) && R.Front(s, id).numbered && !R.Front(s, id).inProgress
    requires R.Enabled(s, HandlerOf(s, id))
    ensures var s' := R.Apply(cfg, s, HandlerOf(s, id));
            && Writing(s', id) && |s'.pending[id]| == |s.pending[id]|
            && R.Front(s', id).seqNo == R.Front(s, id).seqNo
            && s'.order == s.order && |s'.sent| == |s.sent| + 1
            && s'.pending.Keys == s.pending.Keys
  {
    hide Injected, Increment, R.NextGeneration;
  }

  lemma LastAcked(cfg: R.Settings, s: R.Sender, id: byte)
    requires Parked(s, id)
    ensures R.Accepts(s, id, R.Front(s, id).seqNo)
    ensures var s' := R.OnAckReceived(cfg, s, id, R.Front(s, id).seqNo);
            && s'.order == s.order && s'.sent == s.sent
            && s'.pending.Keys == s.pending.Keys - {id}
  {
  }

  lemma NextAcked(cfg: R.Settings, s: R.Sender, id: byte)
    requires R.Inv(s) && Waiting(s, id) && |s.pending[id]| > 1
    ensures R.Accepts(s, id, R.Front(s, id).seqNo)
    ensures var s' := R.OnAckReceived(cfg, s, id, R.Front(s, id).seqNo);
            && Writing(s', id) && |s'.pending[id]| == |s.pending[id]| - 1 && s'.pending.Keys == s.pending.Keys
            && s'.order == s.order + [id] && |s'.sent| == |s.sent| + 1
            && R.Front(s', id).seqNo == s.counter
  {
    assert R.KeyOk(s, id);
    hide Injected, Increment, R.NextGeneration;
  }

  // ---------------------------------------------------------------------
  // The link's part of each event
  // ---------------------------------------------------------------------

  /** A reachable state that meets the invariant. */
  ghost predicate Sound(su: Setup, start: Link, l: Link)
    requires ValidSetup(su)
  {
    Reaches(su, start, l) && LinkInv(su, l)
  }

  ghost predicate Elsewhere(l: Link, l': Link, id: byte)
  {
    forall k: byte | k != id :: R.SameFor(l.sender, l'.sender, k)
  }

  lemma ElsewhereTwice(l: Link, l': Link, l'': Link, id: byte)
    requires Elsewhere(l, l', id) && Elsewhere(l', l'', id)
    ensures Elsewhere(l, l'', id)
  {
    hide R.SameFor;
    forall k: byte | k != id
      ensures R.SameFor(l.sender, l''.sender, k)
    {
      R.SameTwice(l.sender, l'.sender, l''.sender, k);
    }
  }

  ghost function Blank(p: Protocol, id: byte): seq<byte>
    requires Valid(p) && id in p.sizes
  {
    seq(StructSize(p, id), _ => 0 as byte)
  }

  lemma ElsewhereBy(su: Setup, l: Link, l': Link, e: R.Event)
    requires ValidSetup(su) && LinkInv(su, l) && R.Enabled(l.sender, e)
    requires l'.sender == R.Apply(Cfg(su), l.sender, e)
    ensures Elsewhere(l, l', R.KeyOf(e))
  {
    hide IdOk, DataOk, AckOk, R.Inv, R.Apply, R.Enabled, R.SameFor;
    forall k: byte | k != R.KeyOf(e)
      ensures R.SameFor(l.sender, l'.sender, k)
    {
      R.OtherKeysUntouched(Cfg(su), l.sender, e, k);
    }
  }

  /** A message handed over while its queue is empty goes out at once. */
  lemma SubmitFresh(su: Setup, start: Link, l: Link, id: byte) returns (l': Link)
    requires ValidSetup(su) && Sound(su, start, l)
    requires id in su.firmware.protocol.reliable && id !in l.sender.pending
    ensures Sound(su, start, l') && Elsewhere(l, l', id) && Writing(l'.sender, id)
    ensures |l'.sender.pending[id]| == 1 && l'.sender.pending.Keys == l.sender.pending.Keys + {id}
    ensures l'.sender.order == l.sender.order + [id] && l'.acks == l.acks && l'.calls == l.calls
    ensures l'.popped == l.popped && |l'.data| == |l.data| + 1 && l'.data[..|l.data|] == l.data
    ensures l'.data[|l.data|].id == id && l'.data[|l.data|].index == PoppedCount(l, id)
  {
    hide LinkInv, FrameOf, R.Send;
    var data := Blank(su.firmware.protocol, id);
    var bytes := FrameOf(su.firmware.protocol, id, data);
    l' := Submit(su, l, id, data);
    ReachesNext(su, start, l, DoSubmit(id, data));
    SubmitKeeps(su, l, id, data);
    Sending(Cfg(su), l.sender, id, bytes);
    ElsewhereBy(su, l, l', R.DoSend(id, bytes));
  }

  /** A message handed over behind a parked one is only queued. */
  lemma SubmitBehind(su: Setup, start: Link, l: Link, id: byte) returns (l': Link)
    requires ValidSetup(su) && Sound(su, start, l)
    requires id in su.firmware.protocol.reliable && Parked(l.sender, id)
    ensures Sound(su, start, l') && Waiting(l'.sender, id) && |l'.sender.pending[id]| == 2
    ensures l'.sender.order == l.sender.order && l'.data == l.data && l'.acks == l.acks
    ensures l'.popped == l.popped && l'.calls == l.calls
  {
    hide LinkInv, FrameOf, R.Send;
    var data := Blank(su.firmware.protocol, id);
    l' := Submit(su, l, id, data);
    ReachesNext(su, start, l, DoSubmit(id, data));
    SubmitKeeps(su, l, id, data);
    QueueingBehind(Cfg(su), l.sender, id, FrameOf(su.firmware.protocol, id, data));
  }

  lemma LocalSound(su: Setup, start: Link, l: Link, e: R.Event)
    requires ValidSetup(su) && Sound(su, start, l)
    requires R.Enabled(l.sender, e) && !e.DoSend? && !e.DoAck?
    ensures var l' := WithSender(l, R.Apply(Cfg(su), l.sender, e), R.KeyOf(e));
            Sound(su, start, l') && Elsewhere(l, l', R.KeyOf(e))
  {
    hide LinkInv, R.Apply, R.Enabled;
    ReachesNext(su, start, l, DoLocal(e));
    LocalKeeps(su, l, e);
    ElsewhereBy(su, l, WithSender(l, R.Apply(Cfg(su), l.sender, e), R.KeyOf(e)), e);
  }

  lemma Complete(su: Setup, start: Link, l: Link, id: byte) returns (l': Link)
    requires ValidSetup(su) && Sound(su, start, l) && Writing(l.sender, id)
    ensures Sound(su, start, l') && Elsewhere(l, l', id) && Waiting(l'.sender, id)
    ensures |l'.sender.pending[id]| == |l.sender.pending[id]| && l'.sender.pending.Keys == l.sender.pending.Keys
    ensures R.Front(l'.sender, id).seqNo == R.Front(l.sender, id).seqNo
    ensures l' == l.(sender := l'.sender) && l'.sender.order == l.sender.order
  {
    hide Sound, R.Apply, Elsewhere;
    var e := Completed(l.sender, id);
    Completing(Cfg(su), l.sender, id);
    l' := WithSender(l, R.Apply(Cfg(su), l.sender, e), id);
    LocalSound(su, start, l, e);
  }

  /** The timer fires and the front is sent once more. */
  lemma Resend(su: Setup, start: Link, l: Link, id: byte) returns (l': Link)
    requires ValidSetup(su) && Sound(su, start, l) && Waiting(l.sender, id)
    ensures Sound(su, start, l') && Waiting(l'.sender, id)
    ensures |l'.sender.pending[id]| == |l.sender.pending[id]|
    ensures l'.sender.order == l.sender.order && l'.acks == l.acks && l'.calls == l.calls && l'.popped == l.popped
    ensures |l'.data| == |l.data| + 1 && l'.data[..|l.data|] == l.data
    ensures l'.data[|l.data|].id == id && l'.data[|l.data|].index == PoppedCount(l, id)
    ensures l'.submitted == l.submitted && l'.sender.pending.Keys == l.sender.pending.Keys && Elsewhere(l, l', id)
  {
    hide Sound, R.Apply, Elsewhere;
    var fire, handle := TimerOf(l.sender, id), HandlerOf(l.sender, id);
    Expiring(Cfg(su), l.sender, id);
    var l1 := WithSender(l, R.Apply(Cfg(su), l.sender, fire), id);
    LocalSound(su, start, l, fire);
    assert HandlerOf(l1.sender, id) == handle;
    Resending(Cfg(su), l1.sender, id);
    var l2 := WithSender(l1, R.Apply(Cfg(su), l1.sender, handle), id);
    LocalSound(su, start, l1, handle);
    l' := Complete(su, start, l2, id);
    ElsewhereTwice(l, l1, l2, id);
    ElsewhereTwice(l, l2, l', id);
  }

  lemma LoseFirst(su: Setup, start: Link, l: Link) returns (l': Link)
    requires ValidSetup(su) && Sound(su, start, l) && l.data != []
    ensures Sound(su, start, l') && l' == l.(data := l.data[1..])
  {
    hide LinkInv;
    ReachesNext(su, start, l, DoLoseData(0));
    LosingKeeps(su, l, DoLoseData(0));
    l' := Apply(su, l, DoLoseData(0));
  }

  /** The microcontroller takes the first frame: one callback, one acknowledgement. */
  lemma Deliver(su: Setup, start: Link, l: Link) returns (l': Link)
    requires ValidSetup(su) && Sound(su, start, l) && l.data != []
    ensures Sound(su, start, l') && l'.sender == l.sender && l'.data == l.data[1..]
    ensures l'.popped == l.popped
    ensures |l'.acks| == |l.acks| + 1 && l'.acks[..|l.acks|] == l.acks
    ensures l'.acks[|l.acks|].id == l.data[0].id && l'.acks[|l.acks|].index == l.data[0].index
    ensures Reach(Calls(l', l.data[0].id)) == l.data[0].index + 1
    ensures l'.submitted == l.submitted
  {
    hide DataOk, IdOk, AckOk, Sorted, R.Inv, DeliverData;
    l' := DeliverData(su, l);
    assert DataOk(su.firmware.protocol, l, l.data[0]);
    DataIndex(su, l, l.data[0]);
    DeliverDataIs(su, l);
    ReachesNext(su, start, l, DoDeliverData);
    DeliverDataKeeps(su, l);
  }

  lemma DataIndex(su: Setup, l: Link, d: Datagram)
    requires ValidSetup(su) && DataOk(su.firmware.protocol, l, d)
    ensures d.index < |Occurrences(l.sender.order, d.id)| && d.index < |Submitted(l, d.id)|
  {
  }

  lemma FrontSeq(su: Setup, l: Link, id: byte)
    requires ValidSetup(su) && LinkInv(su, l) && R.HasFront(l.sender, id) && R.Front(l.sender, id).numbered
    ensures PoppedCount(l, id) + 1 == |Occurrences(l.sender.order, id)|
    ensures R.Front(l.sender, id).seqNo == SeqOf(l.sender.order, id, PoppedCount(l, id))
  {
    hide FrameOf;
    var p := su.firmware.protocol;
    assert IdOk(p, l, id);
    assert CarriesEntry(p, l.sender, id, PoppedCount(l, id), Submitted(l, id), 0);
  }

  /** The first acknowledgement in the channel is the one the front of its ID waits for. */
  ghost predicate AckFor(l: Link, id: byte)
  {
    l.acks != [] && l.acks[0].id == id && l.acks[0].index == PoppedCount(l, id)
  }

  lemma DeliverFirstAck(su: Setup, start: Link, l: Link, id: byte, seqNo: byte) returns (l': Link)
    requires ValidSetup(su) && Sound(su, start, l)
    requires l.acks != [] && l.acks[0].id == id
    requires l.acks[0].index < |Occurrences(l.sender.order, id)| && SeqOf(l.sender.order, id, l.acks[0].index) == seqNo
    requires R.Accepts(l.sender, id, seqNo)
    ensures Reaches(su, start, l') && (l.acks[0].index == PoppedCount(l, id) ==> LinkInv(su, l'))
    ensures l'.submitted == l.submitted
    ensures l' == OnAck(su, l.(acks := l.acks[1..]), id, seqNo)
    ensures l'.sender == R.OnAckReceived(Cfg(su), l.sender, id, seqNo)
    ensures l'.acks == l.acks[1..] && l'.calls == l.calls
    ensures l'.data == l.data + NewFrames(l.sender, l'.sender, id, PoppedCount(l, id) + 1)
    ensures PoppedCount(l', id) == PoppedCount(l, id) + 1
  {
    hide IdOk, DataOk, Sorted, R.Inv, R.Accepts, R.OnAckReceived, DeliverAck, NewFrames;
    assert AckOk(su.firmware.protocol, l, l.acks[0]);
    DeliverAckIsOnAck(su, l);
    ReachesNext(su, start, l, DoDeliverAck);
    l' := DeliverAck(su, l);
    if l.acks[0].index == PoppedCount(l, id) {
      AckKeeps(su, l);
    }
  }

  lemma AckLast(su: Setup, start: Link, l: Link, id: byte) returns (l': Link)
    requires ValidSetup(su) && Sound(su, start, l)
    requires AckFor(l, id) && Parked(l.sender, id)
    ensures Sound(su, start, l') && Elsewhere(l, l', id)
    ensures l'.sender.pending.Keys == l.sender.pending.Keys - {id}
    ensures l'.sender.order == l.sender.order && l'.acks == l.acks[1..] && l'.data == l.data
    ensures l'.submitted == l.submitted
  {
    hide LinkInv, Reaches, NoCollision, R.OnAckReceived, OnAck;
    FrontSeq(su, l, id);
    var seqNo := R.Front(l.sender, id).seqNo;
    LastAcked(Cfg(su), l.sender, id);
    l' := DeliverFirstAck(su, start, l, id, seqNo);
    ElsewhereBy(su, l, l', R.DoAck(id, seqNo));
  }

  /** The first of two queued messages is acknowledged and the second goes out. */
  lemma AckNext(su: Setup, start: Link, l: Link, id: byte) returns (l': Link)
    requires ValidSetup(su) && Sound(su, start, l)
    requires AckFor(l, id) && Waiting(l.sender, id) && |l.sender.pending[id]| > 1
    ensures Sound(su, start, l') && Writing(l'.sender, id) && |l'.sender.pending[id]| == |l.sender.pending[id]| - 1
    ensures l'.sender.pending.Keys == l.sender.pending.Keys && Elsewhere(l, l', id)
    ensures R.Front(l'.sender, id).seqNo == |l.sender.order| % 256 && l'.submitted == l.submitted
    ensures l'.sender.order == l.sender.order + [id] && l'.acks == l.acks[1..] && l'.calls == l.calls
    ensures |l'.data| == |l.data| + 1 && PoppedCount(l', id) == PoppedCount(l, id) + 1
  {
    hide LinkInv, Reaches, NoCollision, R.OnAckReceived, OnAck, R.Inv;
    FrontSeq(su, l, id);
    LinkCarries(su, l, id);
    NextAcked(Cfg(su), l.sender, id);
    l' := DeliverFirstAck(su, start, l, id, R.Front(l.sender, id).seqNo);
    ElsewhereBy(su, l, l', R.DoAck(id, R.Front(l.sender, id).seqNo));
  }

  // ---------------------------------------------------------------------
  // Building a history
  // ---------------------------------------------------------------------

  lemma ParkedStay(l: Link, l': Link, id: byte, parked: set<byte>)
    requires Elsewhere(l, l', id) && id !in parked
    requires forall k | k in parked :: Parked(l.sender, k)
    ensures forall k | k in parked :: Parked(l'.sender, k)
  {
    forall k | k in parked
      ensures Parked(l'.sender, k)
    {
      assert R.SameFor(l.sender, l'.sender, k);
      assert Parked(l.sender, k);
    }
  }

  /** One message of `id` is submitted, written, delivered and acknowledged. */
  lemma Round(su: Setup, start: Link, l: Link, id: byte, parked: set<byte>) returns (l': Link)
    requires ValidSetup(su) && Reaches(su, start, l) && Settled(su, l, parked)
    requires id in su.firmware.protocol.reliable && id !in parked && NoCollision(l.sender.order + [id])
    ensures Reaches(su, start, l') && Settled(su, l', parked) && l'.sender.order == l.sender.order + [id]
  {
    hide LinkInv, Reaches, NoCollision, Parked, Writing, Elsewhere;
    var l1 := SubmitFresh(su, start, l, id);
    var l2 := Complete(su, start, l1, id);
    var l3 := Deliver(su, start, l2);
    ElsewhereTwice(l, l1, l2, id);
    ParkedIs(l2.sender, id);
    l' := AckLast(su, start, l3, id);
    SameSenderElsewhere(l2, l3, l', id);
    ElsewhereTwice(l, l2, l', id);
    ParkedStay(l, l', id, parked);
  }

  lemma SameSenderElsewhere(l: Link, l1: Link, l2: Link, id: byte)
    requires l.sender == l1.sender && Elsewhere(l1, l2, id)
    ensures Elsewhere(l, l2, id)
  {
  }

  lemma ParkedIs(s: R.Sender, id: byte)
    requires Waiting(s, id) && |s.pending[id]| == 1
    ensures Parked(s, id)
  {
  }

  /** A message of `id` is submitted and its frame lost: the ID stays parked. */
  lemma Park(su: Setup, start: Link, l: Link, id: byte) returns (l': Link)
    requires ValidSetup(su) && Reaches(su, start, l) && Settled(su, l, {})
    requires id in su.firmware.protocol.reliable
    ensures Reaches(su, start, l') && Settled(su, l', {id}) && l'.sender.order == l.sender.order + [id]
  {
    hide LinkInv, Reaches, Parked, Writing, Elsewhere;
    var l1 := SubmitFresh(su, start, l, id);
    var l2 := LoseFirst(su, start, l1);
    l' := Complete(su, start, l2, id);
    ParkedIs(l'.sender, id);
  }

  /** The messages of `more` go through one after the other, past the parked IDs. */
  lemma {:induction false} Rounds(su: Setup, start: Link, l: Link, more: seq<byte>, parked: set<byte>)
      returns (l': Link)
    requires ValidSetup(su) && Reaches(su, start, l) && Settled(su, l, parked)
    requires forall k | k in more :: k in su.firmware.protocol.reliable && k !in parked
    requires NoCollision(l.sender.order + more)
    ensures Reaches(su, start, l') && Settled(su, l', parked) && l'.sender.order == l.sender.order + more
  {
    hide Settled, Reaches, NoCollision;
    if more == [] {
      l' := l;
    } else {
      var n := |more| - 1;
      var before, last := more[..n], more[n];
      assert forall k | k in before :: k in more;
      assert last in more;
      assert l.sender.order + before + [last] == l.sender.order + more;
      NoCollisionBefore(l.sender.order + before, l.sender.order + more);
      var l1 := Rounds(su, start, l, before, parked);
      l' := Round(su, start, l1, last, parked);
    }
  }

  lemma CollapseReaches(su: Setup, l: Link, id: byte)
    requires ValidSetup(su) && LinkInv(su, l)
    ensures |Collapse(Calls(l, id))| == Reach(Calls(l, id))
  {
    assert IdOk(su.firmware.protocol, l, id);
    CollapseIsPrefix(Calls(l, id), Submitted(l, id));
  }

  /** A second message is queued, the parked one is sent twice more and called back twice. */
  lemma DeliverTwice(su: Setup, start: Link, l: Link, id: byte) returns (l': Link)
    requires ValidSetup(su) && Sound(su, start, l) && Settled(su, l, {id})
    requires id in su.firmware.protocol.reliable
    ensures Sound(su, start, l') && l'.sender.order == l.sender.order && l'.data == []
    ensures Waiting(l'.sender, id) && |l'.sender.pending[id]| == 2
    ensures PoppedCount(l', id) == PoppedCount(l, id) && Reach(Calls(l', id)) == PoppedCount(l, id) + 1
    ensures |l'.acks| == 2 && forall i | 0 <= i < 2 :: l'.acks[i].id == id && l'.acks[i].index == PoppedCount(l, id)
  {
    hide Sound, LinkInv, Waiting, R.Inv;
    var l1 := SubmitBehind(su, start, l, id);
    var l2 := Resend(su, start, l1, id);
    var l3 := Resend(su, start, l2, id);
    var l4 := Deliver(su, start, l3);
    l' := Deliver(su, start, l4);
  }

  /** Its first acknowledgement brings in the second message under the same sequence byte, and its
      other one pops that message, which was never called back. */
  lemma Collide(su: Setup, start: Link, l: Link, id: byte) returns (l': Link)
    requires ValidSetup(su) && Reaches(su, start, l) && Settled(su, l, {id})
    requires id in su.firmware.protocol.reliable && NoCollision(l.sender.order)
    requires var occ := Occurrences(l.sender.order, id); occ != [] && occ[|occ| - 1] % 256 == |l.sender.order| % 256
    ensures Reaches(su, start, l') && l'.sender.order == l.sender.order + [id]
    ensures PoppedCount(l', id) > |Collapse(Calls(l', id))| && !Delivered(l', id)
  {
    hide LinkInv, Reaches, NoCollision, Writing, OnAck, R.OnAckReceived, Occurrences, R.Inv, Staircase, Collapse;
    FrontSeq(su, l, id);
    var order := l.sender.order;
    var l5 := DeliverTwice(su, start, l, id);
    var l6 := AckNext(su, start, l5, id);
    var l7 := LoseFirst(su, start, l6);
    var l8 := Complete(su, start, l7, id);
    OccurrencesSnoc(order, id, id);
    ParkedIs(l8.sender, id);
    LastAcked(Cfg(su), l8.sender, id);
    l' := DeliverFirstAck(su, start, l8, id, |order| % 256);
    assert Calls(l', id) == Calls(l5, id);
    CollapseReaches(su, l8, id);
  }

  // ---------------------------------------------------------------------
  // The condition is exact
  // ---------------------------------------------------------------------

  /** Every run that gives out sequence bytes along `history` keeps the promise to every ID. */
  ghost predicate Safe(su: Setup, start: Link, history: seq<byte>)
    requires ValidSetup(su)
  {
    forall events, id: byte |
      After(su, start, events).Reached? && After(su, start, events).link.sender.order <= history ::
      Delivered(After(su, start, events).link, id)
  }

  /** The last assignment of `history` repeats the previous sequence byte of its ID. */
  lemma LastCollides(history: seq<byte>)
    requires history != [] && NoCollision(history[..|history| - 1]) && !NoCollision(history)
    ensures var n := |history| - 1;
            var occ := Occurrences(history[..n], history[n]);
            occ != [] && occ[|occ| - 1] % 256 == n % 256
  {
    var n := |history| - 1;
    var before := history[..n];
    var id: byte, i :| 0 < i < |Occurrences(history, id)| && SeqOf(history, id, i) == SeqOf(history, id, i - 1);
    assert history == before + [history[n]];
    OccurrencesSnoc(before, history[n], id);
    assert i < |Occurrences(before, id)| ==> SeqOf(before, id, i) != SeqOf(before, id, i - 1);
  }

  /** The last assignment to `id` splits the history. */
  lemma {:induction false} LastOccurrence(order: seq<byte>, id: byte) returns (head: seq<byte>, tail: seq<byte>)
    requires Occurrences(order, id) != []
    ensures order == head + [id] + tail && id !in tail
  {
    var n := |order| - 1;
    if order[n] == id {
      head, tail := order[..n], [];
    } else {
      head, tail := LastOccurrence(order[..n], id);
      tail := tail + [order[n]];
    }
  }

  lemma InitialSettled(su: Setup, start: Link)
    requires ValidSetup(su) && Initial(su, start)
    ensures Reaches(su, start, start) && Settled(su, start, {}) && start.sender.order == []
  {
    hide LinkInv;
    InitialInv(su, start);
    assert After(su, start, []) == Reached(start);
  }

  lemma AllIn(history: seq<byte>, before: seq<byte>, head: seq<byte>, tail: seq<byte>, id: byte, all: set<byte>)
    requires history == before + [id] && before == head + [id] + tail
    requires forall k | k in history :: k in all
    ensures id in all && forall k | k in head || k in tail :: k in all
    ensures head <= before
  {
    assert id in history;
    forall k | k in head || k in tail
      ensures k in all
    {
      assert k in before;
    }
  }

  lemma CollisionLoses(su: Setup, start: Link, history: seq<byte>) returns (l: Link)
    requires ValidSetup(su) && Initial(su, start)
    requires forall k | k in history :: k in su.firmware.protocol.reliable
    requires history != [] && NoCollision(history[..|history| - 1]) && !NoCollision(history)
    ensures Reaches(su, start, l) && l.sender.order == history && !Delivered(l, history[|history| - 1])
    ensures PoppedCount(l, history[|history| - 1]) > |Collapse(Calls(l, history[|history| - 1]))|
  {
    hide Settled, Reaches, NoCollision, Initial, Delivered, Occurrences, ValidSetup;
    var n := |history| - 1;
    var before, id := history[..n], history[n];
    LastCollides(history);
    var head, tail := LastOccurrence(before, id);
    AllIn(history, before, head, tail, id, su.firmware.protocol.reliable);
    NoCollisionBefore(head, before);
    InitialSettled(su, start);
    assert [] + head == head;
    var l1 := Rounds(su, start, start, head, {});
    var l2 := Park(su, start, l1, id);
    var l3 := Rounds(su, start, l2, tail, {id});
    l := Collide(su, start, l3, id);
  }

  /** Delivery can be relied on along a history exactly when no two consecutive messages of one ID
      were given the same sequence byte. */
  lemma {:induction false} SafeIffNoCollision(su: Setup, start: Link, history: seq<byte>)
    requires ValidSetup(su) && Initial(su, start)
    requires forall k | k in history :: k in su.firmware.protocol.reliable
    ensures Safe(su, start, history) <==> NoCollision(history)
  {
    hide NoCollision, Delivered;
    if NoCollision(history) {
      forall events, id: byte |
        After(su, start, events).Reached? && After(su, start, events).link.sender.order <= history
        ensures Delivered(After(su, start, events).link, id)
      {
        NoCollisionBefore(After(su, start, events).link.sender.order, history);
        AtLeastOnceInOrder(su, start, events, id);
      }
    } else if history == [] {
      EmptyHistory();
    } else {
      var before := history[..|history| - 1];
      if NoCollision(before) {
        var l := CollisionLoses(su, start, history);
        var events :| After(su, start, events) == Reached(l);
        assert !Delivered(After(su, start, events).link, history[|history| - 1]);
      } else {
        assert forall k | k in before :: k in history;
        SafeIffNoCollision(su, start, before);
        assert before <= history;
      }
    }
  }

  lemma EmptyHistory()
    ensures NoCollision([])
  {
  }

  // ---------------------------------------------------------------------
  // A history that collides
  // ---------------------------------------------------------------------

  lemma {:induction false} OccurrencesOfRun(a: byte, b: byte, n: nat, id: byte)
    requires a != b
    ensures Occurrences([a] + seq(n, _ => b), id)
         == if id == a then [0] else if id == b then seq(n, i => i + 1) else []
  {
    var history := [a] + seq(n, _ => b);
    if n == 0 {
      assert history == [] + [a];
      OccurrencesSnoc([], a, id);
    } else {
      assert history == [a] + seq(n - 1, _ => b) + [b];
      OccurrencesOfRun(a, b, n - 1, id);
      OccurrencesSnoc([a] + seq(n - 1, _ => b), b, id);
    }
  }

  /** One message of `a`, 255 of `b`, and one more of `a`: both messages of `a` get byte zero. */
  ghost function AroundTheClock(a: byte, b: byte): seq<byte>
  {
    [a] + seq(255, _ => b) + [a]
  }

  lemma AroundTheClockCollides(a: byte, b: byte)
    requires a != b
    ensures NoCollision([a] + seq(255, _ => b)) && !NoCollision(AroundTheClock(a, b))
  {
    var before := [a] + seq(255, _ => b);
    forall id: byte, i | 0 < i < |Occurrences(before, id)|
      ensures SeqOf(before, id, i) != SeqOf(before, id, i - 1)
    {
      OccurrencesOfRun(a, b, 255, id);
    }
    OccurrencesOfRun(a, b, 255, a);
    OccurrencesSnoc(before, a, a);
    assert SeqOf(AroundTheClock(a, b), a, 1) == SeqOf(AroundTheClock(a, b), a, 0);
  }

  /** So two reliable IDs suffice to lose a message. */
  lemma TwoIdsCanLose(su: Setup, start: Link, a: byte, b: byte) returns (l: Link)
    requires ValidSetup(su) && Initial(su, start) && a != b
    requires a in su.firmware.protocol.reliable && b in su.firmware.protocol.reliable
    ensures Reaches(su, start, l) && PoppedCount(l, a) > |Collapse(Calls(l, a))| && !Delivered(l, a)
  {
    hide NoCollision, Reaches, Collapse;
    var history := AroundTheClock(a, b);
    AroundTheClockCollides(a, b);
    assert history[..|history| - 1] == [a] + seq(255, _ => b);
    assert forall k | k in history :: k == a || k == b;
    l := CollisionLoses(su, start, history);
  }
}
