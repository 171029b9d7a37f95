/** From every reachable state of the link every message can still be delivered. */
module EventualDelivery {
  import opened Checksums
  import opened Transport
  import opened Delivery
  import opened Collision
  import R = ReliableSending

  /** `l'` continues `l` without new messages; only the queue of `id` may have changed. */
  ghost predicate Continues(su: Setup, start: Link, l: Link, l': Link, id: byte)
    requires ValidSetup(su)
  {
    Sound(su, start, l') && l'.submitted == l.submitted && Elsewhere(l, l', id)
  }

  lemma LoseFirstAck(su: Setup, start: Link, l: Link) returns (l': Link)
    requires ValidSetup(su) && Sound(su, start, l) && l.acks != []
    ensures Sound(su, start, l') && l' == l.(acks := l.acks[1..])
  {
    hide LinkInv;
    ReachesNext(su, start, l, DoLoseAck(0));
    LosingKeeps(su, l, DoLoseAck(0));
    l' := Apply(su, l, DoLoseAck(0));
  }

  /** Whatever is on the way may be lost. */
  lemma {:induction false} LoseAll(su: Setup, start: Link, l: Link) returns (l': Link)
    requires ValidSetup(su) && Sound(su, start, l)
    ensures Sound(su, start, l') && l' == l.(data := [], acks := [])
    decreases |l.data| + |l.acks|
  {
    hide Sound;
    if l.data != [] {
      var l1 := LoseFirst(su, start, l);
      l' := LoseAll(su, start, l1);
    } else if l.acks != [] {
      var l1 := LoseFirstAck(su, start, l);
      l' := LoseAll(su, start, l1);
    } else {
      l' := l;
    }
  }

  // ---------------------------------------------------------------------
  // Waking the front
  // ---------------------------------------------------------------------

  /** By the sender's invariant the front is being written, its timer is armed, or the handler of an
      expired one is still to run. */
  lemma FrontLives(s: R.Sender, id: byte)
    requires R.Inv(s) && id in s.pending
    ensures R.HasFront(s, id) && R.Front(s, id).numbered
    ensures R.Front(s, id).inProgress ==> Writing(s, id)
    ensures !R.Front(s, id).inProgress ==> Ticking(s, id) || R.Enabled(s, HandlerOf(s, id))
  {
    assert R.KeyOk(s, id);
  }

  lemma HandleNow(su: Setup, start: Link, l: Link, id: byte) returns (l': Link)
    requires ValidSetup(su) && Sound(su, start, l)
    requires R.HasFront(l.sender, id) && R.Front(l.sender, id).numbered && !R.Front(l.sender, id).inProgress
    requires R.Enabled(l.sender, HandlerOf(l.sender, id))
    ensures Continues(su, start, l, l', id) && Writing(l'.sender, id)
    ensures |l'.sender.pending[id]| == |l.sender.pending[id]| && l'.sender.pending.Keys == l.sender.pending.Keys
  {
    hide Sound, R.Apply, Elsewhere;
    var handle := HandlerOf(l.sender, id);
    Resending(Cfg(su), l.sender, id);
    l' := WithSender(l, R.Apply(Cfg(su), l.sender, handle), id);
    LocalSound(su, start, l, handle);
  }

  lemma ExpireNow(su: Setup, start: Link, l: Link, id: byte) returns (l': Link)
    requires ValidSetup(su) && Sound(su, start, l) && Ticking(l.sender, id)
    ensures Continues(su, start, l, l', id)
    ensures l'.sender.pending == l.sender.pending && R.Enabled(l'.sender, HandlerOf(l.sender, id))
  {
    hide Sound, R.Apply, Elsewhere, R.Enabled;
    var fire := TimerOf(l.sender, id);
    Expiring(Cfg(su), l.sender, id);
    l' := WithSender(l, R.Apply(Cfg(su), l.sender, fire), id);
    LocalSound(su, start, l, fire);
  }

  /** The front gets written and waits for its acknowledgement. */
  lemma Wake(su: Setup, start: Link, l: Link, id: byte) returns (l': Link)
    requires ValidSetup(su) && Sound(su, start, l) && id in l.sender.pending
    ensures Continues(su, start, l, l', id) && Waiting(l'.sender, id) && R.HasFront(l.sender, id)
    ensures |l'.sender.pending[id]| == |l.sender.pending[id]| && l'.sender.pending.Keys == l.sender.pending.Keys
  {
    LinkCarries(su, l, id);
    FrontLives(l.sender, id);
    hide Sound, Elsewhere, R.Enabled, R.Inv, LinkInv;
    if R.Front(l.sender, id).inProgress {
      l' := Complete(su, start, l, id);
    } else if R.Enabled(l.sender, HandlerOf(l.sender, id)) {
      var l1 := HandleNow(su, start, l, id);
      l' := Complete(su, start, l1, id);
      ElsewhereTwice(l, l1, l', id);
    } else {
      var l1 := ExpireNow(su, start, l, id);
      assert HandlerOf(l1.sender, id) == HandlerOf(l.sender, id);
      var l2 := HandleNow(su, start, l1, id);
      l' := Complete(su, start, l2, id);
      ElsewhereTwice(l, l1, l2, id);
      ElsewhereTwice(l, l2, l', id);
    }
  }

  // ---------------------------------------------------------------------
  // Emptying the queues
  // ---------------------------------------------------------------------

  /** With nothing else on the way, the waiting front is sent once more, delivered and acknowledged. */
  lemma FrontThrough(su: Setup, start: Link, l: Link, id: byte) returns (l': Link)
    requires ValidSetup(su) && Sound(su, start, l) && Waiting(l.sender, id)
    ensures Continues(su, start, l, l', id)
    ensures |l.sender.pending[id]| == 1 ==> l'.sender.pending.Keys == l.sender.pending.Keys - {id}
    ensures |l.sender.pending[id]| > 1 ==>
              l'.sender.pending.Keys == l.sender.pending.Keys && |l'.sender.pending[id]| == |l.sender.pending[id]| - 1
  {
    hide Sound, Elsewhere, Writing;
    var l0 := LoseAll(su, start, l);
    var l1 := Resend(su, start, l0, id);
    var l2 := Deliver(su, start, l1);
    SameSenderElsewhere(l, l0, l1, id);
    if |l.sender.pending[id]| == 1 {
      ParkedIs(l2.sender, id);
      l' := AckLast(su, start, l2, id);
    } else {
      l' := AckNext(su, start, l2, id);
    }
    SameSenderElsewhere(l1, l2, l', id);
    ElsewhereTwice(l, l1, l', id);
  }

  lemma {:induction false} EmptyQueue(su: Setup, start: Link, l: Link, id: byte, n: nat) returns (l': Link)
    requires ValidSetup(su) && Sound(su, start, l)
    requires id in l.sender.pending && |l.sender.pending[id]| <= n
    ensures Continues(su, start, l, l', id)
    ensures l'.sender.pending.Keys == l.sender.pending.Keys - {id}
    decreases n
  {
    hide Sound, Elsewhere, Waiting;
    var l1 := Wake(su, start, l, id);
    var l2 := FrontThrough(su, start, l1, id);
    ElsewhereTwice(l, l1, l2, id);
    l' := l2;
    if |l1.sender.pending[id]| > 1 {
      l' := EmptyQueue(su, start, l2, id, n - 1);
      ElsewhereTwice(l, l2, l', id);
    }
  }

  lemma {:induction false} EmptyAll(su: Setup, start: Link, l: Link) returns (l': Link)
    requires ValidSetup(su) && Sound(su, start, l)
    ensures Sound(su, start, l') && l'.submitted == l.submitted && l'.sender.pending == map[]
    decreases |l.sender.pending.Keys|
  {
    hide Sound, Elsewhere;
    if l.sender.pending == map[] {
      l' := l;
    } else {
      var id :| id in l.sender.pending;
      var l1 := EmptyQueue(su, start, l, id, |l.sender.pending[id]|);
      l' := EmptyAll(su, start, l1);
    }
  }

  /** With empty queues everything has been called back. */
  lemma AllCalledBack(su: Setup, l: Link, id: byte)
    requires ValidSetup(su) && LinkInv(su, l) && l.sender.pending == map[]
    ensures Collapse(Calls(l, id)) == Submitted(l, id)
  {
    assert IdOk(su.firmware.protocol, l, id);
    CollapseIsPrefix(Calls(l, id), Submitted(l, id));
    CarriesSizes(su.firmware.protocol, l.sender, id, PoppedCount(l, id), Submitted(l, id));
  }

  /** Nothing is ever beyond rescue: every run in which no two consecutive messages of an ID shared a
      sequence byte has a continuation, without a new message, after which every queue is empty and
      the callbacks of every ID, repeats left out, are exactly the messages sent. */
  lemma EverythingCanArrive(su: Setup, start: Link, events: seq<Event>) returns (more: seq<Event>)
    requires ValidSetup(su) && Initial(su, start)
    requires After(su, start, events).Reached? && NoCollision(After(su, start, events).link.sender.order)
    ensures var l := After(su, start, events).link;
            && After(su, l, more).Reached?
            && var l' := After(su, l, more).link;
               && l'.submitted == l.submitted && l'.sender.pending == map[]
               && forall id: byte :: Collapse(Calls(l', id)) == Submitted(l, id)
  {
    hide LinkInv, NoCollision, Collapse;
    var l := After(su, start, events).link;
    RunKeeps(su, start, events);
    assert After(su, l, []) == Reached(l);
    var l' := EmptyAll(su, l, l);
    more :| After(su, l, more) == Reached(l');
    forall id: byte
      ensures Collapse(Calls(l', id)) == Submitted(l, id)
    {
      AllCalledBack(su, l', id);
    }
  }
}
