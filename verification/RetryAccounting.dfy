/** How often the sender warns about a message that is not acknowledged. */
module RetryAccounting {
  import opened Checksums
  import opened Wire
  import opened ReliableSending
  import RingArithmetic

  ghost predicate EntryOk(cfg: Settings, s: Sender, key: byte, entry: Entry)
    requires cfg.warningThreshold > 0
  {
    entry.retries == s.timeouts[EntryId(key, entry.uid)] % cfg.warningThreshold
  }

  /** The retry counter of a queued entry is its number of timeouts modulo the threshold; names not
      yet given out have no timeouts; warnings are timeouts divided by the threshold. */
  ghost predicate Accounted(cfg: Settings, s: Sender)
    requires cfg.warningThreshold > 0
  {
    && (forall key | key in s.pending :: forall i | 0 <= i < |s.pending[key]| ::
        EntryOk(cfg, s, key, s.pending[key][i]))
    && (forall id: EntryId :: s.nextUid <= id.uid ==> s.timeouts[id] == 0)
    && (forall id: EntryId :: s.warnings[id] == s.timeouts[id] / cfg.warningThreshold)
  }

  lemma AttemptAccounted(cfg: Settings, s: Sender, key: byte)
    requires cfg.warningThreshold > 0 && Accounted(cfg, s)
    ensures Accounted(cfg, AttemptSend(cfg, s, key))
  {
    hide Injected, NextGeneration, Increment;
    var s' := AttemptSend(cfg, s, key);
    forall k, i | k in s'.pending && 0 <= i < |s'.pending[k]|
      ensures EntryOk(cfg, s', k, s'.pending[k][i])
    {
      assert EntryOk(cfg, s, k, s.pending[k][i]);
    }
  }

  lemma SendAccounted(cfg: Settings, s: Sender, key: byte, bytes: seq<byte>)
    requires cfg.warningThreshold > 0 && Accounted(cfg, s)
    ensures Accounted(cfg, Send(cfg, s, key, bytes))
  {
    hide AttemptSend;
    var s' := Queued(s, key, bytes);
    forall k, i | k in s'.pending && 0 <= i < |s'.pending[k]|
      ensures EntryOk(cfg, s', k, s'.pending[k][i])
    {
      if k != key || i < |s'.pending[k]| - 1 {
        assert EntryOk(cfg, s, k, s.pending[k][i]);
      }
    }
    AttemptAccounted(cfg, s', key);
  }

  lemma AckAccounted(cfg: Settings, s: Sender, key: byte, seqNo: byte)
    requires cfg.warningThreshold > 0 && Accounted(cfg, s)
    ensures Accounted(cfg, OnAckReceived(cfg, s, key, seqNo))
  {
    hide AttemptSend;
    if Accepts(s, key, seqNo) {
      var s' := Popped(s, key);
      forall k, i | k in s'.pending && 0 <= i < |s'.pending[k]|
        ensures EntryOk(cfg, s', k, s'.pending[k][i])
      {
        assert EntryOk(cfg, s, k, s.pending[k][if k == key then i + 1 else i]);
      }
      AttemptAccounted(cfg, s', key);
    }
  }

  lemma CompletionAccounted(cfg: Settings, s: Sender, c: Completion, success: bool)
    requires cfg.warningThreshold > 0 && Accounted(cfg, s)
    ensures Accounted(cfg, HandleSendCompletion(s, c, success))
  {
    var s' := HandleSendCompletion(s, c, success);
    forall k, i | k in s'.pending && 0 <= i < |s'.pending[k]|
      ensures EntryOk(cfg, s', k, s'.pending[k][i])
    {
      assert EntryOk(cfg, s, k, s.pending[k][i]);
    }
  }

  /** One more timeout: the quotient goes up exactly when the remainder would reach the divisor. */
  lemma NextQuotient(n: nat, d: nat)
    requires d > 0
    ensures if n % d + 1 == d then (n + 1) / d == n / d + 1 && (n + 1) % d == 0
            else (n + 1) / d == n / d && (n + 1) % d == n % d + 1
  {
    var q, r := n / d, n % d;
    assert n == q * d + r;
    if r + 1 == d {
      assert n + 1 == (q + 1) * d;
      RingArithmetic.QuotientUnique(n + 1, d, q + 1, 0);
    } else {
      RingArithmetic.QuotientUnique(n + 1, d, q, r + 1);
    }
  }

  lemma TimedOutAccounted(cfg: Settings, s: Sender, key: byte)
    requires cfg.warningThreshold > 0 && Accounted(cfg, s)
    requires key in s.pending && Shape(s.pending[key], s.nextUid)
    ensures Accounted(cfg, TimedOut(cfg, s, key))
  {
    var s' := TimedOut(cfg, s, key);
    var d := cfg.warningThreshold;
    var entry := Front(s, key);
    var id := EntryId(key, entry.uid);
    assert EntryOk(cfg, s, key, entry);
    assert s'.timeouts[id] == s.timeouts[id] + 1;
    NextQuotient(s.timeouts[id], d);
    assert EntryOk(cfg, s', key, Front(s', key));
    forall k, i | k in s'.pending && 0 <= i < |s'.pending[k]|
      ensures EntryOk(cfg, s', k, s'.pending[k][i])
    {
      if k != key || i > 0 {
        assert EntryOk(cfg, s, k, s.pending[k][i]);
        assert EntryId(k, s.pending[k][i].uid) != id;
      }
    }
    forall other: EntryId
      ensures s'.warnings[other] == s'.timeouts[other] / d
    {
      assert s.warnings[other] == s.timeouts[other] / d;
    }
  }

  lemma ApplyAccounted(cfg: Settings, s: Sender, e: Event)
    requires cfg.warningThreshold > 0 && Accounted(cfg, s) && Inv(s) && Enabled(s, e)
    ensures Accounted(cfg, Apply(cfg, s, e))
  {
    hide Send, OnAckReceived, HandleSendCompletion, AttemptSend, TimedOut;
    match e
    case DoSend(key, bytes) => SendAccounted(cfg, s, key, bytes);
    case DoAck(key, seqNo) => AckAccounted(cfg, s, key, seqNo);
    case DoComplete(c, success) =>
      var s0 := s.(completions := s.completions - multiset{c});
      assert Accounted(cfg, s0) by { AccountedAlike(cfg, s, s0); }
      CompletionAccounted(cfg, s0, c, success);
    case DoExpire(timer) => AccountedAlike(cfg, s, Expired(s, timer));
    case DoTimeout(t) =>
      var s0 := s.(expired := s.expired - multiset{t});
      AccountedAlike(cfg, s, s0);
      if HasFront(s0, t.key) {
        assert KeyOk(s, t.key);
        TimedOutAccounted(cfg, s0, t.key);
        AttemptAccounted(cfg, TimedOut(cfg, s0, t.key), t.key);
      }
  }

  lemma AccountedAlike(cfg: Settings, s: Sender, s': Sender)
    requires cfg.warningThreshold > 0 && Accounted(cfg, s)
    requires s.pending == s'.pending && s.nextUid == s'.nextUid
    requires s.timeouts == s'.timeouts && s.warnings == s'.warnings
    ensures Accounted(cfg, s')
  {
    forall k, i | k in s'.pending && 0 <= i < |s'.pending[k]|
      ensures EntryOk(cfg, s', k, s'.pending[k][i])
    {
      assert EntryOk(cfg, s, k, s.pending[k][i]);
    }
  }

  lemma {:induction false} ReachableAccounted(cfg: Settings, events: seq<Event>)
    requires cfg.warningThreshold > 0 && After(cfg, events).Reached?
    ensures Accounted(cfg, After(cfg, events).sender)
  {
    hide Apply, Enabled, Inv, Accounted;
    if events == [] {
      InitialAccounted(cfg);
    } else {
      var n := |events| - 1;
      ReachableAccounted(cfg, events[..n]);
      ReachableInv(cfg, events[..n]);
      ApplyAccounted(cfg, After(cfg, events[..n]).sender, events[n]);
    }
  }

  lemma InitialAccounted(cfg: Settings)
    requires cfg.warningThreshold > 0
    ensures Accounted(cfg, INITIAL)
  {
  }

  /** Over any run, the warnings about a message are its handled timeouts divided by a positive
      threshold, also after it has left its queue. */
  lemma WarningCount(cfg: Settings, events: seq<Event>, id: EntryId)
    requires cfg.warningThreshold > 0 && After(cfg, events).Reached?
    ensures var s := After(cfg, events).sender;
            s.warnings[id] == s.timeouts[id] / cfg.warningThreshold
  {
    ReachableAccounted(cfg, events);
  }

  lemma ApplyWithoutWarning(cfg: Settings, s: Sender, e: Event)
    requires cfg.warningThreshold <= 0 && Enabled(s, e)
    ensures Apply(cfg, s, e).warnings == s.warnings
  {
    hide Injected, Increment, NextGeneration;
  }

  /** A threshold that is not positive never warns. */
  lemma {:induction false} NoWarnings(cfg: Settings, events: seq<Event>)
    requires cfg.warningThreshold <= 0 && After(cfg, events).Reached?
    ensures After(cfg, events).sender.warnings == multiset{}
  {
    hide Apply, Enabled;
    if events != [] {
      var n := |events| - 1;
      NoWarnings(cfg, events[..n]);
      ApplyWithoutWarning(cfg, After(cfg, events[..n]).sender, events[n]);
    }
  }
}
