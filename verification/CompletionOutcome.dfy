/** What the outcome of a write decides: a message waits for its acknowledgement exactly after the
    last completion of its current attempt reported success, and only then can be acknowledged. */
module CompletionOutcome {
  import opened Checksums
  import opened Wire
  import opened StreamParser
  import opened ReliableSending

  /** The outcome that was last reported for an attempt. */
  function LastReport(events: seq<Event>, c: Completion): Option<bool>
  {
    if events == [] then None
    else
      var e := events[|events| - 1];
      if e.DoComplete? && e.completion == c then Some(e.success)
      else LastReport(events[..|events| - 1], c)
  }

  function AttemptOf(s: Sender, key: byte): Completion
    requires HasFront(s, key)
  {
    Completion(key, Front(s, key).seqNo, Front(s, key).generation)
  }

  /** A front that is not being written awaits its acknowledgement exactly if its last report says
      success. */
  ghost predicate Reported(events: seq<Event>, s: Sender, key: byte)
  {
    HasFront(s, key) && !Front(s, key).inProgress ==>
      LastReport(events, AttemptOf(s, key)) == Some(Front(s, key).awaiting)
  }

  lemma LastReportSnoc(events: seq<Event>, e: Event, c: Completion)
    ensures LastReport(events + [e], c)
         == if e.DoComplete? && e.completion == c then Some(e.success) else LastReport(events, c)
  {
    assert (events + [e])[..|events|] == events;
  }

  lemma AttemptIsUnderWay(cfg: Settings, s: Sender, key: byte)
    requires HasFront(s, key)
    ensures HasFront(AttemptSend(cfg, s, key), key) && Front(AttemptSend(cfg, s, key), key).inProgress
  {
    hide Injected, Increment, NextGeneration;
  }

  lemma SendReports(cfg: Settings, events: seq<Event>, s: Sender, key: byte, bytes: seq<byte>)
    requires Reported(events, s, key)
    ensures Reported(events + [DoSend(key, bytes)], Send(cfg, s, key, bytes), key)
  {
    hide AttemptSend;
    var s1 := Queued(s, key, bytes);
    AttemptIsUnderWay(cfg, s1, key);
    if HasFront(s, key) {
      LastReportSnoc(events, DoSend(key, bytes), AttemptOf(s, key));
    }
  }

  lemma AckReports(cfg: Settings, events: seq<Event>, s: Sender, key: byte, seqNo: byte)
    requires Inv(s) && Reported(events, s, key)
    ensures Reported(events + [DoAck(key, seqNo)], OnAckReceived(cfg, s, key, seqNo), key)
  {
    hide AttemptSend, Inv;
    if Accepts(s, key, seqNo) {
      var s1 := Popped(s, key);
      if key in s1.pending {
        AttemptIsUnderWay(cfg, s1, key);
      }
    } else if HasFront(s, key) {
      LastReportSnoc(events, DoAck(key, seqNo), AttemptOf(s, key));
    }
  }

  lemma CompletionReports(cfg: Settings, events: seq<Event>, s: Sender, c: Completion, success: bool)
    requires Inv(s) && c in s.completions
    ensures Reported(events + [DoComplete(c, success)], Apply(cfg, s, DoComplete(c, success)), c.key)
    ensures HasFront(s, c.key) && AttemptOf(s, c.key) == c && Front(s, c.key).inProgress
  {
    assert KeyOk(s, c.key) && CompletionOk(s, c);
    LastReportSnoc(events, DoComplete(c, success), c);
  }

  lemma TimeoutReports(cfg: Settings, events: seq<Event>, s: Sender, t: Ticket)
    requires t in s.expired && Reported(events, s, t.key)
    ensures Reported(events + [DoTimeout(t)], Apply(cfg, s, DoTimeout(t)), t.key)
  {
    hide AttemptSend;
    var s0 := s.(expired := s.expired - multiset{t});
    if HasFront(s0, t.key) {
      LastReportSnoc(events, DoTimeout(t), AttemptOf(s, t.key));
      AttemptIsUnderWay(cfg, TimedOut(cfg, s0, t.key), t.key);
    }
  }

  lemma OthersReport(events: seq<Event>, s: Sender, s': Sender, e: Event, key: byte)
    requires Reported(events, s, key) && SameFor(s, s', key) && KeyOf(e) != key
    ensures Reported(events + [e], s', key)
  {
    if HasFront(s, key) {
      LastReportSnoc(events, e, AttemptOf(s, key));
    }
  }

  lemma ApplyReports(cfg: Settings, events: seq<Event>, s: Sender, e: Event, key: byte)
    requires Inv(s) && Enabled(s, e) && Reported(events, s, key)
    ensures Reported(events + [e], Apply(cfg, s, e), key)
  {
    hide Inv, Reported, Send, OnAckReceived, HandleSendCompletion, HandleRetryTimeout;
    if KeyOf(e) != key {
      OtherKeysUntouched(cfg, s, e, key);
      OthersReport(events, s, Apply(cfg, s, e), e, key);
    } else {
      match e
      case DoSend(_, bytes) => SendReports(cfg, events, s, key, bytes);
      case DoAck(_, seqNo) => AckReports(cfg, events, s, key, seqNo);
      case DoComplete(c, success) => CompletionReports(cfg, events, s, c, success);
      case DoExpire(timer) => ExpiryReports(events, s, timer);
      case DoTimeout(t) => TimeoutReports(cfg, events, s, t);
    }
  }

  lemma ExpiryReports(events: seq<Event>, s: Sender, timer: EntryId)
    requires timer in s.armed && Reported(events, s, timer.key)
    ensures Reported(events + [DoExpire(timer)], Expired(s, timer), timer.key)
  {
    if HasFront(s, timer.key) {
      LastReportSnoc(events, DoExpire(timer), AttemptOf(s, timer.key));
    }
  }

  lemma {:induction false} AlwaysReported(cfg: Settings, events: seq<Event>, key: byte)
    requires After(cfg, events).Reached?
    ensures Reported(events, After(cfg, events).sender, key)
  {
    hide Apply, Enabled, Inv, Reported;
    if events == [] {
      NothingReported(key);
    } else {
      var n := |events| - 1;
      AlwaysReported(cfg, events[..n], key);
      ReachableInv(cfg, events[..n]);
      ApplyReports(cfg, events[..n], After(cfg, events[..n]).sender, events[n], key);
      assert events[..n] + [events[n]] == events;
    }
  }

  lemma NothingReported(key: byte)
    ensures Reported([], INITIAL, key)
  {
  }

  /** In every reachable state the front of a queue awaits its acknowledgement if and only if it is
      not being written and the last report on its current attempt says success. */
  lemma AwaitsIffWritten(cfg: Settings, events: seq<Event>, key: byte)
    requires After(cfg, events).Reached? && HasFront(After(cfg, events).sender, key)
    ensures var s := After(cfg, events).sender;
            Front(s, key).awaiting
            <==> !Front(s, key).inProgress && LastReport(events, AttemptOf(s, key)) == Some(true)
  {
    AlwaysReported(cfg, events, key);
    ReachableInv(cfg, events);
    FrontNotBoth(After(cfg, events).sender, key);
  }

  lemma FrontNotBoth(s: Sender, key: byte)
    requires Inv(s) && HasFront(s, key)
    ensures Front(s, key).awaiting ==> !Front(s, key).inProgress
  {
    assert KeyOk(s, key);
  }

  /** An acknowledgement changes the sender only if it names such a front by its sequence byte. */
  lemma OnlyWrittenIsAcked(cfg: Settings, events: seq<Event>, key: byte, seqNo: byte)
    requires After(cfg, events).Reached?
    ensures var s := After(cfg, events).sender;
            var s' := Apply(cfg, s, DoAck(key, seqNo));
            if HasFront(s, key) && Front(s, key).seqNo == seqNo && !Front(s, key).inProgress
               && LastReport(events, AttemptOf(s, key)) == Some(true)
            then Uids(s, key) != [] && Uids(s', key) == Uids(s, key)[1..]
            else s' == s
  {
    var s := After(cfg, events).sender;
    AckUids(cfg, s, key, seqNo, key);
    if HasFront(s, key) {
      AwaitsIffWritten(cfg, events, key);
    }
  }

  // ---------------------------------------------------------------------
  // After a failed write
  // ---------------------------------------------------------------------

  /** No write of `key` is reported as successful. */
  ghost predicate NoSuccess(events: seq<Event>, key: byte)
  {
    forall i | 0 <= i < |events| :: events[i].DoComplete? && events[i].completion.key == key ==> !events[i].success
  }

  /** The front of `key` is queued and does not await an acknowledgement. */
  ghost predicate Unwritten(s: Sender, key: byte)
  {
    HasFront(s, key) && !Front(s, key).awaiting
  }

  lemma AttemptStaysUnwritten(cfg: Settings, s: Sender, key: byte)
    requires Unwritten(s, key)
    ensures Unwritten(AttemptSend(cfg, s, key), key)
  {
    hide Injected, Increment, NextGeneration;
  }

  lemma StaysUnwritten(cfg: Settings, s: Sender, e: Event, key: byte)
    requires Inv(s) && Enabled(s, e) && Unwritten(s, key) && NoSuccess([e], key)
    ensures Unwritten(Apply(cfg, s, e), key)
  {
    hide Inv, AttemptSend;
    assert [e][0] == e;
    if KeyOf(e) != key {
      OtherKeysUntouched(cfg, s, e, key);
    } else {
      match e
      case DoSend(_, _) =>
      case DoAck(_, _) =>
      case DoComplete(_, _) =>
      case DoExpire(_) =>
      case DoTimeout(t) =>
        var s0 := s.(expired := s.expired - multiset{t});
        AttemptStaysUnwritten(cfg, TimedOut(cfg, s0, key), key);
    }
  }

  lemma {:induction false} KeepsUnwritten(cfg: Settings, events: seq<Event>, more: seq<Event>, key: byte)
    requires After(cfg, events + more).Reached? && NoSuccess(more, key)
    requires After(cfg, events).Reached? && Unwritten(After(cfg, events).sender, key)
    ensures Unwritten(After(cfg, events + more).sender, key)
    ensures Uids(After(cfg, events).sender, key) <= Uids(After(cfg, events + more).sender, key)
  {
    hide Apply, Enabled, Inv, Unwritten, Uids;
    if more == [] {
      assert events + more == events;
    } else {
      var n := |more| - 1;
      var before := events + more[..n];
      assert (events + more)[..|events| + n] == before;
      KeepsUnwritten(cfg, events, more[..n], key);
      ReachableInv(cfg, before);
      StaysUnwritten(cfg, After(cfg, before).sender, more[n], key);
      OnlyAcksRemove(cfg, After(cfg, before).sender, more[n], key);
      UnwrittenIsNotAccepted(After(cfg, before).sender, key);
    }
  }

  lemma UnwrittenIsNotAccepted(s: Sender, key: byte)
    requires Unwritten(s, key)
    ensures forall seqNo :: !Accepts(s, key, seqNo)
  {
  }

  /** After a failed write of the front's current attempt no acknowledgement, from whenever it comes,
      removes a message of that ID until a later write is reported as successful. */
  lemma FailedIsNotAcked(cfg: Settings, events: seq<Event>, c: Completion, more: seq<Event>)
    requires After(cfg, events + [DoComplete(c, false)]).Reached?
    requires After(cfg, events + [DoComplete(c, false)] + more).Reached? && NoSuccess(more, c.key)
    ensures After(cfg, events).Reached? && HasFront(After(cfg, events).sender, c.key)
    ensures Uids(After(cfg, events).sender, c.key)
         <= Uids(After(cfg, events + [DoComplete(c, false)] + more).sender, c.key)
  {
    hide Apply, Inv, Uids, HandleSendCompletion;
    var failed := events + [DoComplete(c, false)];
    assert failed[..|events|] == events;
    var s := After(cfg, events).sender;
    ReachableInv(cfg, events);
    CompletionReports(cfg, events, s, c, false);
    FailureUnwrites(cfg, s, c);
    OnlyAcksRemove(cfg, s, DoComplete(c, false), c.key);
    KeepsUnwritten(cfg, failed, more, c.key);
  }

  lemma FailureUnwrites(cfg: Settings, s: Sender, c: Completion)
    requires c in s.completions && HasFront(s, c.key) && AttemptOf(s, c.key) == c
    ensures Unwritten(Apply(cfg, s, DoComplete(c, false)), c.key)
  {
  }

  /** A new attempt is never the old one, so a late report on the old one changes nothing. */
  lemma LateReportChangesNothing(cfg: Settings, s: Sender, t: Ticket, success: bool)
    requires HasFront(s, t.key) && !Front(s, t.key).inProgress && Front(s, t.key).numbered
    requires Front(s, t.key).seqNo == t.seqNo
    ensures var s' := HandleRetryTimeout(cfg, s, t);
            HandleSendCompletion(s', AttemptOf(s, t.key), success) == s'
  {
    hide Injected, Increment;
  }

  // ---------------------------------------------------------------------
  // When a frame is handed over
  // ---------------------------------------------------------------------

  /** What makes the sender hand a frame to the link: a message for an ID with nothing queued, the
      acknowledgement of a written front with another message behind it, and the timer of a front
      that is not being written. */
  predicate HandsOver(s: Sender, e: Event)
  {
    match e
    case DoSend(key, _) => !HasFront(s, key)
    case DoAck(key, seqNo) =>
      HasFront(s, key) && Front(s, key).seqNo == seqNo && Front(s, key).awaiting && |s.pending[key]| > 1
    case DoComplete(_, _) => false
    case DoExpire(_) => false
    case DoTimeout(t) => HasFront(s, t.key) && Front(s, t.key).seqNo == t.seqNo && !Front(s, t.key).inProgress
  }

  lemma AttemptHandsOver(cfg: Settings, s: Sender, key: byte)
    requires HasFront(s, key)
    ensures var s' := AttemptSend(cfg, s, key);
            HasFront(s', key) && s'.sent == s.sent + if Front(s, key).inProgress then [] else [Front(s', key).bytes]
  {
    hide Injected, Increment, NextGeneration;
  }

  /** A frame is handed over at exactly these events: one frame, that of the front. The timer of an
      earlier message does nothing at all. */
  lemma HandsOverIff(cfg: Settings, s: Sender, e: Event)
    requires Inv(s) && Enabled(s, e)
    ensures var s' := Apply(cfg, s, e);
            if HandsOver(s, e) then HasFront(s', KeyOf(e)) && s'.sent == s.sent + [Front(s', KeyOf(e)).bytes]
            else s'.sent == s.sent
    ensures e.DoTimeout? && !(HasFront(s, e.ticket.key) && Front(s, e.ticket.key).seqNo == e.ticket.seqNo) ==>
              Apply(cfg, s, e) == s.(expired := s.expired - multiset{e.ticket})
  {
    hide AttemptSend, Inv;
    match e
    case DoSend(key, bytes) => AttemptHandsOver(cfg, Queued(s, key, bytes), key);
    case DoAck(key, seqNo) =>
      if Accepts(s, key, seqNo) && |s.pending[key]| > 1 {
        NextIsUntouched(s, key);
        AttemptHandsOver(cfg, Popped(s, key), key);
      }
    case DoComplete(_, _) =>
    case DoExpire(_) =>
    case DoTimeout(t) =>
      var s0 := s.(expired := s.expired - multiset{t});
      if HasFront(s, t.key) {
        AttemptHandsOver(cfg, TimedOut(cfg, s0, t.key), t.key);
      }
  }

  lemma NextIsUntouched(s: Sender, key: byte)
    requires Inv(s) && key in s.pending && |s.pending[key]| > 1
    ensures !s.pending[key][1].inProgress
  {
    assert KeyOk(s, key) && QueueOk(s, key) && Shape(s.pending[key], s.nextUid);
    assert Untouched(s.pending[key][1]);
  }
}
