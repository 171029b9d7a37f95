/** Every run of the link delivers at least once and in order, as long as no two consecutive
    messages of one ID were given the same sequence byte. */
module Delivery {
  import opened Checksums
  import opened Wire
  import opened Transport
  import A = LinkAgreement
  import M = McuReceiver
  import P = StreamParser
  import R = ReliableSending

  // ---------------------------------------------------------------------
  // The invariant, one ID at a time
  // ---------------------------------------------------------------------

  /** One more than the newest message called back; zero before the first callback. */
  function Reach(calls: seq<Call>): nat
  {
    if calls == [] then 0 else calls[|calls| - 1].index + 1
  }

  /** Callbacks run through the messages from the first on, repeating but never skipping one, each
      with that message's bytes. */
  ghost predicate Staircase(calls: seq<Call>, sub: seq<seq<byte>>)
  {
    && (forall k | 0 <= k < |calls| :: calls[k].index < |sub| && calls[k].data == sub[calls[k].index])
    && (calls != [] ==> calls[0].index == 0)
    && (forall k | 0 < k < |calls| :: calls[k - 1].index <= calls[k].index <= calls[k - 1].index + 1)
  }

  /** A data frame carries the current or the previous message of its ID, and nothing older than
      what was called back. */
  ghost predicate DataOk(p: Protocol, l: Link, d: Datagram)
    requires Valid(p)
  {
    var sub := Submitted(l, d.id);
    && SizesOk(p, d.id, sub) && d.index < |sub|
    && d.index < |Occurrences(l.sender.order, d.id)|
    && d.bytes == FullFrame(p, l.sender.order, d.id, sub, d.index)
    && PoppedCount(l, d.id) <= d.index + 1
    && Reach(Calls(l, d.id)) <= d.index + 1
  }

  /** An acknowledgement frame acknowledges the current or the previous message of its ID, and
      that message was called back. */
  ghost predicate AckOk(p: Protocol, l: Link, a: Datagram)
    requires Valid(p)
  {
    && a.index < |Occurrences(l.sender.order, a.id)|
    && a.bytes == M.AckFrame(p, a.id, SeqOf(l.sender.order, a.id, a.index))
    && PoppedCount(l, a.id) <= a.index + 1
    && a.index < Reach(Calls(l, a.id))
  }

  /** Frames of one ID never overtake: their messages do not go down along the channel. */
  ghost predicate Sorted(channel: seq<Datagram>)
  {
    forall i, j | 0 <= i < j < |channel| && channel[i].id == channel[j].id :: channel[i].index <= channel[j].index
  }

  /** The queue, the number of messages popped and the callbacks of one ID. */
  ghost predicate IdOk(p: Protocol, l: Link, id: byte)
    requires Valid(p)
  {
    var sub, first, calls := Submitted(l, id), PoppedCount(l, id), Calls(l, id);
    && Carries(p, l.sender, id, first, sub)
    && Staircase(calls, sub)
    && first <= Reach(calls) <= |Occurrences(l.sender.order, id)|
  }

  /** The acknowledgement channel followed by the data channel is one sorted pipeline. */
  ghost predicate LinkInv(su: Setup, l: Link)
    requires ValidSetup(su)
  {
    var p := su.firmware.protocol;
    && R.Inv(l.sender)
    && M.Idle(p, l.mcu)
    && (forall id: byte :: IdOk(p, l, id))
    && (forall d | d in l.data :: DataOk(p, l, d))
    && (forall a | a in l.acks :: AckOk(p, l, a))
    && Sorted(l.acks + l.data)
  }

  // ---------------------------------------------------------------------
  // Steps of the sender
  // ---------------------------------------------------------------------

  /** What was submitted and assigned only grows, so frames in a channel stay what they are. */
  lemma DataStays(p: Protocol, l: Link, l': Link, d: Datagram)
    requires Valid(p) && DataOk(p, l, d)
    requires Submitted(l, d.id) <= Submitted(l', d.id) && SizesOk(p, d.id, Submitted(l', d.id))
    requires l.sender.order <= l'.sender.order
    requires PoppedCount(l', d.id) <= d.index + 1
    requires Calls(l', d.id) == Calls(l, d.id)
    ensures DataOk(p, l', d)
  {
    hide FrameOf;
    var more := l'.sender.order[|l.sender.order|..];
    assert l.sender.order + more == l'.sender.order;
    OccurrencesGrow(l.sender.order, more, d.id);
  }

  lemma AckStays(p: Protocol, l: Link, l': Link, a: Datagram)
    requires Valid(p) && AckOk(p, l, a)
    requires l.sender.order <= l'.sender.order
    requires PoppedCount(l', a.id) <= a.index + 1
    requires Calls(l', a.id) == Calls(l, a.id)
    ensures AckOk(p, l', a)
  {
    hide FrameOf;
    var more := l'.sender.order[|l.sender.order|..];
    assert l.sender.order + more == l'.sender.order;
    OccurrencesGrow(l.sender.order, more, a.id);
  }

  /** `l'` is `l` after a sender step about `id` that may have popped a message and may have put
      one frame into the data channel. */
  ghost predicate SenderStep(su: Setup, l: Link, l': Link, id: byte)
    requires ValidSetup(su)
  {
    var p := su.firmware.protocol;
    var first := PoppedCount(l', id);
    && R.Inv(l'.sender)
    && l'.mcu == l.mcu && l'.calls == l.calls
    && (forall k: byte | k != id :: Submitted(l', k) == Submitted(l, k) && PoppedCount(l', k) == PoppedCount(l, k))
    && (forall k: byte | k != id ::
          && Carries(p, l'.sender, k, PoppedCount(l, k), Submitted(l, k))
          && Occurrences(l'.sender.order, k) == Occurrences(l.sender.order, k))
    && Submitted(l, id) <= Submitted(l', id)
    && PoppedCount(l, id) <= first
    && Carries(p, l'.sender, id, first, Submitted(l', id))
    && Emits(p, l.sender, l'.sender, id, first, Submitted(l', id))
    && l'.data == l.data + NewFrames(l.sender, l'.sender, id, first)
  }

  /** The invariant as far as a sender step needs it: the acknowledgement channel may already be
      shorter, what was popped had been called back, and nothing older is left in the channels. */
  ghost predicate BeforeStep(su: Setup, l: Link, l': Link, id: byte)
    requires ValidSetup(su)
  {
    var p := su.firmware.protocol;
    && M.Idle(p, l.mcu)
    && (forall k: byte :: IdOk(p, l, k))
    && (forall d | d in l.data :: DataOk(p, l, d))
    && (forall a | a in l'.acks :: AckOk(p, l, a))
    && Sorted(l'.acks + l.data)
    && PoppedCount(l', id) <= Reach(Calls(l, id))
    && (forall d | d in l.data && d.id == id :: PoppedCount(l', id) <= d.index + 1)
    && (forall a | a in l'.acks && a.id == id :: PoppedCount(l', id) <= a.index + 1)
  }

  lemma StepOrders(su: Setup, l: Link, l': Link, id: byte)
    requires ValidSetup(su) && SenderStep(su, l, l', id)
    ensures l.sender.order <= l'.sender.order
    ensures forall k: byte :: Submitted(l, k) <= Submitted(l', k) && SizesOk(su.firmware.protocol, k, Submitted(l', k))
    ensures forall k: byte :: Calls(l', k) == Calls(l, k)
  {
    hide Carries;
    forall k: byte
      ensures Submitted(l, k) <= Submitted(l', k) && SizesOk(su.firmware.protocol, k, Submitted(l', k))
    {
      CarriesSizes(su.firmware.protocol, l'.sender, k, PoppedCount(l', k), Submitted(l', k));
    }
  }

  lemma StepKeepsData(su: Setup, l: Link, l': Link, id: byte, d: Datagram)
    requires ValidSetup(su) && SenderStep(su, l, l', id) && BeforeStep(su, l, l', id)
    requires d in l'.data
    ensures DataOk(su.firmware.protocol, l', d)
  {
    var p := su.firmware.protocol;
    StepOrders(su, l, l', id);
    if d in l.data {
      assert DataOk(p, l, d);
      hide FrameOf, Carries, SizesOk;
      assert PoppedCount(l', d.id) <= d.index + 1;
      DataStays(p, l, l', d);
    } else {
      NewFrameOk(su, l, l', id, d);
    }
  }

  lemma StepKeepsAck(su: Setup, l: Link, l': Link, id: byte, a: Datagram)
    requires ValidSetup(su) && SenderStep(su, l, l', id) && BeforeStep(su, l, l', id)
    requires a in l'.acks
    ensures AckOk(su.firmware.protocol, l', a)
  {
    StepOrders(su, l, l', id);
    assert AckOk(su.firmware.protocol, l, a);
    hide FrameOf, Carries, SizesOk;
    assert PoppedCount(l', a.id) <= a.index + 1;
    AckStays(su.firmware.protocol, l, l', a);
  }

  lemma StaircaseGrows(calls: seq<Call>, sub: seq<seq<byte>>, sub': seq<seq<byte>>)
    requires Staircase(calls, sub) && sub <= sub'
    ensures Staircase(calls, sub')
  {
  }

  lemma StepKeepsId(su: Setup, l: Link, l': Link, id: byte, k: byte)
    requires ValidSetup(su) && SenderStep(su, l, l', id) && BeforeStep(su, l, l', id)
    ensures IdOk(su.firmware.protocol, l', k)
  {
    hide Carries, SizesOk, FrameOf, Staircase, Sorted, DataOk, AckOk, NewFrames;
    StepOrders(su, l, l', id);
    assert IdOk(su.firmware.protocol, l, k);
    StaircaseGrows(Calls(l, k), Submitted(l, k), Submitted(l', k));
    OccurrencesSnoc(l.sender.order, id, k);
  }

  lemma SenderStepKeeps(su: Setup, l: Link, l': Link, id: byte)
    requires ValidSetup(su) && SenderStep(su, l, l', id) && BeforeStep(su, l, l', id)
    ensures LinkInv(su, l')
  {
    hide DataOk, AckOk, IdOk;
    forall d | d in l'.data
      ensures DataOk(su.firmware.protocol, l', d)
    {
      StepKeepsData(su, l, l', id, d);
    }
    forall a | a in l'.acks
      ensures AckOk(su.firmware.protocol, l', a)
    {
      StepKeepsAck(su, l, l', id, a);
    }
    forall k: byte
      ensures IdOk(su.firmware.protocol, l', k)
    {
      StepKeepsId(su, l, l', id, k);
    }
    NewFrameSorted(su, l, l', id);
  }

  lemma CarriesSizes(p: Protocol, s: R.Sender, id: byte, first: nat, sub: seq<seq<byte>>)
    requires Valid(p) && Carries(p, s, id, first, sub)
    ensures SizesOk(p, id, sub)
    ensures first <= |Occurrences(s.order, id)| <= first + 1
  {
  }

  lemma NewFrameOk(su: Setup, l: Link, l': Link, id: byte, d: Datagram)
    requires ValidSetup(su) && SenderStep(su, l, l', id)
    requires IdOk(su.firmware.protocol, l, id)
    requires d in l'.data && d !in l.data
    ensures DataOk(su.firmware.protocol, l', d)
  {
    hide FrameOf, Carries, Staircase, R.Inv, Occurrences;
    var p := su.firmware.protocol;
    var first := PoppedCount(l', id);
    CarriesSizes(p, l'.sender, id, first, Submitted(l', id));
    OccurrencesSnoc(l.sender.order, id, id);
    assert d in NewFrames(l.sender, l'.sender, id, first);
    assert d == Datagram(FullFrame(p, l'.sender.order, id, Submitted(l', id), first), id, first);
  }

  lemma NewFrameSorted(su: Setup, l: Link, l': Link, id: byte)
    requires ValidSetup(su) && SenderStep(su, l, l', id)
    requires Sorted(l'.acks + l.data)
    requires forall d | d in l.data :: DataOk(su.firmware.protocol, l', d)
    requires forall a | a in l'.acks :: AckOk(su.firmware.protocol, l', a)
    ensures Sorted(l'.acks + l'.data)
  {
    hide FrameOf;
    var pipe, pipe' := l'.acks + l.data, l'.acks + l'.data;
    var first := PoppedCount(l', id);
    CarriesSizes(su.firmware.protocol, l'.sender, id, first, Submitted(l', id));
    forall i, j | 0 <= i < j < |pipe'| && pipe'[i].id == pipe'[j].id
      ensures pipe'[i].index <= pipe'[j].index
    {
      if j < |pipe| {
        assert pipe'[i] == pipe[i] && pipe'[j] == pipe[j];
      } else {
        assert pipe'[j].id == id && pipe'[j].index == first;
        if i < |pipe| {
          assert pipe'[i] == pipe[i] && pipe[i] in pipe;
        }
      }
    }
  }

  // ---------------------------------------------------------------------
  // Every event keeps the invariant
  // ---------------------------------------------------------------------

  /** Nothing but the sender, the data channel and the histories of `id` changes; frames that the
      sender hands over carry its current message. */
  ghost predicate OnlyAbout(l: Link, l': Link, id: byte)
  {
    && l'.mcu == l.mcu && l'.calls == l.calls
    && (forall k: byte | k != id :: Submitted(l', k) == Submitted(l, k) && PoppedCount(l', k) == PoppedCount(l, k))
    && Submitted(l, id) <= Submitted(l', id) && PoppedCount(l, id) <= PoppedCount(l', id)
    && l'.data == l.data + NewFrames(l.sender, l'.sender, id, PoppedCount(l', id))
  }

  lemma SubmitOnlyAbout(su: Setup, l: Link, id: byte, data: seq<byte>)
    requires |data| <= 255
    ensures var l' := Submit(su, l, id, data);
            && OnlyAbout(l, l', id) && l'.acks == l.acks
            && l'.sender == R.Send(Cfg(su), l.sender, id, FrameOf(su.firmware.protocol, id, data))
            && Submitted(l', id) == Submitted(l, id) + [data] && PoppedCount(l', id) == PoppedCount(l, id)
  {
    hide R.Send, FrameOf, NewFrames;
  }

  lemma OnAckOnlyAbout(su: Setup, l: Link, id: byte, seqNo: byte)
    ensures var l' := OnAck(su, l, id, seqNo);
            && OnlyAbout(l, l', id) && l'.acks == l.acks
            && l'.sender == R.OnAckReceived(Cfg(su), l.sender, id, seqNo)
            && Submitted(l', id) == Submitted(l, id)
            && PoppedCount(l', id) == PoppedCount(l, id) + if R.Accepts(l.sender, id, seqNo) then 1 else 0
  {
    hide R.OnAckReceived, NewFrames;
  }

  /** A sender event seen as a `SenderStep`. */
  lemma SenderEventSteps(su: Setup, l: Link, l': Link, e: R.Event)
    requires ValidSetup(su) && R.Inv(l.sender) && R.Enabled(l.sender, e)
    requires forall k: byte :: IdOk(su.firmware.protocol, l, k)
    requires l'.sender == R.Apply(Cfg(su), l.sender, e)
    requires OnlyAbout(l, l', R.KeyOf(e))
    requires var id := R.KeyOf(e);
             && Carries(su.firmware.protocol, l'.sender, id, PoppedCount(l', id), Submitted(l', id))
             && Emits(su.firmware.protocol, l.sender, l'.sender, id, PoppedCount(l', id), Submitted(l', id))
    ensures SenderStep(su, l, l', R.KeyOf(e))
  {
    hide FrameOf, Carries, R.Inv, R.Apply, R.Enabled, FullFrame, SizesOk, NewFrames, Staircase;
    R.ApplyKeepsInv(Cfg(su), l.sender, e);
    forall k: byte | k != R.KeyOf(e)
      ensures Carries(su.firmware.protocol, l'.sender, k, PoppedCount(l, k), Submitted(l, k))
      ensures Occurrences(l'.sender.order, k) == Occurrences(l.sender.order, k)
    {
      assert IdOk(su.firmware.protocol, l, k);
      StepCarriesOthers(su, l.sender, e, k, PoppedCount(l, k), Submitted(l, k));
    }
  }

  lemma NothingPopped(su: Setup, l: Link, l': Link, id: byte)
    requires ValidSetup(su) && LinkInv(su, l) && l'.acks == l.acks
    requires PoppedCount(l', id) == PoppedCount(l, id)
    ensures BeforeStep(su, l, l', id)
  {
    hide Carries, FrameOf, SizesOk, FullFrame, Staircase;
    assert IdOk(su.firmware.protocol, l, id);
  }

  lemma SubmitKeeps(su: Setup, l: Link, id: byte, data: seq<byte>)
    requires ValidSetup(su) && LinkInv(su, l) && Enabled(su, l, DoSubmit(id, data))
    ensures LinkInv(su, Submit(su, l, id, data))
  {
    hide LinkInv, Carries, FrameOf, SizesOk, FullFrame, R.Inv, R.Send, IdOk, OnlyAbout, Submit, Emits, BeforeStep,
        SenderStep;
    var l' := Submit(su, l, id, data);
    LinkCarries(su, l, id);
    SubmitOnlyAbout(su, l, id, data);
    SubmitCarries(su, l.sender, id, PoppedCount(l, id), Submitted(l, id), data);
    SenderEventSteps(su, l, l', R.DoSend(id, FrameOf(su.firmware.protocol, id, data)));
    NothingPopped(su, l, l', id);
    SenderStepKeeps(su, l, l', id);
  }

  lemma LinkCarries(su: Setup, l: Link, id: byte)
    requires ValidSetup(su) && LinkInv(su, l)
    ensures Carries(su.firmware.protocol, l.sender, id, PoppedCount(l, id), Submitted(l, id))
    ensures R.Inv(l.sender) && l.sender.counter == |l.sender.order| % 256
    ensures forall k: byte :: IdOk(su.firmware.protocol, l, k)
  {
    assert IdOk(su.firmware.protocol, l, id);
  }

  lemma LocalOnlyAbout(su: Setup, l: Link, e: R.Event)
    requires R.Enabled(l.sender, e)
    ensures var l' := WithSender(l, R.Apply(Cfg(su), l.sender, e), R.KeyOf(e));
            && OnlyAbout(l, l', R.KeyOf(e)) && l'.acks == l.acks
            && l'.sender == R.Apply(Cfg(su), l.sender, e)
            && Submitted(l', R.KeyOf(e)) == Submitted(l, R.KeyOf(e))
            && PoppedCount(l', R.KeyOf(e)) == PoppedCount(l, R.KeyOf(e))
  {
    hide R.Apply, NewFrames;
  }

  lemma LocalKeeps(su: Setup, l: Link, e: R.Event)
    requires ValidSetup(su) && LinkInv(su, l) && Enabled(su, l, DoLocal(e))
    ensures LinkInv(su, Apply(su, l, DoLocal(e)))
  {
    hide LinkInv, Carries, R.Inv, R.Apply, R.Enabled, IdOk, OnlyAbout, WithSender, Emits, BeforeStep, SenderStep;
    var id := R.KeyOf(e);
    var l' := WithSender(l, R.Apply(Cfg(su), l.sender, e), id);
    LinkCarries(su, l, id);
    LocalOnlyAbout(su, l, e);
    LocalCarries(su, l.sender, e, PoppedCount(l, id), Submitted(l, id));
    SenderEventSteps(su, l, l', e);
    NothingPopped(su, l, l', id);
    SenderStepKeeps(su, l, l', id);
  }

  /** The heart of the matter: an acknowledgement that the sender accepts acknowledges the front
      itself, because the only older message a channel can still hold has another sequence byte. */
  lemma AcceptedAckIsCurrent(su: Setup, l: Link, a: Datagram)
    requires ValidSetup(su) && LinkInv(su, l) && NoCollision(l.sender.order)
    requires a in l.acks
    requires R.Accepts(l.sender, a.id, SeqOf(l.sender.order, a.id, a.index))
    ensures a.index == PoppedCount(l, a.id)
  {
    var p := su.firmware.protocol;
    var first := PoppedCount(l, a.id);
    assert AckOk(p, l, a) && IdOk(p, l, a.id);
    var s := l.sender;
    assert R.KeyOk(s, a.id);
    assert CarriesEntry(p, s, a.id, first, Submitted(l, a.id), 0);
    assert 0 < first < |Occurrences(s.order, a.id)| ==> SeqOf(s.order, a.id, first) != SeqOf(s.order, a.id, first - 1);
  }

  lemma AckIsCurrent(su: Setup, l: Link, a: Datagram)
    requires ValidSetup(su) && LinkInv(su, l) && NoCollision(l.sender.order) && a in l.acks
    requires a.index < |Occurrences(l.sender.order, a.id)|
    ensures IsCurrent(l, a)
  {
    hide LinkInv, NoCollision, R.Accepts;
    if R.Accepts(l.sender, a.id, SeqOf(l.sender.order, a.id, a.index)) {
      AcceptedAckIsCurrent(su, l, a);
    }
  }

  /** The acknowledgement, if the sender accepts it, is for the front itself. */
  ghost predicate IsCurrent(l: Link, a: Datagram)
    requires a.index < |Occurrences(l.sender.order, a.id)|
  {
    R.Accepts(l.sender, a.id, SeqOf(l.sender.order, a.id, a.index)) ==> a.index == PoppedCount(l, a.id)
  }

  lemma AckKeeps(su: Setup, l: Link)
    requires ValidSetup(su) && LinkInv(su, l) && l.acks != []
    requires AckOk(su.firmware.protocol, l, l.acks[0]) && IsCurrent(l, l.acks[0])
    ensures var a := l.acks[0];
            LinkInv(su, OnAck(su, l.(acks := l.acks[1..]), a.id, SeqOf(l.sender.order, a.id, a.index)))
  {
    hide LinkInv, AckOk, Carries, R.Inv, R.Accepts, R.OnAckReceived, IdOk, OnlyAbout, OnAck, Emits, BeforeStep,
        SenderStep;
    var a := l.acks[0];
    AckNumbered(su, l, a);
    var seqNo := SeqOf(l.sender.order, a.id, a.index);
    var l0 := l.(acks := l.acks[1..]);
    var l' := OnAck(su, l0, a.id, seqNo);
    LinkCarries(su, l, a.id);
    OnAckOnlyAbout(su, l0, a.id, seqNo);
    SameAbout(l, l0, l', a.id);
    ShorterAcks(su, l, l', a.id);
    AckCarries(su, l.sender, a.id, seqNo, PoppedCount(l, a.id), Submitted(l, a.id));
    SenderEventSteps(su, l, l', R.DoAck(a.id, seqNo));
    SenderStepKeeps(su, l, l', a.id);
  }

  lemma AckNumbered(su: Setup, l: Link, a: Datagram)
    requires ValidSetup(su) && AckOk(su.firmware.protocol, l, a)
    ensures a.index < |Occurrences(l.sender.order, a.id)|
  {
  }

  lemma SameAbout(l: Link, l0: Link, l': Link, id: byte)
    requires l0 == l.(acks := l0.acks) && OnlyAbout(l0, l', id)
    ensures OnlyAbout(l, l', id)
  {
  }

  /** After the front of the acknowledgement channel has been taken out and perhaps popped its
      message, what is left in the channels is not older than that message. */
  lemma ShorterAcks(su: Setup, l: Link, l': Link, id: byte)
    requires ValidSetup(su) && LinkInv(su, l) && l.acks != [] && l.acks[0].id == id
    requires l'.acks == l.acks[1..]
    requires PoppedCount(l', id) == PoppedCount(l, id)
          || (PoppedCount(l', id) == PoppedCount(l, id) + 1 && l.acks[0].index == PoppedCount(l, id))
    ensures BeforeStep(su, l, l', id)
  {
    hide Carries, FrameOf, SizesOk, FullFrame, Staircase;
    var p := su.firmware.protocol;
    assert IdOk(p, l, id);
    var pipe, pipe' := l.acks + l.data, l'.acks + l.data;
    assert pipe' == pipe[1..];
    assert AckOk(p, l, l.acks[0]);
    forall i | 0 < i < |pipe| && pipe[i].id == id
      ensures PoppedCount(l', id) <= pipe[i].index + 1
    {
      assert pipe[0].index <= pipe[i].index;
      if i < |l.acks| {
        assert AckOk(p, l, l.acks[i]);
      } else {
        assert DataOk(p, l, l.data[i - |l.acks|]);
      }
    }
    forall a | a in l'.acks && a.id == id
      ensures PoppedCount(l', id) <= a.index + 1
    {
      var i :| 0 <= i < |l'.acks| && l'.acks[i] == a;
      assert pipe[i + 1] == a;
    }
    forall d | d in l.data && d.id == id
      ensures PoppedCount(l', id) <= d.index + 1
    {
      var i :| 0 <= i < |l.data| && l.data[i] == d;
      assert pipe[i + |l.acks|] == d;
    }
    forall a | a in l'.acks
      ensures AckOk(p, l, a)
    {
      assert a in l.acks;
    }
  }

  /** The bytes of an acknowledgement frame parse to one packet, which the host hands to the sender. */
  lemma DeliverAckIsOnAck(su: Setup, l: Link)
    requires ValidSetup(su) && l.acks != [] && AckOk(su.firmware.protocol, l, l.acks[0])
    ensures var a := l.acks[0];
            DeliverAck(su, l) == OnAck(su, l.(acks := l.acks[1..]), a.id, SeqOf(l.sender.order, a.id, a.index))
  {
    hide FrameOf, OnAck, P.Parse, Occurrences;
    var a := l.acks[0];
    var pkt := Packet(ACK_ID, [a.id, SeqOf(l.sender.order, a.id, a.index)]);
    A.OneFrameParses(su.firmware.protocol, su.capacity, pkt);
    assert P.Parse(su.firmware.protocol, su.capacity, a.bytes).packets == [pkt];
    var l0 := l.(acks := l.acks[1..]);
    assert [pkt][1..] == [];
    assert OnPackets(su, l0, [pkt]) == OnPackets(su, OnAck(su, l0, pkt.payload[0], pkt.payload[1]), []);
  }

  /** What the microcontroller does with a data frame: one callback with the message's bytes, one
      acknowledgement with its sequence byte. */
  lemma DeliverDataIs(su: Setup, l: Link)
    requires ValidSetup(su) && M.Idle(su.firmware.protocol, l.mcu)
    requires l.data != [] && DataOk(su.firmware.protocol, l, l.data[0])
    ensures var d := l.data[0];
            var l' := DeliverData(su, l);
            var ack := M.AckFrame(su.firmware.protocol, d.id, SeqOf(l.sender.order, d.id, d.index));
            && M.Idle(su.firmware.protocol, l'.mcu)
            && l' == l.(data := l.data[1..], mcu := l'.mcu,
                        acks := l.acks + [Datagram(ack, d.id, d.index)],
                        calls := l.calls[d.id := Calls(l, d.id) + [Call(d.index, Submitted(l, d.id)[d.index])]])
  {
    hide FrameOf, M.Run, Occurrences, M.AckFrame;
    var p := su.firmware.protocol;
    var d := l.data[0];
    var message := Submitted(l, d.id)[d.index];
    var seqNo := SeqOf(l.sender.order, d.id, d.index);
    M.FrameDecoded(su.firmware, l.mcu, d.id, message + [seqNo]);
    assert (message + [seqNo])[..|message|] == message;
    var events := [M.Received(d.id, message), M.Written(M.AckFrame(p, d.id, seqNo))];
    assert M.Dispatched(su.firmware, d.id, message + [seqNo]) == events;
    var l0 := l.(data := l.data[1..], mcu := M.Run(su.firmware, l.mcu, d.bytes).mcu);
    assert events[1..] == [events[1]] && events[1..][1..] == [];
    var l1 := l0.(calls := l0.calls[d.id := Calls(l0, d.id) + [Call(d.index, message)]]);
    assert WithEvents(l0, d, events) == WithEvents(l1, d, events[1..]);
    var l2 := l1.(acks := l1.acks + [Datagram(events[1].frame, d.id, d.index)]);
    assert WithEvents(l1, d, [events[1]]) == WithEvents(l2, d, [events[1]][1..]) == l2;
    assert M.Run(su.firmware, l.mcu, d.bytes).events == events;
  }

  lemma DeliverKeepsPipeline(l: Link, l': Link, ack: Datagram)
    requires l.data != [] && l'.data == l.data[1..] && l'.acks == l.acks + [ack]
    requires ack.id == l.data[0].id && ack.index == l.data[0].index
    requires Sorted(l.acks + l.data)
    ensures Sorted(l'.acks + l'.data)
  {
    var pipe, pipe' := l.acks + l.data, l'.acks + l'.data;
    assert |pipe'| == |pipe|;
    assert forall i | 0 <= i < |pipe| :: pipe'[i].id == pipe[i].id && pipe'[i].index == pipe[i].index;
  }

  lemma DeliverKeepsChannels(su: Setup, l: Link, l': Link, ack: Datagram)
    requires ValidSetup(su) && LinkInv(su, l) && l.data != []
    requires var d := l.data[0];
             && DataOk(su.firmware.protocol, l, d)
             && ack == Datagram(M.AckFrame(su.firmware.protocol, d.id, SeqOf(l.sender.order, d.id, d.index)), d.id,
                 d.index)
             && l' == l.(data := l.data[1..], mcu := l'.mcu, acks := l.acks + [ack],
                         calls := l.calls[d.id := Calls(l, d.id) + [Call(d.index, Submitted(l, d.id)[d.index])]])
    ensures forall x | x in l'.data :: DataOk(su.firmware.protocol, l', x)
    ensures forall a | a in l'.acks :: AckOk(su.firmware.protocol, l', a)
    ensures Sorted(l'.acks + l'.data)
  {
    hide FrameOf, Occurrences, M.AckFrame, Carries, SizesOk;
    var p := su.firmware.protocol;
    var d := l.data[0];
    DeliverKeepsPipeline(l, l', ack);
    forall x | x in l'.data
      ensures DataOk(p, l', x)
    {
      assert DataOk(p, l, x);
      if x.id == d.id {
        var i :| 0 <= i < |l.data[1..]| && l.data[1..][i] == x;
        var pipe := l.acks + l.data;
        assert pipe[|l.acks|] == d && pipe[|l.acks| + 1 + i] == x;
      }
    }
    forall a | a in l'.acks
      ensures AckOk(p, l', a)
    {
      if a in l.acks {
        assert AckOk(p, l, a);
        if a.id == d.id {
          var i :| 0 <= i < |l.acks| && l.acks[i] == a;
          var pipe := l.acks + l.data;
          assert pipe[i] == a && pipe[|l.acks|] == d;
        }
      }
    }
  }

  lemma DeliverKeepsIds(su: Setup, l: Link, l': Link, ack: Datagram, id: byte)
    requires ValidSetup(su) && LinkInv(su, l) && l.data != []
    requires var d := l.data[0];
             && DataOk(su.firmware.protocol, l, d)
             && l' == l.(data := l.data[1..], mcu := l'.mcu, acks := l.acks + [ack],
                         calls := l.calls[d.id := Calls(l, d.id) + [Call(d.index, Submitted(l, d.id)[d.index])]])
    ensures IdOk(su.firmware.protocol, l', id)
  {
    hide FrameOf, Occurrences, Carries, SizesOk, R.Inv, Staircase, Sorted;
    var d := l.data[0];
    var sub := Submitted(l, id);
    assert IdOk(su.firmware.protocol, l, id);
    CarriesSizes(su.firmware.protocol, l.sender, id, PoppedCount(l, id), sub);
    if id == d.id {
      StaircaseSnoc(Calls(l, id), sub, d.index);
    }
  }

  lemma StaircaseSnoc(calls: seq<Call>, sub: seq<seq<byte>>, i: nat)
    requires Staircase(calls, sub) && i < |sub| && (i == Reach(calls) || i + 1 == Reach(calls))
    ensures Staircase(calls + [Call(i, sub[i])], sub)
  {
  }

  lemma DeliverDataKeeps(su: Setup, l: Link)
    requires ValidSetup(su) && LinkInv(su, l) && l.data != []
    ensures LinkInv(su, DeliverData(su, l))
  {
    hide FrameOf, Occurrences, M.AckFrame, Carries, SizesOk, R.Inv, Sorted, DeliverData, Staircase;
    var p := su.firmware.protocol;
    var d := l.data[0];
    assert DataOk(p, l, d);
    DeliverDataIs(su, l);
    var l' := DeliverData(su, l);
    var ack := l'.acks[|l.acks|];
    DeliverKeepsChannels(su, l, l', ack);
    forall id: byte
      ensures IdOk(p, l', id)
    {
      DeliverKeepsIds(su, l, l', ack, id);
    }
  }

  lemma LosingKeepsSorted(channel: seq<Datagram>, i: nat)
    requires i < |channel| && Sorted(channel)
    ensures Sorted(channel[..i] + channel[i + 1..])
  {
    var shorter := channel[..i] + channel[i + 1..];
    assert forall k | 0 <= k < |shorter| :: shorter[k] == channel[if k < i then k else k + 1];
  }

  lemma FewerFramesKeep(su: Setup, l: Link, l': Link)
    requires ValidSetup(su) && LinkInv(su, l)
    requires l' == l.(data := l'.data, acks := l'.acks)
    requires forall d | d in l'.data :: d in l.data
    requires forall a | a in l'.acks :: a in l.acks
    requires Sorted(l'.acks + l'.data)
    ensures LinkInv(su, l')
  {
    hide FrameOf, Occurrences, M.AckFrame, SizesOk, R.Inv, Staircase, Sorted, CarriesEntry;
    var p := su.firmware.protocol;
    forall d | d in l'.data
      ensures DataOk(p, l', d)
    {
      assert DataOk(p, l, d);
    }
    forall a | a in l'.acks
      ensures AckOk(p, l', a)
    {
      assert AckOk(p, l, a);
    }
    forall id: byte
      ensures IdOk(p, l', id)
    {
      assert IdOk(p, l, id);
    }
  }

  lemma LosingKeeps(su: Setup, l: Link, e: Event)
    requires ValidSetup(su) && LinkInv(su, l) && Enabled(su, l, e) && (e.DoLoseData? || e.DoLoseAck?)
    ensures LinkInv(su, Apply(su, l, e))
  {
    hide DataOk, AckOk, IdOk, R.Inv, Sorted;
    var l' := Apply(su, l, e);
    var pipe := l.acks + l.data;
    match e {
      case DoLoseData(i) =>
        LosingKeepsSorted(pipe, |l.acks| + i);
        assert l'.acks + l'.data == pipe[..|l.acks| + i] + pipe[|l.acks| + i + 1..];
      case DoLoseAck(i) =>
        LosingKeepsSorted(pipe, i);
        assert l'.acks + l'.data == pipe[..i] + pipe[i + 1..];
    }
    FewerFramesKeep(su, l, l');
  }

  lemma ApplyKeeps(su: Setup, l: Link, e: Event)
    requires ValidSetup(su) && LinkInv(su, l) && NoCollision(l.sender.order) && Enabled(su, l, e)
    ensures LinkInv(su, Apply(su, l, e))
  {
    match e
    case DoSubmit(id, data) => SubmitKeeps(su, l, id, data);
    case DoLocal(le) => LocalKeeps(su, l, le);
    case DoDeliverData => DeliverDataKeeps(su, l);
    case DoDeliverAck =>
      assert AckOk(su.firmware.protocol, l, l.acks[0]);
      DeliverAckIsOnAck(su, l);
      AckIsCurrent(su, l, l.acks[0]);
      AckKeeps(su, l);
    case DoLoseData(i) => LosingKeeps(su, l, e);
    case DoLoseAck(i) => LosingKeeps(su, l, e);
  }

  // ---------------------------------------------------------------------
  // Whole runs
  // ---------------------------------------------------------------------

  lemma AttemptOrderGrows(cfg: R.Settings, s: R.Sender, key: byte)
    ensures var s' := R.AttemptSend(cfg, s, key);
            && (s'.order == s.order || (s'.order == s.order + [key] && key in s.pending))
            && s'.pending.Keys == s.pending.Keys
  {
    hide Injected, Increment, R.NextGeneration;
  }

  lemma SendOrderGrows(cfg: R.Settings, s: R.Sender, key: byte, bytes: seq<byte>)
    ensures var s' := R.Send(cfg, s, key, bytes);
            && (s'.order == s.order || s'.order == s.order + [key])
            && s'.pending.Keys == s.pending.Keys + {key}
  {
    hide R.AttemptSend;
    AttemptOrderGrows(cfg, R.Queued(s, key, bytes), key);
  }

  lemma AckOrderGrows(cfg: R.Settings, s: R.Sender, key: byte, seqNo: byte)
    ensures var s' := R.OnAckReceived(cfg, s, key, seqNo);
            && (s'.order == s.order || (s'.order == s.order + [key] && key in s.pending))
            && s'.pending.Keys <= s.pending.Keys
  {
    hide R.AttemptSend;
    if R.Accepts(s, key, seqNo) {
      AttemptOrderGrows(cfg, R.Popped(s, key), key);
    }
  }

  lemma LocalOrderGrows(cfg: R.Settings, s: R.Sender, e: R.Event)
    requires R.Enabled(s, e) && !e.DoSend? && !e.DoAck?
    ensures var s' := R.Apply(cfg, s, e);
            && (s'.order == s.order || (s'.order == s.order + [R.KeyOf(e)] && R.KeyOf(e) in s.pending))
            && s'.pending.Keys <= s.pending.Keys
  {
    hide R.AttemptSend;
    if e.DoTimeout? {
      var t := e.ticket;
      var s0 := s.(expired := s.expired - multiset{t});
      if R.HasFront(s0, t.key) {
        AttemptOrderGrows(cfg, R.TimedOut(cfg, s0, t.key), t.key);
      }
    }
  }

  lemma {:induction false} PacketsOrderGrows(su: Setup, l: Link, packets: seq<Packet>)
    ensures l.sender.order <= OnPackets(su, l, packets).sender.order
    decreases |packets|
  {
    hide R.OnAckReceived, NewFrames;
    if packets != [] {
      var pkt := packets[0];
      if pkt.id == ACK_ID && |pkt.payload| == 2 {
        AckOrderGrows(Cfg(su), l.sender, pkt.payload[0], pkt.payload[1]);
        PacketsOrderGrows(su, OnAck(su, l, pkt.payload[0], pkt.payload[1]), packets[1..]);
      } else {
        PacketsOrderGrows(su, l, packets[1..]);
      }
    }
  }

  lemma {:induction false} EventsKeepSender(l: Link, d: Datagram, events: seq<M.Event>)
    ensures WithEvents(l, d, events).sender == l.sender
    decreases |events|
  {
    if events != [] {
      var l' := match events[0]
        case Received(id, payload) => l.(calls := l.calls[id := Calls(l, id) + [Call(d.index, payload)]])
        case Written(frame) => l.(acks := l.acks + [Datagram(frame, d.id, d.index)]);
      EventsKeepSender(l', d, events[1..]);
    }
  }

  lemma OrderGrows(su: Setup, l: Link, e: Event)
    requires ValidSetup(su) && Enabled(su, l, e)
    ensures l.sender.order <= Apply(su, l, e).sender.order
  {
    hide R.Apply, R.Send, R.Enabled, NewFrames, P.Parse, M.Run, FrameOf, M.Inv;
    match e
    case DoSubmit(id, data) =>
      SendOrderGrows(Cfg(su), l.sender, id, FrameOf(su.firmware.protocol, id, data));
    case DoLocal(le) => LocalOrderGrows(Cfg(su), l.sender, le);
    case DoDeliverData =>
      var out := M.Run(su.firmware, l.mcu, l.data[0].bytes);
      EventsKeepSender(l.(data := l.data[1..], mcu := out.mcu), l.data[0], out.events);
    case DoDeliverAck =>
      PacketsOrderGrows(su, l.(acks := l.acks[1..]),
          P.Parse(su.firmware.protocol, su.capacity, l.acks[0].bytes).packets);
    case DoLoseData(i) =>
    case DoLoseAck(i) =>
  }

  lemma InitialInv(su: Setup, l: Link)
    requires ValidSetup(su) && Initial(su, l)
    ensures LinkInv(su, l)
  {
    R.InitialInv();
    forall id: byte
      ensures IdOk(su.firmware.protocol, l, id)
    {
    }
  }

  lemma {:induction false} RunKeeps(su: Setup, start: Link, events: seq<Event>)
    requires ValidSetup(su) && Initial(su, start)
    requires After(su, start, events).Reached? && NoCollision(After(su, start, events).link.sender.order)
    ensures LinkInv(su, After(su, start, events).link)
  {
    hide LinkInv, Apply, Enabled, NoCollision;
    if events == [] {
      InitialInv(su, start);
    } else {
      var n := |events| - 1;
      var before := After(su, start, events[..n]).link;
      OrderGrows(su, before, events[n]);
      NoCollisionBefore(before.sender.order, Apply(su, before, events[n]).sender.order);
      RunKeeps(su, start, events[..n]);
      ApplyKeeps(su, before, events[n]);
    }
  }

  /** The callbacks of one ID with immediate repeats of a message left out. */
  function Collapse(calls: seq<Call>): seq<seq<byte>>
  {
    if calls == [] then []
    else
      var n := |calls| - 1;
      Collapse(calls[..n]) + if n > 0 && calls[n].index == calls[n - 1].index then [] else [calls[n].data]
  }

  lemma {:induction false} CollapseIsPrefix(calls: seq<Call>, sub: seq<seq<byte>>)
    requires Staircase(calls, sub)
    ensures Reach(calls) <= |sub| && Collapse(calls) == sub[..Reach(calls)]
  {
    if calls != [] {
      CollapseIsPrefix(calls[..|calls| - 1], sub);
    }
  }

  /** What the link promises for one ID: leaving out repeats, the callbacks are the first messages
      submitted, in order, with their own bytes, and they include every message that has left the
      queue; at most one more has been called back. */
  ghost predicate Delivered(l: Link, id: byte)
  {
    && Collapse(Calls(l, id)) <= Submitted(l, id)
    && PoppedCount(l, id) <= |Collapse(Calls(l, id))| <= PoppedCount(l, id) + 1
  }

  /** At-least-once delivery in order, for every ID, over every run in which no two consecutive
      messages of an ID were given the same sequence byte. */
  lemma AtLeastOnceInOrder(su: Setup, start: Link, events: seq<Event>, id: byte)
    requires ValidSetup(su) && Initial(su, start)
    requires After(su, start, events).Reached? && NoCollision(After(su, start, events).link.sender.order)
    ensures Delivered(After(su, start, events).link, id)
  {
    var l := After(su, start, events).link;
    RunKeeps(su, start, events);
    assert IdOk(su.firmware.protocol, l, id);
    CollapseIsPrefix(Calls(l, id), Submitted(l, id));
    CarriesSizes(su.firmware.protocol, l.sender, id, PoppedCount(l, id), Submitted(l, id));
  }

  // ---------------------------------------------------------------------
  // One reliable ID: no condition at all
  // ---------------------------------------------------------------------

  lemma {:induction false} OccurrencesOfOne(order: seq<byte>, id: byte)
    requires forall k | k in order :: k == id
    ensures |Occurrences(order, id)| == |order|
    ensures forall i | 0 <= i < |order| :: Occurrences(order, id)[i] == i
    ensures forall k: byte | k != id :: Occurrences(order, k) == []
  {
    if order != [] {
      assert order[|order| - 1] in order;
      var before := order[..|order| - 1];
      forall k | k in before
        ensures k == id
      {
        assert k in order;
      }
      OccurrencesOfOne(before, id);
    }
  }

  lemma OneIdNeverCollides(order: seq<byte>, id: byte)
    requires forall k | k in order :: k == id
    ensures NoCollision(order)
  {
    OccurrencesOfOne(order, id);
    forall k: byte, i | 0 < i < |Occurrences(order, k)|
      ensures SeqOf(order, k, i) != SeqOf(order, k, i - 1)
    {
      assert k == id;
    }
  }

  ghost predicate OnlyKey(s: R.Sender, id: byte)
  {
    s.pending.Keys <= {id} && forall k | k in s.order :: k == id
  }

  lemma {:induction false} PacketsOnlyKey(su: Setup, l: Link, packets: seq<Packet>, id: byte)
    requires OnlyKey(l.sender, id)
    ensures OnlyKey(OnPackets(su, l, packets).sender, id)
    decreases |packets|
  {
    hide R.OnAckReceived, NewFrames;
    if packets != [] {
      var pkt := packets[0];
      if pkt.id == ACK_ID && |pkt.payload| == 2 {
        AckOrderGrows(Cfg(su), l.sender, pkt.payload[0], pkt.payload[1]);
        PacketsOnlyKey(su, OnAck(su, l, pkt.payload[0], pkt.payload[1]), packets[1..], id);
      } else {
        PacketsOnlyKey(su, l, packets[1..], id);
      }
    }
  }

  lemma ApplyOnlyKey(su: Setup, l: Link, e: Event, id: byte)
    requires ValidSetup(su) && Enabled(su, l, e) && OnlyKey(l.sender, id)
    requires e.DoSubmit? ==> e.id == id
    ensures OnlyKey(Apply(su, l, e).sender, id)
  {
    hide R.Apply, R.Send, R.Enabled, NewFrames, P.Parse, M.Run, FrameOf, M.Inv;
    match e
    case DoSubmit(_, data) =>
      SendOrderGrows(Cfg(su), l.sender, id, FrameOf(su.firmware.protocol, id, data));
    case DoLocal(le) => LocalOrderGrows(Cfg(su), l.sender, le);
    case DoDeliverData =>
      var out := M.Run(su.firmware, l.mcu, l.data[0].bytes);
      EventsKeepSender(l.(data := l.data[1..], mcu := out.mcu), l.data[0], out.events);
    case DoDeliverAck =>
      PacketsOnlyKey(su, l.(acks := l.acks[1..]),
          P.Parse(su.firmware.protocol, su.capacity, l.acks[0].bytes).packets, id);
    case DoLoseData(i) =>
    case DoLoseAck(i) =>
  }

  lemma {:induction false} RunOnlyKey(su: Setup, start: Link, events: seq<Event>, id: byte)
    requires ValidSetup(su) && Initial(su, start) && After(su, start, events).Reached?
    requires forall e | e in events && e.DoSubmit? :: e.id == id
    ensures OnlyKey(After(su, start, events).link.sender, id)
  {
    hide Apply, Enabled;
    if events != [] {
      var n := |events| - 1;
      RunOnlyKey(su, start, events[..n], id);
      ApplyOnlyKey(su, After(su, start, events[..n]).link, events[n], id);
    }
  }

  /** With one reliable ID in use the sequence byte may wrap as often as it likes. */
  lemma OneIdIsDelivered(su: Setup, start: Link, events: seq<Event>, id: byte)
    requires ValidSetup(su) && Initial(su, start) && After(su, start, events).Reached?
    requires forall e | e in events && e.DoSubmit? :: e.id == id
    ensures Delivered(After(su, start, events).link, id)
  {
    RunOnlyKey(su, start, events, id);
    OneIdNeverCollides(After(su, start, events).link.sender.order, id);
    AtLeastOnceInOrder(su, start, events, id);
  }
}
