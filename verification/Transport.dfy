/** Reliable delivery end to end: the sender, two first-in first-out channels that may lose any
    frame at any time, and the microcontroller's receiver, in one state machine over whole runs. */
module Transport {
  import opened Checksums
  import opened Wire
  import M = McuReceiver
  import P = StreamParser
  import R = ReliableSending

  /** Both ends of one link; `capacity` is the host's receive ring. */
  datatype Setup = Setup(firmware: M.Firmware, capacity: nat, warningThreshold: int)

  ghost predicate ValidSetup(su: Setup)
  {
    && M.ValidFirmware(su.firmware)
    && su.firmware.protocol.maxPayload + OVERHEAD <= su.capacity - 1
  }

  function Cfg(su: Setup): R.Settings
  {
    R.Settings(su.firmware.protocol.algo, su.warningThreshold)
  }

  /** A frame in a channel. `id` and `index` say which message it carries or acknowledges; no step
      looks at them except to pass them on. */
  datatype Datagram = Datagram(bytes: seq<byte>, id: byte, index: nat)

  /** A callback with the bytes it was given; `index` is the message its frame carried. */
  datatype Call = Call(index: nat, data: seq<byte>)

  /** The whole link, with three histories per ID: the messages submitted, how many of them have
      left the queue as delivered, and the callbacks. */
  datatype Link = Link(
    sender: R.Sender, mcu: M.Mcu, data: seq<Datagram>, acks: seq<Datagram>,
    submitted: map<byte, seq<seq<byte>>>, popped: map<byte, nat>, calls: map<byte, seq<Call>>)

  function Submitted(l: Link, id: byte): seq<seq<byte>>
  {
    if id in l.submitted then l.submitted[id] else []
  }

  function PoppedCount(l: Link, id: byte): nat
  {
    if id in l.popped then l.popped[id] else 0
  }

  function Calls(l: Link, id: byte): seq<Call>
  {
    if id in l.calls then l.calls[id] else []
  }

  ghost predicate Initial(su: Setup, l: Link)
  {
    && l.sender == R.INITIAL
    && M.Idle(su.firmware.protocol, l.mcu)
    && l.data == [] && l.acks == []
    && l.submitted == map[] && l.popped == map[] && l.calls == map[]
  }

  // ---------------------------------------------------------------------
  // Steps
  // ---------------------------------------------------------------------

  /** The frames that a sender step handed to the link, all of them carrying the front of `id`. */
  function NewFrames(s: R.Sender, s': R.Sender, id: byte, index: nat): seq<Datagram>
  {
    if |s'.sent| <= |s.sent| then []
    else seq(|s'.sent| - |s.sent|, i requires 0 <= i < |s'.sent| - |s.sent| => Datagram(s'.sent[|s.sent| + i], id,
        index))
  }

  function WithSender(l: Link, s': R.Sender, id: byte): Link
  {
    l.(sender := s', data := l.data + NewFrames(l.sender, s', id, PoppedCount(l, id)))
  }

  function Submit(su: Setup, l: Link, id: byte, data: seq<byte>): Link
    requires |data| <= 255
  {
    var bytes := FrameOf(su.firmware.protocol, id, data);
    WithSender(l.(submitted := l.submitted[id := Submitted(l, id) + [data]]),
               R.Send(Cfg(su), l.sender, id, bytes), id)
  }

  /** What the microcontroller did with one frame: callbacks are logged, written frames enter the
      return channel. */
  function WithEvents(l: Link, d: Datagram, events: seq<M.Event>): Link
    decreases |events|
  {
    if events == [] then l
    else
      var l' := match events[0]
        case Received(id, payload) => l.(calls := l.calls[id := Calls(l, id) + [Call(d.index, payload)]])
        case Written(frame) => l.(acks := l.acks + [Datagram(frame, d.id, d.index)]);
      WithEvents(l', d, events[1..])
  }

  function DeliverData(su: Setup, l: Link): Link
    requires l.data != [] && M.Inv(su.firmware.protocol, l.mcu)
  {
    var d := l.data[0];
    var out := M.Run(su.firmware, l.mcu, d.bytes);
    WithEvents(l.(data := l.data[1..], mcu := out.mcu), d, out.events)
  }

  function OnAck(su: Setup, l: Link, id: byte, seqNo: byte): Link
  {
    var accepted := R.Accepts(l.sender, id, seqNo);
    WithSender(if accepted then l.(popped := l.popped[id := PoppedCount(l, id) + 1]) else l,
               R.OnAckReceived(Cfg(su), l.sender, id, seqNo), id)
  }

  /** The host's packet handler, as far as acknowledgements go. */
  function OnPackets(su: Setup, l: Link, packets: seq<Packet>): Link
    decreases |packets|
  {
    if packets == [] then l
    else
      var pkt := packets[0];
      var l' := if pkt.id == ACK_ID && |pkt.payload| == 2 then OnAck(su, l, pkt.payload[0], pkt.payload[1]) else l;
      OnPackets(su, l', packets[1..])
  }

  function DeliverAck(su: Setup, l: Link): Link
    requires l.acks != []
  {
    var parsed := P.Parse(su.firmware.protocol, su.capacity, l.acks[0].bytes);
    OnPackets(su, l.(acks := l.acks[1..]), parsed.packets)
  }

  datatype Event =
    | DoSubmit(id: byte, data: seq<byte>)
    | DoLocal(e: R.Event)
    | DoDeliverData
    | DoDeliverAck
    | DoLoseData(i: nat)
    | DoLoseAck(i: nat)

  /** Messages are submitted through their generated structures; completions and timers are the
      sender's own; acknowledgements come through the channel only. */
  ghost predicate Enabled(su: Setup, l: Link, e: Event)
    requires ValidSetup(su)
  {
    var p := su.firmware.protocol;
    match e
    case DoSubmit(id, data) => id in p.reliable && |data| == StructSize(p, id)
    case DoLocal(le) => !le.DoSend? && !le.DoAck? && R.Enabled(l.sender, le)
    case DoDeliverData => l.data != [] && M.Inv(p, l.mcu)
    case DoDeliverAck => l.acks != []
    case DoLoseData(i) => i < |l.data|
    case DoLoseAck(i) => i < |l.acks|
  }

  ghost function Apply(su: Setup, l: Link, e: Event): Link
    requires ValidSetup(su) && Enabled(su, l, e)
  {
    match e
    case DoSubmit(id, data) => Submit(su, l, id, data)
    case DoLocal(le) => WithSender(l, R.Apply(Cfg(su), l.sender, le), R.KeyOf(le))
    case DoDeliverData => DeliverData(su, l)
    case DoDeliverAck => DeliverAck(su, l)
    case DoLoseData(i) => l.(data := l.data[..i] + l.data[i + 1..])
    case DoLoseAck(i) => l.(acks := l.acks[..i] + l.acks[i + 1..])
  }

  datatype Maybe = Impossible | Reached(link: Link)

  /** The state after the events, if each of them is enabled when its turn comes. */
  ghost function After(su: Setup, start: Link, events: seq<Event>): Maybe
    requires ValidSetup(su)
  {
    if events == [] then Reached(start)
    else
      var before := After(su, start, events[..|events| - 1]);
      var e := events[|events| - 1];
      if before.Reached? && Enabled(su, before.link, e) then Reached(Apply(su, before.link, e)) else Impossible
  }

  // ---------------------------------------------------------------------
  // Sequence bytes
  // ---------------------------------------------------------------------

  /** The positions at which `id` was given a sequence byte. */
  function Occurrences(order: seq<byte>, id: byte): seq<nat>
  {
    if order == [] then []
    else
      var n := |order| - 1;
      Occurrences(order[..n], id) + if order[n] == id then [n] else []
  }

  /** The sequence byte of the `i`-th message of `id`. */
  function SeqOf(order: seq<byte>, id: byte, i: nat): byte
    requires i < |Occurrences(order, id)|
  {
    Occurrences(order, id)[i] % 256
  }

  /** No two consecutive messages of one ID have the same sequence byte. */
  ghost predicate NoCollision(order: seq<byte>)
  {
    forall id: byte, i | 0 < i < |Occurrences(order, id)| :: SeqOf(order, id, i) != SeqOf(order, id, i - 1)
  }

  lemma {:induction false} OccurrencesGrow(order: seq<byte>, more: seq<byte>, id: byte)
    ensures Occurrences(order, id) <= Occurrences(order + more, id)
  {
    if more == [] {
      assert order + more == order;
    } else {
      var n := |more| - 1;
      OccurrencesGrow(order, more[..n], id);
      assert (order + more)[..|order| + n] == order + more[..n];
    }
  }

  lemma OccurrencesSnoc(order: seq<byte>, key: byte, id: byte)
    ensures Occurrences(order + [key], id) == Occurrences(order, id) + if key == id then [|order|] else []
  {
    assert (order + [key])[..|order|] == order;
  }

  lemma NoCollisionBefore(order: seq<byte>, order': seq<byte>)
    requires order <= order' && NoCollision(order')
    ensures NoCollision(order)
  {
    forall id: byte, i | 0 < i < |Occurrences(order, id)|
      ensures SeqOf(order, id, i) != SeqOf(order, id, i - 1)
    {
      OccurrencesGrow(order, order'[|order|..], id);
      assert order + order'[|order|..] == order';
      assert SeqOf(order', id, i) != SeqOf(order', id, i - 1);
    }
  }

  // ---------------------------------------------------------------------
  // What the sender carries
  // ---------------------------------------------------------------------

  function Queue(s: R.Sender, id: byte): seq<R.Entry>
  {
    if id in s.pending then s.pending[id] else []
  }

  ghost predicate SizesOk(p: Protocol, id: byte, sub: seq<seq<byte>>)
    requires Valid(p)
  {
    sub != [] ==> id in p.reliable && forall i | 0 <= i < |sub| :: |sub[i]| == StructSize(p, id)
  }

  /** The bytes of the `i`-th message with its sequence byte. */
  ghost function FullFrame(p: Protocol, order: seq<byte>, id: byte, sub: seq<seq<byte>>, i: nat): seq<byte>
    requires Valid(p) && SizesOk(p, id, sub) && i < |sub| && i < |Occurrences(order, id)|
  {
    FrameOf(p, id, sub[i] + [SeqOf(order, id, i)])
  }

  /** Entry `i` of the queue is message `first + i` of its ID. */
  ghost predicate CarriesEntry(p: Protocol, s: R.Sender, id: byte, first: nat, sub: seq<seq<byte>>, i: nat)
    requires Valid(p) && SizesOk(p, id, sub)
    requires i < |Queue(s, id)| && |sub| == first + |Queue(s, id)|
    requires |Occurrences(s.order, id)| == first + if Queue(s, id)[0].numbered then 1 else 0
  {
    var entry := Queue(s, id)[i];
    if i == 0 && entry.numbered then
      entry.seqNo == SeqOf(s.order, id, first) && entry.bytes == FullFrame(p, s.order, id, sub, first)
    else
      !entry.numbered && entry.bytes == FrameOf(p, id, sub[first + i])
  }

  /** The queue of `id` holds the messages from `first` on, in order; the earlier ones and a
      numbered front have been given sequence bytes. */
  ghost predicate Carries(p: Protocol, s: R.Sender, id: byte, first: nat, sub: seq<seq<byte>>)
    requires Valid(p)
  {
    var queue := Queue(s, id);
    && SizesOk(p, id, sub)
    && |sub| == first + |queue|
    && |Occurrences(s.order, id)| == first + (if queue != [] && queue[0].numbered then 1 else 0)
    && forall i | 0 <= i < |queue| :: CarriesEntry(p, s, id, first, sub, i)
  }

  lemma AttemptCarries(su: Setup, s: R.Sender, key: byte, first: nat, sub: seq<seq<byte>>)
    requires ValidSetup(su) && Carries(su.firmware.protocol, s, key, first, sub)
    requires s.counter == |s.order| % 256
    ensures var s' := R.AttemptSend(Cfg(su), s, key);
            && Carries(su.firmware.protocol, s', key, first, sub)
            && s.order <= s'.order
            && (s'.sent == s.sent
                || (&& Queue(s', key) != [] && first < |Occurrences(s'.order, key)| && first < |sub|
                    && s'.sent == s.sent + [FullFrame(su.firmware.protocol, s'.order, key, sub, first)]))
  {
    hide Injected, FrameOf;
    var p := su.firmware.protocol;
    var queue := Queue(s, key);
    if queue != [] && !queue[0].inProgress {
      var s' := R.AttemptSend(Cfg(su), s, key);
      OccurrencesSnoc(s.order, key, key);
      assert CarriesEntry(p, s, key, first, sub, 0);
      if !queue[0].numbered {
        InjectionLaw(p, key, sub[first], s.counter);
      }
      forall i | 0 <= i < |Queue(s', key)|
        ensures CarriesEntry(p, s', key, first, sub, i)
      {
        assert CarriesEntry(p, s, key, first, sub, i);
      }
    }
  }

  /** `Carries` looks at the queue and at the sequence bytes of its ID only. */
  lemma CarriesSame(p: Protocol, s: R.Sender, s': R.Sender, id: byte, first: nat, sub: seq<seq<byte>>)
    requires Valid(p) && Carries(p, s, id, first, sub)
    requires |Queue(s', id)| == |Queue(s, id)| && Occurrences(s'.order, id) == Occurrences(s.order, id)
    requires forall i | 0 <= i < |Queue(s, id)| ::
               var e, e' := Queue(s, id)[i], Queue(s', id)[i];
               e.numbered == e'.numbered && e.seqNo == e'.seqNo && e.bytes == e'.bytes
    ensures Carries(p, s', id, first, sub)
  {
    hide FrameOf;
    forall i | 0 <= i < |Queue(s', id)|
      ensures CarriesEntry(p, s', id, first, sub, i)
    {
      assert CarriesEntry(p, s, id, first, sub, i);
    }
  }

  /** `s` goes to `s'` by a step about `id` that hands over at most the frame of message `first`. */
  ghost predicate Emits(p: Protocol, s: R.Sender, s': R.Sender, id: byte, first: nat, sub: seq<seq<byte>>)
    requires Valid(p)
  {
    && (s'.order == s.order || s'.order == s.order + [id])
    && (s'.sent == s.sent
        || (&& SizesOk(p, id, sub) && first < |Occurrences(s'.order, id)| && first < |sub|
            && s'.sent == s.sent + [FullFrame(p, s'.order, id, sub, first)]))
  }

  lemma AttemptEmits(su: Setup, s: R.Sender, key: byte, first: nat, sub: seq<seq<byte>>)
    requires ValidSetup(su) && Carries(su.firmware.protocol, s, key, first, sub)
    requires s.counter == |s.order| % 256
    ensures var s' := R.AttemptSend(Cfg(su), s, key);
            && Carries(su.firmware.protocol, s', key, first, sub)
            && Emits(su.firmware.protocol, s, s', key, first, sub)
  {
    hide Injected, FrameOf, CarriesEntry;
    AttemptCarries(su, s, key, first, sub);
  }

  lemma SubmitCarries(su: Setup, s: R.Sender, id: byte, first: nat, sub: seq<seq<byte>>, data: seq<byte>)
    requires ValidSetup(su) && Carries(su.firmware.protocol, s, id, first, sub)
    requires s.counter == |s.order| % 256
    requires id in su.firmware.protocol.reliable && |data| == StructSize(su.firmware.protocol, id)
    ensures var p := su.firmware.protocol;
            var s' := R.Send(Cfg(su), s, id, FrameOf(p, id, data));
            Carries(p, s', id, first, sub + [data]) && Emits(p, s, s', id, first, sub + [data])
  {
    var p := su.firmware.protocol;
    QueuedCarries(p, s, id, first, sub, data);
    hide FrameOf, R.AttemptSend, Carries;
    AttemptEmits(su, R.Queued(s, id, FrameOf(p, id, data)), id, first, sub + [data]);
  }

  lemma QueuedCarries(p: Protocol, s: R.Sender, id: byte, first: nat, sub: seq<seq<byte>>, data: seq<byte>)
    requires Valid(p) && Carries(p, s, id, first, sub)
    requires id in p.reliable && |data| == StructSize(p, id)
    ensures Carries(p, R.Queued(s, id, FrameOf(p, id, data)), id, first, sub + [data])
  {
    hide FrameOf;
    var s' := R.Queued(s, id, FrameOf(p, id, data));
    forall i | 0 <= i < |Queue(s', id)|
      ensures CarriesEntry(p, s', id, first, sub + [data], i)
    {
      if i < |Queue(s, id)| {
        assert CarriesEntry(p, s, id, first, sub, i);
      }
    }
  }

  lemma AckCarries(su: Setup, s: R.Sender, id: byte, seqNo: byte, first: nat, sub: seq<seq<byte>>)
    requires ValidSetup(su) && Carries(su.firmware.protocol, s, id, first, sub)
    requires R.Inv(s)
    ensures var p := su.firmware.protocol;
            var s' := R.OnAckReceived(Cfg(su), s, id, seqNo);
            var first' := if R.Accepts(s, id, seqNo) then first + 1 else first;
            Carries(p, s', id, first', sub) && Emits(p, s, s', id, first', sub)
  {
    hide FrameOf, R.AttemptSend;
    var p := su.firmware.protocol;
    assert R.KeyOk(s, id);
    if R.Accepts(s, id, seqNo) {
      var s' := R.Popped(s, id);
      assert Queue(s', id) == Queue(s, id)[1..];
      var next := first + 1;
      forall i | 0 <= i < |Queue(s', id)|
        ensures CarriesEntry(p, s', id, next, sub, i)
      {
        assert CarriesEntry(p, s, id, first, sub, i + 1);
      }
      AttemptEmits(su, s', id, first + 1, sub);
    }
  }

  lemma CompleteCarries(su: Setup, s: R.Sender, c: R.Completion, success: bool, first: nat, sub: seq<seq<byte>>)
    requires ValidSetup(su) && Carries(su.firmware.protocol, s, c.key, first, sub) && c in s.completions
    ensures var s' := R.HandleSendCompletion(s.(completions := s.completions - multiset{c}), c, success);
            && Carries(su.firmware.protocol, s', c.key, first, sub)
            && s'.order == s.order && s'.sent == s.sent
  {
    hide FrameOf, Carries;
    CarriesSame(su.firmware.protocol, s,
                R.HandleSendCompletion(s.(completions := s.completions - multiset{c}), c, success), c.key, first, sub);
  }

  lemma TimeoutCarries(su: Setup, s: R.Sender, t: R.Ticket, first: nat, sub: seq<seq<byte>>)
    requires ValidSetup(su) && Carries(su.firmware.protocol, s, t.key, first, sub) && t in s.expired
    requires s.counter == |s.order| % 256
    ensures var s' := R.HandleRetryTimeout(Cfg(su), s.(expired := s.expired - multiset{t}), t);
            && Carries(su.firmware.protocol, s', t.key, first, sub)
            && Emits(su.firmware.protocol, s, s', t.key, first, sub)
  {
    hide FrameOf, R.AttemptSend, Carries;
    var p := su.firmware.protocol;
    var s0 := s.(expired := s.expired - multiset{t});
    CarriesSame(p, s, s0, t.key, first, sub);
    if R.HasFront(s0, t.key) && R.Front(s0, t.key).seqNo == t.seqNo {
      var s1 := R.TimedOut(Cfg(su), s0, t.key);
      CarriesSame(p, s, s1, t.key, first, sub);
      AttemptEmits(su, s1, t.key, first, sub);
    }
  }

  lemma LocalCarries(su: Setup, s: R.Sender, e: R.Event, first: nat, sub: seq<seq<byte>>)
    requires ValidSetup(su) && Carries(su.firmware.protocol, s, R.KeyOf(e), first, sub)
    requires s.counter == |s.order| % 256
    requires !e.DoSend? && !e.DoAck? && R.Enabled(s, e)
    ensures var p := su.firmware.protocol;
            var s' := R.Apply(Cfg(su), s, e);
            Carries(p, s', R.KeyOf(e), first, sub) && Emits(p, s, s', R.KeyOf(e), first, sub)
  {
    hide FrameOf, R.HandleSendCompletion, R.HandleRetryTimeout, Carries;
    match e
    case DoComplete(c, success) => CompleteCarries(su, s, c, success, first, sub);
    case DoExpire(timer) =>
      CarriesSame(su.firmware.protocol, s, R.Apply(Cfg(su), s, e), timer.key, first, sub);
    case DoTimeout(t) => TimeoutCarries(su, s, t, first, sub);
  }

  /** A step about one ID leaves what the sender carries for the others. */
  lemma StepCarriesOthers(su: Setup, s: R.Sender, e: R.Event, id: byte, first: nat, sub: seq<seq<byte>>)
    requires ValidSetup(su) && Carries(su.firmware.protocol, s, id, first, sub)
    requires R.Inv(s) && R.Enabled(s, e) && R.KeyOf(e) != id
    requires var s' := R.Apply(Cfg(su), s, e); s'.order == s.order || s'.order == s.order + [R.KeyOf(e)]
    ensures Carries(su.firmware.protocol, R.Apply(Cfg(su), s, e), id, first, sub)
    ensures Occurrences(R.Apply(Cfg(su), s, e).order, id) == Occurrences(s.order, id)
  {
    hide FrameOf, R.Apply, R.Inv, R.Enabled;
    R.OtherKeysUntouched(Cfg(su), s, e, id);
    OccurrencesSnoc(s.order, R.KeyOf(e), id);
    CarriesSame(su.firmware.protocol, s, R.Apply(Cfg(su), s, e), id, first, sub);
  }
}
