/** The stop-and-wait sender: per-ID queues, one shared sequence counter, retry timers and write
    completions. Every handler runs alone on the strand, so each is one step on the state below;
    the pending asynchronous work (armed timers, expired timers whose handler has not run,
    outstanding write completions) is part of that state. */
module ReliableSending {
  import opened Checksums
  import opened Wire
  import opened RingArithmetic

  /** One queued message. `uid` tells the entries of a queue apart; it names the entry's timer. */
  datatype Entry = Entry(
    uid: nat, bytes: seq<byte>, seqNo: byte, numbered: bool, generation: nat,
    retries: nat, inProgress: bool, awaiting: bool)

  /** What a timer's handler remembers, and what a write completion remembers. */
  datatype Ticket = Ticket(key: byte, seqNo: byte)
  datatype Completion = Completion(key: byte, seqNo: byte, generation: nat)
  datatype EntryId = EntryId(key: byte, uid: nat)

  datatype Settings = Settings(algo: Algo, warningThreshold: int)

  /** The sender's fields, the pending asynchronous work, and four histories: the keys in the
      order in which sequence bytes were assigned, the frames handed to the link, and how often
      each entry timed out and was warned about. */
  datatype Sender = Sender(
    pending: map<byte, seq<Entry>>, counter: byte, nextUid: nat,
    armed: map<EntryId, Ticket>, expired: multiset<Ticket>, completions: multiset<Completion>,
    order: seq<byte>, sent: seq<seq<byte>>,
    timeouts: multiset<EntryId>, warnings: multiset<EntryId>)

  const INITIAL: Sender := Sender(map[], 0, 0, map[], multiset{}, multiset{}, [], [], multiset{}, multiset{})

  /** `++` on a uint64. */
  function NextGeneration(g: nat): nat
  {
    if g + 1 == WORD then 0 else g + 1
  }

  predicate HasFront(s: Sender, key: byte)
  {
    key in s.pending && s.pending[key] != []
  }

  function Front(s: Sender, key: byte): Entry
    requires HasFront(s, key)
  {
    s.pending[key][0]
  }

  function WithFront(s: Sender, key: byte, entry: Entry): Sender
    requires HasFront(s, key)
  {
    s.(pending := s.pending[key := [entry] + s.pending[key][1..]])
  }

  function AttemptSend(cfg: Settings, s: Sender, key: byte): Sender
  {
    if !HasFront(s, key) || Front(s, key).inProgress then s
    else
      var entry := Front(s, key);
      var withSeq :=
        if entry.numbered then entry
        else entry.(seqNo := s.counter, bytes := Injected(cfg.algo, entry.bytes, s.counter), numbered := true);
      var sending := withSeq.(inProgress := true, generation := NextGeneration(entry.generation));
      WithFront(s, key, sending).(
        counter := if entry.numbered then s.counter else Increment(s.counter),
        order := if entry.numbered then s.order else s.order + [key],
        sent := s.sent + [sending.bytes],
        completions := s.completions + multiset{Completion(key, sending.seqNo, sending.generation)})
  }

  /** A new entry at the end of its queue. */
  function Queued(s: Sender, key: byte, bytes: seq<byte>): Sender
  {
    var entry := Entry(s.nextUid, bytes, 0, false, 0, 0, false, false);
    var queue := (if key in s.pending then s.pending[key] else []) + [entry];
    s.(pending := s.pending[key := queue], nextUid := s.nextUid + 1)
  }

  function Send(cfg: Settings, s: Sender, key: byte, bytes: seq<byte>): Sender
  {
    var s' := Queued(s, key, bytes);
    if |s'.pending[key]| == 1 then AttemptSend(cfg, s', key) else s'
  }

  /** Re-arming a timer replaces the wait it had. */
  function ScheduleRetry(s: Sender, key: byte): Sender
  {
    if !HasFront(s, key) then s
    else s.(armed := s.armed[EntryId(key, Front(s, key).uid) := Ticket(key, Front(s, key).seqNo)])
  }

  function HandleSendCompletion(s: Sender, c: Completion, success: bool): Sender
  {
    if !HasFront(s, c.key) then s
    else
      var entry := Front(s, c.key);
      if entry.seqNo != c.seqNo || entry.generation != c.generation then s
      else ScheduleRetry(WithFront(s, c.key, entry.(inProgress := false, awaiting := success)), c.key)
  }

  /** A timeout counted, and warned about at every threshold. */
  function TimedOut(cfg: Settings, s: Sender, key: byte): Sender
    requires HasFront(s, key)
  {
    var entry := Front(s, key);
    var id := EntryId(key, entry.uid);
    var warn := cfg.warningThreshold > 0 && entry.retries + 1 >= cfg.warningThreshold;
    WithFront(s, key, entry.(awaiting := false, retries := if warn then 0 else entry.retries + 1)).(
      timeouts := s.timeouts + multiset{id},
      warnings := if warn then s.warnings + multiset{id} else s.warnings)
  }

  function HandleRetryTimeout(cfg: Settings, s: Sender, t: Ticket): Sender
  {
    if !HasFront(s, t.key) || Front(s, t.key).seqNo != t.seqNo then s
    else AttemptSend(cfg, TimedOut(cfg, s, t.key), t.key)
  }

  /** An acknowledgement is accepted when it names the front of its queue and the front waits. */
  predicate Accepts(s: Sender, key: byte, seqNo: byte)
  {
    HasFront(s, key) && Front(s, key).seqNo == seqNo && Front(s, key).awaiting
  }

  /** The front popped and its timer cancelled; an empty queue disappears. */
  function Popped(s: Sender, key: byte): Sender
    requires HasFront(s, key)
  {
    var s' := s.(armed := s.armed - {EntryId(key, Front(s, key).uid)});
    var rest := s.pending[key][1..];
    if rest == [] then s'.(pending := s'.pending - {key})
    else s'.(pending := s'.pending[key := rest])
  }

  function OnAckReceived(cfg: Settings, s: Sender, key: byte, seqNo: byte): Sender
  {
    if !Accepts(s, key, seqNo) then s
    else
      var s' := Popped(s, key);
      if key in s'.pending then AttemptSend(cfg, s', key) else s'
  }

  /** The wait of an armed timer ends; its handler is queued. */
  function Expired(s: Sender, timer: EntryId): Sender
    requires timer in s.armed
  {
    s.(armed := s.armed - {timer}, expired := s.expired + multiset{s.armed[timer]})
  }

  function ClearAll(s: Sender): Sender
  {
    s.(armed := map id | id in s.armed && !Holds(s, id) :: s.armed[id], pending := map[])
  }

  /** The entry is still queued. */
  predicate Holds(s: Sender, id: EntryId)
  {
    id.key in s.pending && HasUid(s.pending[id.key], id.uid)
  }

  predicate HasUid(queue: seq<Entry>, uid: nat)
  {
    exists i | 0 <= i < |queue| :: queue[i].uid == uid
  }

  // ---------------------------------------------------------------------
  // Runs
  // ---------------------------------------------------------------------

  /** The inputs of a run: calls from outside, a write completing, a timer expiring and, some
      time later, the handler of an expired timer running. */
  datatype Event =
    | DoSend(key: byte, bytes: seq<byte>)
    | DoAck(key: byte, seqNo: byte)
    | DoComplete(completion: Completion, success: bool)
    | DoExpire(timer: EntryId)
    | DoTimeout(ticket: Ticket)

  predicate Enabled(s: Sender, e: Event)
  {
    match e
    case DoSend(_, _) => true
    case DoAck(_, _) => true
    case DoComplete(c, _) => c in s.completions
    case DoExpire(timer) => timer in s.armed
    case DoTimeout(t) => t in s.expired
  }

  function Apply(cfg: Settings, s: Sender, e: Event): Sender
    requires Enabled(s, e)
  {
    match e
    case DoSend(key, bytes) => Send(cfg, s, key, bytes)
    case DoAck(key, seqNo) => OnAckReceived(cfg, s, key, seqNo)
    case DoComplete(c, success) =>
      HandleSendCompletion(s.(completions := s.completions - multiset{c}), c, success)
    case DoExpire(timer) => Expired(s, timer)
    case DoTimeout(t) =>
      HandleRetryTimeout(cfg, s.(expired := s.expired - multiset{t}), t)
  }

  datatype Maybe = Impossible | Reached(sender: Sender)

  /** The state after the events, if each of them is enabled when its turn comes. */
  function After(cfg: Settings, events: seq<Event>): Maybe
  {
    if events == [] then Reached(INITIAL)
    else
      var before := After(cfg, events[..|events| - 1]);
      var e := events[|events| - 1];
      if before.Reached? && Enabled(before.sender, e) then Reached(Apply(cfg, before.sender, e)) else Impossible
  }

  // ---------------------------------------------------------------------
  // No lost wake-up
  // ---------------------------------------------------------------------

  /** Something will still happen for this front: its write completes, or its timer fires. */
  ghost predicate Alive(s: Sender, key: byte, entry: Entry)
  {
    if entry.inProgress then
      Completion(key, entry.seqNo, entry.generation) in s.completions
    else
      || (EntryId(key, entry.uid) in s.armed && s.armed[EntryId(key, entry.uid)] == Ticket(key, entry.seqNo))
      || Ticket(key, entry.seqNo) in s.expired
  }

  ghost predicate Untouched(entry: Entry)
  {
    !entry.numbered && !entry.inProgress && !entry.awaiting && entry.retries == 0
  }

  /** Entries in the order of their names, none but the front touched. */
  ghost predicate Shape(queue: seq<Entry>, nextUid: nat)
  {
    && queue != []
    && (forall i | 0 < i < |queue| :: Untouched(queue[i]))
    && (forall i, j | 0 <= i < j < |queue| :: queue[i].uid < queue[j].uid)
    && (forall i | 0 <= i < |queue| :: queue[i].uid < nextUid)
  }

  ghost predicate QueueOk(s: Sender, key: byte)
    requires key in s.pending
  {
    && Shape(s.pending[key], s.nextUid)
    && Front(s, key).numbered
    && (Front(s, key).awaiting ==> !Front(s, key).inProgress)
    && Alive(s, key, Front(s, key))
  }

  /** A completion is outstanding only for the current attempt of a front, and only once. */
  ghost predicate CompletionOk(s: Sender, c: Completion)
  {
    && HasFront(s, c.key)
    && Front(s, c.key).inProgress
    && Front(s, c.key).seqNo == c.seqNo && Front(s, c.key).generation == c.generation
    && s.completions[c] == 1
  }

  /** A timer is armed only for a numbered front, with the front's sequence byte. */
  ghost predicate TimerOk(s: Sender, id: EntryId)
    requires id in s.armed
  {
    && HasFront(s, id.key)
    && Front(s, id.key).uid == id.uid && Front(s, id.key).numbered
    && s.armed[id] == Ticket(id.key, Front(s, id.key).seqNo)
  }

  ghost predicate WorkOk(s: Sender, key: byte)
  {
    && (forall c | c in s.completions && c.key == key :: CompletionOk(s, c))
    && (forall id | id in s.armed && id.key == key :: TimerOk(s, id))
  }

  ghost predicate KeyOk(s: Sender, key: byte)
  {
    WorkOk(s, key) && (key in s.pending ==> QueueOk(s, key))
  }

  ghost predicate Inv(s: Sender)
  {
    s.counter == |s.order| % 256 && forall key: byte :: KeyOk(s, key)
  }

  /** The queue and the pending work of `key` just before an attempt: as `KeyOk` has them, but
      nothing need be under way yet for the front. */
  ghost predicate Ready(s: Sender, key: byte)
  {
    && WorkOk(s, key)
    && key in s.pending && Shape(s.pending[key], s.nextUid)
    && !Front(s, key).awaiting
    && (Front(s, key).numbered || Untouched(Front(s, key)))
    && (Front(s, key).inProgress ==> Alive(s, key, Front(s, key)))
  }

  /** Nothing about `key` changes from `s` to `s'`. */
  ghost predicate SameFor(s: Sender, s': Sender, key: byte)
  {
    && (key in s.pending <==> key in s'.pending)
    && (key in s.pending ==> s.pending[key] == s'.pending[key])
    && (forall c: Completion | c.key == key :: s.completions[c] == s'.completions[c])
    && (forall id: EntryId | id.key == key ::
          (id in s.armed <==> id in s'.armed) && (id in s.armed ==> s.armed[id] == s'.armed[id]))
    && (forall t: Ticket | t.key == key :: s.expired[t] == s'.expired[t])
    && s.nextUid <= s'.nextUid
  }

  lemma SameKeepsOk(s: Sender, s': Sender, key: byte)
    requires KeyOk(s, key) && SameFor(s, s', key)
    ensures KeyOk(s', key)
  {
    forall c | c in s'.completions && c.key == key
      ensures CompletionOk(s', c)
    {
      assert s.completions[c] == s'.completions[c];
      assert CompletionOk(s, c);
    }
    forall id | id in s'.armed && id.key == key
      ensures TimerOk(s', id)
    {
      assert TimerOk(s, id);
    }
    if key in s.pending {
      var entry := Front(s, key);
      var c := Completion(key, entry.seqNo, entry.generation);
      assert s.completions[c] == s'.completions[c];
      var t := Ticket(key, entry.seqNo);
      assert s.expired[t] == s'.expired[t];
    }
  }

  lemma CountMod(n: nat, counter: byte)
    requires counter == n % 256
    ensures Increment(counter) == (n + 1) % 256
  {
  }

  lemma AttemptWakes(cfg: Settings, s: Sender, key: byte)
    requires Ready(s, key)
    ensures KeyOk(AttemptSend(cfg, s, key), key)
  {
    hide Injected, NextGeneration, Increment;
    var s' := AttemptSend(cfg, s, key);
    forall c | c in s'.completions && c.key == key
      ensures CompletionOk(s', c)
    {
      if c in s.completions {
        assert CompletionOk(s, c);
      }
    }
    forall id | id in s'.armed && id.key == key
      ensures TimerOk(s', id)
    {
      assert TimerOk(s, id);
    }
  }

  lemma AttemptElsewhere(cfg: Settings, s: Sender, key: byte, k: byte)
    requires k != key
    ensures SameFor(s, AttemptSend(cfg, s, key), k)
  {
    hide Injected, NextGeneration, Increment;
  }

  lemma AttemptCounts(cfg: Settings, s: Sender, key: byte)
    requires s.counter == |s.order| % 256
    ensures var s' := AttemptSend(cfg, s, key); s'.counter == |s'.order| % 256
  {
    hide Injected, NextGeneration;
    CountMod(|s.order|, s.counter);
  }

  lemma SendKeepsKey(cfg: Settings, s: Sender, key: byte, bytes: seq<byte>)
    requires KeyOk(s, key)
    ensures KeyOk(Send(cfg, s, key, bytes), key)
  {
    hide AttemptSend;
    var s' := Queued(s, key, bytes);
    forall c | c in s'.completions && c.key == key
      ensures CompletionOk(s', c)
    {
      assert CompletionOk(s, c);
    }
    forall id | id in s'.armed && id.key == key
      ensures TimerOk(s', id)
    {
      assert TimerOk(s, id);
    }
    if |s'.pending[key]| == 1 {
      AttemptWakes(cfg, s', key);
    }
  }

  lemma CompletionKeepsKey(s: Sender, c: Completion, success: bool)
    requires KeyOk(s, c.key) && c in s.completions
    ensures KeyOk(HandleSendCompletion(s.(completions := s.completions - multiset{c}), c, success), c.key)
  {
    assert CompletionOk(s, c);
    var s0 := s.(completions := s.completions - multiset{c});
    var s' := HandleSendCompletion(s0, c, success);
    assert s0.completions[c] == 0;
    assert forall d | d in s.completions && d.key == c.key :: CompletionOk(s, d) && d == c;
    forall id | id in s'.armed && id.key == c.key
      ensures TimerOk(s', id)
    {
      if id in s.armed {
        assert TimerOk(s, id);
      }
    }
  }

  lemma ExpiryKeepsKey(s: Sender, timer: EntryId)
    requires KeyOk(s, timer.key) && timer in s.armed
    ensures KeyOk(Expired(s, timer), timer.key)
  {
    assert TimerOk(s, timer);
    assert forall id | id in s.armed && id.key == timer.key :: TimerOk(s, id) && id == timer;
    var s' := Expired(s, timer);
    forall c | c in s'.completions && c.key == timer.key
      ensures CompletionOk(s', c)
    {
      assert CompletionOk(s, c);
    }
  }

  lemma TimeoutKeepsKey(cfg: Settings, s: Sender, t: Ticket)
    requires KeyOk(s, t.key) && t in s.expired
    ensures KeyOk(HandleRetryTimeout(cfg, s.(expired := s.expired - multiset{t}), t), t.key)
  {
    hide AttemptSend, Injected;
    var s0 := s.(expired := s.expired - multiset{t});
    var s' := if HasFront(s0, t.key) && Front(s0, t.key).seqNo == t.seqNo then TimedOut(cfg, s0, t.key) else s0;
    forall c | c in s'.completions && c.key == t.key
      ensures CompletionOk(s', c)
    {
      assert CompletionOk(s, c);
    }
    forall id | id in s'.armed && id.key == t.key
      ensures TimerOk(s', id)
    {
      assert TimerOk(s, id);
    }
    if HasFront(s0, t.key) && Front(s0, t.key).seqNo == t.seqNo {
      AttemptWakes(cfg, s', t.key);
    } else if t.key in s.pending {
      var other := Ticket(t.key, Front(s, t.key).seqNo);
      assert s0.expired[other] == s.expired[other];
    }
  }

  lemma AckKeepsKey(cfg: Settings, s: Sender, key: byte, seqNo: byte)
    requires KeyOk(s, key)
    ensures KeyOk(OnAckReceived(cfg, s, key, seqNo), key)
  {
    hide AttemptSend;
    if Accepts(s, key, seqNo) {
      var s' := Popped(s, key);
      assert forall c | c in s.completions && c.key == key :: CompletionOk(s, c);
      assert forall id | id in s.armed && id.key == key :: TimerOk(s, id);
      if key in s'.pending {
        AttemptWakes(cfg, s', key);
      }
    }
  }

  /** The one key that an event is about. */
  function KeyOf(e: Event): byte
  {
    match e
    case DoSend(key, _) => key
    case DoAck(key, _) => key
    case DoComplete(c, _) => c.key
    case DoExpire(timer) => timer.key
    case DoTimeout(t) => t.key
  }

  lemma SameTwice(s: Sender, s': Sender, s'': Sender, key: byte)
    requires SameFor(s, s', key) && SameFor(s', s'', key)
    ensures SameFor(s, s'', key)
  {
  }

  lemma SendElsewhere(cfg: Settings, s: Sender, key: byte, bytes: seq<byte>, k: byte)
    requires k != key
    ensures SameFor(s, Send(cfg, s, key, bytes), k)
  {
    hide AttemptSend;
    var s' := Queued(s, key, bytes);
    AttemptElsewhere(cfg, s', key, k);
  }

  lemma AckElsewhere(cfg: Settings, s: Sender, key: byte, seqNo: byte, k: byte)
    requires k != key
    ensures SameFor(s, OnAckReceived(cfg, s, key, seqNo), k)
  {
    hide AttemptSend;
    if Accepts(s, key, seqNo) {
      AttemptElsewhere(cfg, Popped(s, key), key, k);
    }
  }

  lemma CompletionElsewhere(s: Sender, c: Completion, success: bool, k: byte)
    requires c in s.completions && k != c.key
    ensures SameFor(s, HandleSendCompletion(s.(completions := s.completions - multiset{c}), c, success), k)
  {
  }

  lemma TimeoutElsewhere(cfg: Settings, s: Sender, t: Ticket, k: byte)
    requires t in s.expired && k != t.key
    ensures SameFor(s, HandleRetryTimeout(cfg, s.(expired := s.expired - multiset{t}), t), k)
  {
    hide AttemptSend;
    var s0 := s.(expired := s.expired - multiset{t});
    if HasFront(s0, t.key) {
      var s1 := TimedOut(cfg, s0, t.key);
      assert SameFor(s, s1, k);
      AttemptElsewhere(cfg, s1, t.key, k);
      SameTwice(s, s1, AttemptSend(cfg, s1, t.key), k);
    }
  }

  lemma OtherKeysUntouched(cfg: Settings, s: Sender, e: Event, k: byte)
    requires Inv(s) && Enabled(s, e) && k != KeyOf(e)
    ensures SameFor(s, Apply(cfg, s, e), k)
  {
    assert KeyOk(s, KeyOf(e));
    hide Send, OnAckReceived, HandleSendCompletion, HandleRetryTimeout, SameFor;
    match e
    case DoSend(key, bytes) => SendElsewhere(cfg, s, key, bytes, k);
    case DoAck(key, seqNo) => AckElsewhere(cfg, s, key, seqNo, k);
    case DoComplete(c, success) => CompletionElsewhere(s, c, success, k);
    case DoExpire(timer) => ExpiryElsewhere(s, timer, k);
    case DoTimeout(t) => TimeoutElsewhere(cfg, s, t, k);
  }

  lemma ExpiryElsewhere(s: Sender, timer: EntryId, k: byte)
    requires timer in s.armed && k != timer.key && s.armed[timer].key == timer.key
    ensures SameFor(s, Expired(s, timer), k)
  {
  }

  lemma ApplyCounts(cfg: Settings, s: Sender, e: Event)
    requires Enabled(s, e) && s.counter == |s.order| % 256
    ensures var s' := Apply(cfg, s, e); s'.counter == |s'.order| % 256
  {
    hide AttemptSend, Injected;
    match e
    case DoSend(key, bytes) =>
      AttemptCounts(cfg, Queued(s, key, bytes), key);
    case DoAck(key, seqNo) =>
      if Accepts(s, key, seqNo) {
        AttemptCounts(cfg, Popped(s, key), key);
      }
    case DoComplete(c, success) =>
    case DoExpire(timer) =>
    case DoTimeout(t) =>
      var s0 := s.(expired := s.expired - multiset{t});
      if HasFront(s0, t.key) {
        AttemptCounts(cfg, TimedOut(cfg, s0, t.key), t.key);
      }
  }

  lemma ApplyKeepsKey(cfg: Settings, s: Sender, e: Event)
    requires Enabled(s, e) && KeyOk(s, KeyOf(e))
    ensures KeyOk(Apply(cfg, s, e), KeyOf(e))
  {
    hide Send, OnAckReceived, HandleSendCompletion, HandleRetryTimeout, KeyOk, Expired;
    match e
    case DoSend(key, bytes) => SendKeepsKey(cfg, s, key, bytes);
    case DoAck(key, seqNo) => AckKeepsKey(cfg, s, key, seqNo);
    case DoComplete(c, success) => CompletionKeepsKey(s, c, success);
    case DoExpire(timer) => ExpiryKeepsKey(s, timer);
    case DoTimeout(t) => TimeoutKeepsKey(cfg, s, t);
  }

  lemma ApplyKeepsInv(cfg: Settings, s: Sender, e: Event)
    requires Inv(s) && Enabled(s, e)
    ensures Inv(Apply(cfg, s, e))
  {
    hide Apply, KeyOk, Enabled;
    var s' := Apply(cfg, s, e);
    forall key: byte
      ensures KeyOk(s', key)
    {
      assert KeyOk(s, key);
      if key == KeyOf(e) {
        ApplyKeepsKey(cfg, s, e);
      } else {
        OtherKeysUntouched(cfg, s, e, key);
        SameKeepsOk(s, s', key);
      }
    }
    ApplyCounts(cfg, s, e);
  }

  lemma {:induction false} ReachableInv(cfg: Settings, events: seq<Event>)
    requires After(cfg, events).Reached?
    ensures Inv(After(cfg, events).sender)
  {
    hide Apply, Enabled;
    if events != [] {
      var n := |events| - 1;
      ReachableInv(cfg, events[..n]);
      ApplyKeepsInv(cfg, After(cfg, events[..n]).sender, events[n]);
    } else {
      InitialInv();
    }
  }

  lemma InitialInv()
    ensures Inv(INITIAL)
  {
  }

  /** In every reachable state each queue is non-empty, its front and nothing else has a sequence
      byte, a front that awaits its acknowledgement is not being written, and something is under
      way for it: the completion of its current attempt or a timer carrying its sequence byte. */
  lemma NoLostWakeUp(cfg: Settings, events: seq<Event>, key: byte)
    requires After(cfg, events).Reached? && key in After(cfg, events).sender.pending
    ensures var s := After(cfg, events).sender;
            var queue := s.pending[key];
            && queue != []
            && (forall i | 0 <= i < |queue| :: queue[i].numbered <==> i == 0)
            && (queue[0].awaiting ==> !queue[0].inProgress)
            && Alive(s, key, queue[0])
  {
    ReachableInv(cfg, events);
    assert KeyOk(After(cfg, events).sender, key);
  }

  // ---------------------------------------------------------------------
  // Queues are first-in first-out, and only an acknowledgement shortens them
  // ---------------------------------------------------------------------

  function Uids(s: Sender, key: byte): seq<nat>
  {
    if key in s.pending then seq(|s.pending[key]|, i requires 0 <= i < |s.pending[key]| => s.pending[key][i].uid)
    else []
  }

  lemma AttemptKeepsUids(cfg: Settings, s: Sender, key: byte, k: byte)
    ensures Uids(AttemptSend(cfg, s, key), k) == Uids(s, k)
  {
    hide Injected, Increment, NextGeneration;
  }

  lemma SendUids(cfg: Settings, s: Sender, k: byte, bytes: seq<byte>, key: byte)
    ensures Uids(Send(cfg, s, k, bytes), key) == if k == key then Uids(s, key) + [s.nextUid] else Uids(s, key)
  {
    hide AttemptSend;
    AttemptKeepsUids(cfg, Queued(s, k, bytes), k, key);
  }

  lemma AckUids(cfg: Settings, s: Sender, k: byte, seqNo: byte, key: byte)
    ensures var before, after := Uids(s, key), Uids(OnAckReceived(cfg, s, k, seqNo), key);
            if k == key && Accepts(s, key, seqNo) then before != [] && after == before[1..] else after == before
  {
    hide AttemptSend;
    if Accepts(s, k, seqNo) {
      AttemptKeepsUids(cfg, Popped(s, k), k, key);
    }
  }

  lemma TimeoutUids(cfg: Settings, s: Sender, t: Ticket, key: byte)
    ensures Uids(HandleRetryTimeout(cfg, s, t), key) == Uids(s, key)
  {
    hide AttemptSend;
    if HasFront(s, t.key) {
      AttemptKeepsUids(cfg, TimedOut(cfg, s, t.key), t.key, key);
    }
  }

  lemma CompletionUids(s: Sender, c: Completion, success: bool, key: byte)
    ensures Uids(HandleSendCompletion(s, c, success), key) == Uids(s, key)
  {
    hide ScheduleRetry;
    if HasFront(s, c.key) {
      var s' := WithFront(s, c.key, Front(s, c.key).(inProgress := false, awaiting := success));
      assert Uids(s', key) == Uids(s, key);
      SchedulingKeepsQueues(s', c.key);
    }
  }

  lemma SchedulingKeepsQueues(s: Sender, key: byte)
    ensures ScheduleRetry(s, key).pending == s.pending
  {
  }

  /** Sending appends one entry, an accepted acknowledgement removes the front, and no other event
      removes, adds or reorders anything: a retry can only stop through an accepted ACK. */
  lemma OnlyAcksRemove(cfg: Settings, s: Sender, e: Event, key: byte)
    requires Enabled(s, e)
    ensures var before, after := Uids(s, key), Uids(Apply(cfg, s, e), key);
            if e.DoSend? && e.key == key then after == before + [s.nextUid]
            else if e.DoAck? && e.key == key && Accepts(s, key, e.seqNo) then before != [] && after == before[1..]
            else after == before
  {
    hide Send, OnAckReceived, HandleSendCompletion, HandleRetryTimeout;
    match e
    case DoSend(k, bytes) => SendUids(cfg, s, k, bytes, key);
    case DoAck(k, seqNo) => AckUids(cfg, s, k, seqNo, key);
    case DoComplete(c, success) =>
      CompletionUids(s.(completions := s.completions - multiset{c}), c, success, key);
    case DoExpire(_) =>
    case DoTimeout(t) => TimeoutUids(cfg, s.(expired := s.expired - multiset{t}), t, key);
  }

  // ---------------------------------------------------------------------
  // Shutting down
  // ---------------------------------------------------------------------

  /** The timers left once the queues of the keys in `done` have been gone through. */
  function Kept(s: Sender, done: set<byte>): map<EntryId, Ticket>
  {
    map id | id in s.armed && !(id.key in done && Holds(s, id)) :: s.armed[id]
  }

  function Without(armed: map<EntryId, Ticket>, key: byte, queue: seq<Entry>): map<EntryId, Ticket>
  {
    map id | id in armed && !(id.key == key && HasUid(queue, id.uid)) :: armed[id]
  }

  lemma KeptMore(s: Sender, done: set<byte>, key: byte)
    requires key in s.pending
    ensures Without(Kept(s, done), key, s.pending[key]) == Kept(s, done + {key})
  {
    hide HasUid;
  }

  lemma KeptAll(s: Sender)
    ensures Kept(s, {}) == s.armed && Kept(s, s.pending.Keys) == ClearAll(s).armed
  {
    hide HasUid;
  }

  lemma ClearedState(s: Sender)
    ensures ClearAll(s) == s.(armed := ClearAll(s).armed, pending := map[])
  {
  }

  lemma NothingArmedForNothing(s: Sender)
    requires Inv(s)
    ensures ClearAll(s).armed == map[]
  {
    forall id | id in s.armed
      ensures Holds(s, id)
    {
      assert KeyOk(s, id.key);
      assert TimerOk(s, id);
    }
  }

  /** Once everything is cleared no timer is left, and work that was already under way (stale
      completions, expired timers, late acknowledgements) neither sends nor queues anything. */
  lemma ClearedIsInert(cfg: Settings, s: Sender, e: Event)
    requires Inv(s) && Enabled(ClearAll(s), e) && !e.DoSend?
    ensures var s' := Apply(cfg, ClearAll(s), e);
            s'.pending == map[] && s'.armed == map[] && s'.sent == s.sent
  {
    NothingArmedForNothing(s);
  }

  lemma HasUidSnoc(queue: seq<Entry>, entry: Entry)
    ensures forall uid :: HasUid(queue + [entry], uid) <==> HasUid(queue, uid) || entry.uid == uid
  {
    var more := queue + [entry];
    forall uid
      ensures HasUid(more, uid) <==> HasUid(queue, uid) || entry.uid == uid
    {
      assert more[|queue|] == entry;
      assert forall i | 0 <= i < |queue| :: more[i] == queue[i];
      if HasUid(queue, uid) {
        var i :| 0 <= i < |queue| && queue[i].uid == uid;
        assert more[i].uid == uid;
      }
    }
  }

  // ---------------------------------------------------------------------
  // The class
  // ---------------------------------------------------------------------

  class ReliableSender {
    const cfg: Settings
    var pending: map<byte, seq<Entry>>
    var counter: byte
    var nextUid: nat
    var armed: map<EntryId, Ticket>
    var expired: multiset<Ticket>
    var completions: multiset<Completion>
    var order: seq<byte>
    var sent: seq<seq<byte>>
    var timeouts: multiset<EntryId>
    var warnings: multiset<EntryId>

    function State(): Sender
      reads this
    {
      Sender(pending, counter, nextUid, armed, expired, completions, order, sent, timeouts, warnings)
    }

    constructor (cfg: Settings)
      ensures this.cfg == cfg && State() == INITIAL
    {
      this.cfg := cfg;
      pending, counter, nextUid := map[], 0, 0;
      armed, expired, completions := map[], multiset{}, multiset{};
      order, sent, timeouts, warnings := [], [], multiset{}, multiset{};
    }

    /** Overwrites the front entry of a queue. */
    method SetFront(key: byte, entry: Entry)
      requires HasFront(State(), key)
      modifies this`pending
      ensures State() == WithFront(old(State()), key, entry)
    {
      pending := pending[key := [entry] + pending[key][1..]];
    }

    method Attempt(key: byte)
      modifies this
      ensures State() == AttemptSend(cfg, old(State()), key)
    {
      hide Injected;
      if key !in pending || pending[key] == [] {
        return;
      }
      var entry := pending[key][0];
      if entry.inProgress {
        return;
      }
      if !entry.numbered {
        var bytes := InjectTrailingSeq(cfg.algo, entry.bytes, counter);
        entry := entry.(seqNo := counter, bytes := bytes, numbered := true);
        counter := Increment(counter);
        order := order + [key];
      }
      entry := entry.(inProgress := true, generation := NextGeneration(entry.generation));
      SetFront(key, entry);
      sent := sent + [entry.bytes];
      completions := completions + multiset{Completion(key, entry.seqNo, entry.generation)};
    }

    method SendMessage(key: byte, bytes: seq<byte>)
      modifies this
      ensures State() == Send(cfg, old(State()), key, bytes)
    {
      hide AttemptSend;
      var entry := Entry(nextUid, bytes, 0, false, 0, 0, false, false);
      nextUid := nextUid + 1;
      var queue := if key in pending then pending[key] else [];
      queue := queue + [entry];
      pending := pending[key := queue];
      assert State() == Queued(old(State()), key, bytes);
      if |queue| == 1 {
        Attempt(key);
      }
    }

    method Schedule(key: byte)
      modifies this`armed
      ensures State() == ScheduleRetry(old(State()), key)
    {
      if key in pending && pending[key] != [] {
        var entry := pending[key][0];
        armed := armed[EntryId(key, entry.uid) := Ticket(key, entry.seqNo)];
      }
    }

    method OnSendCompletion(c: Completion, success: bool)
      requires c in completions
      modifies this
      ensures State() == Apply(cfg, old(State()), DoComplete(c, success))
    {
      completions := completions - multiset{c};
      if c.key !in pending || pending[c.key] == [] {
        return;
      }
      var entry := pending[c.key][0];
      if entry.seqNo != c.seqNo || entry.generation != c.generation {
        return;
      }
      SetFront(c.key, entry.(inProgress := false, awaiting := success));
      Schedule(c.key);
    }

    /** Counts a timeout of the front and warns at the threshold. */
    method NoteTimeout(key: byte)
      requires HasFront(State(), key)
      modifies this`pending, this`timeouts, this`warnings
      ensures State() == TimedOut(cfg, old(State()), key)
    {
      var entry := pending[key][0];
      var id := EntryId(key, entry.uid);
      entry := entry.(awaiting := false, retries := entry.retries + 1);
      timeouts := timeouts + multiset{id};
      if cfg.warningThreshold > 0 && entry.retries >= cfg.warningThreshold {
        entry := entry.(retries := 0);
        warnings := warnings + multiset{id};
      }
      SetFront(key, entry);
    }

    method OnRetryTimeout(t: Ticket)
      requires t in expired
      modifies this
      ensures State() == Apply(cfg, old(State()), DoTimeout(t))
    {
      hide AttemptSend, TimedOut;
      expired := expired - multiset{t};
      if t.key !in pending || pending[t.key] == [] {
        return;
      }
      if pending[t.key][0].seqNo != t.seqNo {
        return;
      }
      NoteTimeout(t.key);
      Attempt(t.key);
    }

    method OnAck(key: byte, seqNo: byte)
      modifies this
      ensures State() == OnAckReceived(cfg, old(State()), key, seqNo)
    {
      if key !in pending || pending[key] == [] {
        return;
      }
      var entry := pending[key][0];
      if entry.seqNo != seqNo || !entry.awaiting {
        return;
      }
      armed := armed - {EntryId(key, entry.uid)};
      pending := pending[key := pending[key][1..]];
      if pending[key] == [] {
        pending := pending - {key};
        return;
      }
      Attempt(key);
    }

    /** Cancels the timer of every entry of one queue. */
    method CancelTimers(key: byte, queue: seq<Entry>)
      modifies this`armed
      ensures armed == Without(old(armed), key, queue)
    {
      for i := 0 to |queue|
        invariant armed == Without(old(armed), key, queue[..i])
      {
        assert queue[..i + 1] == queue[..i] + [queue[i]];
        HasUidSnoc(queue[..i], queue[i]);
        armed := armed - {EntryId(key, queue[i].uid)};
      }
      assert queue[..|queue|] == queue;
    }

    method Clear()
      modifies this`pending, this`armed
      ensures State() == ClearAll(old(State()))
    {
      hide Kept, Without, ClearAll;
      ghost var start := State();
      KeptAll(start);
      var keys := pending.Keys;
      ghost var done: set<byte> := {};
      while keys != {}
        invariant pending == start.pending
        invariant keys + done == pending.Keys
        invariant armed == Kept(start, done)
        decreases |keys|
      {
        var key :| key in keys;
        CancelTimers(key, pending[key]);
        KeptMore(start, done, key);
        done := done + {key};
        keys := keys - {key};
      }
      assert done == start.pending.Keys;
      ClearedState(start);
      pending := map[];
    }
  }
}
