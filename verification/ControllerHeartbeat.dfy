/** The heartbeat window on the controller itself: over whole runs of the strand, what the timer
    posts, when an answer ends the wait, and what happens to the link when none came. */
module ControllerHeartbeat {
  import opened Checksums
  import opened Wire
  import opened StreamParser
  import opened SerialControl
  import opened ControllerDispatch
  import H = Heartbeat
  import R = ReliableSending

  /** The strand is about to run the heartbeat timer's task. */
  predicate IsTick(s: Controller, e: Event)
  {
    e.Runs? && s.tasks != [] && s.tasks[0].HeartbeatTimer?
  }

  /** A read of this connection brings an echo of `count`. */
  ghost predicate BringsEcho(cfg: Config, s: Controller, e: Event, count: H.word32)
  {
    && e.ReadEnds? && e.generation == s.generation && e.received.Bytes? && e.received.data != []
    && SomeEcho(Parse(cfg.protocol, cfg.capacity, s.buffer + e.received.data).packets, count)
  }

  // ---------------------------------------------------------------------
  // Everything but the timer
  // ---------------------------------------------------------------------

  lemma HandleWriteSteady(cfg: Config, s: Controller, op: Op, outcome: Outcome, fault: Fault)
    requires op.Writing?
    ensures Steady(s, HandleWrite(cfg, s, op, outcome, fault))
  {
    hide Reset, StartNextWrite, Settle, CompleteOp, Topics;
    ResetSteady(cfg, s);
    var s1 := CompleteOp(s);
    var rest := if s1.queue != [] && s1.queue[0] == op.request then s1.queue[1..] else s1.queue;
    var s2 := s1.(writing := false, queue := rest, ledger := Settle(s1.ledger, op.request, outcome.Succeeded?));
    StartNextWriteSteady(cfg, s2, fault);
    ResetSteady(cfg, s2);
  }

  /** From a link that was up. */
  lemma RunTaskSteady(cfg: Config, s: Controller, task: Task, choice: Choice)
    requires s.connected && !task.HeartbeatTimer?
    ensures Steady(s, RunTask(cfg, s, task, choice))
  {
    hide Reset, AsyncSend, HandOver, R.Send, Topics;
    ResetSteady(cfg, s);
    match task
    case Transmit(bytes) => AsyncSendSteady(cfg, s, bytes, None, choice.fault);
    case ReliableSend(id, bytes) =>
      HandOverSteady(cfg, s, R.Send(SenderSettings(cfg), s.ledger.sender, id, bytes), id, choice.fault);
    case _ =>
  }

  lemma RetryTimeoutSteady(cfg: Config, s: Controller, t: R.Ticket, fault: Fault)
    ensures Steady(s, RetryTimeout(cfg, s, t, fault))
  {
    hide HandOver, R.HandleRetryTimeout, Topics;
    var sender := s.ledger.sender.(expired := s.ledger.sender.expired - multiset{t});
    HandOverSteady(cfg, s, R.HandleRetryTimeout(SenderSettings(cfg), sender, t), t.key, fault);
  }

  /** A read on a running link after which it is still up. */
  lemma ReadKeepsTheBeat(cfg: Config, s: Controller, generation: nat, received: Received, throws: bool)
    requires 8 <= cfg.capacity && s.connected && s.running
    requires HandleReceive(cfg, s, generation, received, throws).connected
    ensures var r := HandleReceive(cfg, s, generation, received, throws);
            && r.running && r.generation == s.generation
            && r.beat == s.beat.(awaiting := s.beat.awaiting
                                   && !BringsEcho(cfg, s, ReadEnds(generation, received, throws), s.beat.lastTx))
  {
    hide HandleReceive, Parse, Topics, SomeEcho, HearsAll, ShowsAll;
    ReadIsHeard(cfg, s, generation, received, throws);
    RunningHears(cfg, MoodOf(s), PacketsRead(cfg, s, generation, received));
    NoPacketsNoEcho(s.beat.lastTx);
  }

  lemma NoPacketsNoEcho(count: H.word32)
    ensures !SomeEcho([], count)
  {
  }

  /** Nothing but the timer and the answer touches the heartbeat of a running link. */
  lemma OthersKeepTheBeat(cfg: Config, s: Controller, e: Event)
    requires 8 <= cfg.capacity && Enabled(s, e) && !IsTick(s, e)
    requires s.connected && s.running && Apply(cfg, s, e).connected
    ensures var r := Apply(cfg, s, e);
            && r.running && r.generation == s.generation
            && r.beat == s.beat.(awaiting := s.beat.awaiting && !BringsEcho(cfg, s, e, s.beat.lastTx))
  {
    hide RunTask, HandleReceive, HandleWrite, RetryTimeout, R.Expired, Topics, SomeEcho, Parse;
    match e
    case Runs(choice) => RunTaskSteady(cfg, s.(tasks := s.tasks[1..]), s.tasks[0], choice);
    case Retries(t, fault) => RetryTimeoutSteady(cfg, s, t, fault);
    case ReadEnds(generation, received, throws) =>
      ReadKeepsTheBeat(cfg, s.(outstanding := s.outstanding - multiset{Reading(generation)}), generation, received,
          throws);
    case WriteEnds(op, outcome, fault) =>
      HandleWriteSteady(cfg, s.(outstanding := s.outstanding - multiset{op}), op, outcome, fault);
    case _ =>
  }

  // ---------------------------------------------------------------------
  // One tick
  // ---------------------------------------------------------------------

  function Beating(cfg: Config, count: H.word32): Task
  {
    Transmit(FrameOf(cfg.protocol, HEARTBEAT_ID, BytesOf(count)))
  }

  /** A new round: the next count is sent, and its answer is awaited from now on. */
  lemma FirstTick(cfg: Config, s: Controller, e: Event)
    requires Enabled(s, e) && IsTick(s, e) && s.connected && s.running && !s.shutdown.closed
    requires cfg.heartbeat.timeout <= 0 || !s.beat.awaiting
    ensures Apply(cfg, s, e) == s.(
              tasks := s.tasks[1..] + [Beating(cfg, s.beat.count)],
              beat := H.Beat((s.beat.count + 1) % H.WORD32, s.beat.count, true, e.choice.now))
  {
    hide BytesOf, FrameOf;
  }

  /** While the window is open the count is repeated. */
  lemma RepeatingTick(cfg: Config, s: Controller, e: Event)
    requires Enabled(s, e) && IsTick(s, e) && s.connected && s.running && !s.shutdown.closed
    requires s.beat.awaiting && 0 < cfg.heartbeat.timeout && e.choice.now - s.beat.startedAt <= cfg.heartbeat.timeout
    ensures Apply(cfg, s, e) == s.(tasks := s.tasks[1..] + [Beating(cfg, s.beat.lastTx)])
  {
    hide BytesOf, FrameOf;
  }

  /** What a strict link is after an unanswered window: down, on a connection of its own. */
  ghost predicate GaveUp(s: Controller, r: Controller)
  {
    && !r.connected && r.generation == s.generation + 1 && r.port == Absent && r.queue == [] && r.buffer == []
    && !r.beat.awaiting && r.beat.count == r.beat.lastTx == 0
    && !r.ready && r.published == s.published + if s.ready then [false] else []
  }

  lemma ClosingTick(cfg: Config, s: Controller, e: Event)
    requires Enabled(s, e) && IsTick(s, e) && s.connected && s.running && !s.shutdown.closed
    requires s.beat.awaiting && 0 < cfg.heartbeat.timeout < e.choice.now - s.beat.startedAt
    ensures cfg.heartbeat.strict ==> GaveUp(s, Apply(cfg, s, e))
    ensures !cfg.heartbeat.strict ==> Apply(cfg, s, e) == s.(
              tasks := s.tasks[1..] + [Beating(cfg, s.beat.count)],
              beat := H.Beat((s.beat.count + 1) % H.WORD32, s.beat.count, true, e.choice.now))
  {
    hide BytesOf, FrameOf, SettleAll;
  }

  /** A link that waits for its handshake sends the probe again; without a connection nothing is sent. */
  lemma WaitingTick(cfg: Config, s: Controller, e: Event)
    requires Enabled(s, e) && IsTick(s, e) && !s.running && !s.shutdown.closed
    ensures s.connected && cfg.requireHandshake ==>
              Apply(cfg, s, e)
              == s.(tasks := s.tasks[1..] + [Transmit(FrameOf(cfg.protocol, HANDSHAKE_ID, BytesOf(cfg.localHash)))])
    ensures !s.connected ==> Apply(cfg, s, e) == s.(tasks := s.tasks[1..])
  {
    hide BytesOf, FrameOf;
  }

  // ---------------------------------------------------------------------
  // The window over a run
  // ---------------------------------------------------------------------

  /** The state after the events, if each of them is enabled when its turn comes. */
  function From(cfg: Config, s: Controller, events: seq<Event>): Maybe
  {
    if events == [] then Reached(s)
    else
      var before := From(cfg, s, events[..|events| - 1]);
      var e := events[|events| - 1];
      if before.Reached? && Enabled(before.controller, e) then Reached(Apply(cfg, before.controller, e)) else Impossible
  }

  function Ticks(cfg: Config, s: Controller, events: seq<Event>): nat
  {
    if events == [] then 0
    else
      var before, e := events[..|events| - 1], events[|events| - 1];
      var at := From(cfg, s, before);
      Ticks(cfg, s, before) + if at.Reached? && IsTick(at.controller, e) then 1 else 0
  }

  /** What the ticks have added to the strand's tasks, tick by tick. */
  function Added(cfg: Config, s: Controller, events: seq<Event>): seq<seq<Task>>
    requires From(cfg, s, events).Reached?
  {
    if events == [] then []
    else
      var before, e := events[..|events| - 1], events[|events| - 1];
      var t := From(cfg, s, before).controller;
      Added(cfg, s, before)
      + if IsTick(t, e) then [NewTasks(t.tasks[1..], Apply(cfg, t, e).tasks)] else []
  }

  function NewTasks(before: seq<Task>, after: seq<Task>): seq<Task>
  {
    if before <= after then after[|before|..] else after
  }

  /** Tick k comes k intervals after the count was first sent; nothing in between breaks the link
      or brings the answer. */
  ghost predicate Unanswered(cfg: Config, s: Controller, events: seq<Event>, interval: nat)
  {
    events == [] ||
    var before, e := events[..|events| - 1], events[|events| - 1];
    && Unanswered(cfg, s, before, interval)
    && From(cfg, s, before).Reached?
    && var t := From(cfg, s, before).controller;
       && Enabled(t, e)
       && if IsTick(t, e) then
            !t.shutdown.closed && e.choice.now == s.beat.startedAt + (Ticks(cfg, s, before) + 1) * interval
          else
            Apply(cfg, t, e).connected && !BringsEcho(cfg, t, e, s.beat.lastTx)
  }

  /** The timer has just sent a new count. */
  predicate Awaits(s: Controller)
  {
    s.connected && s.running && s.beat.awaiting
  }

  /** While the window is open the link stays up, and each tick adds just the same heartbeat again. */
  lemma {:induction false} WindowIsOpen(cfg: Config, s: Controller, events: seq<Event>, interval: nat)
    requires 8 <= cfg.capacity && 0 < interval <= cfg.heartbeat.timeout && Awaits(s)
    requires Unanswered(cfg, s, events, interval)
    requires Ticks(cfg, s, events) <= cfg.heartbeat.timeout / interval
    ensures From(cfg, s, events).Reached?
    ensures var r := From(cfg, s, events).controller;
            r.connected && r.running && r.generation == s.generation && r.beat == s.beat
    ensures Added(cfg, s, events) == seq(Ticks(cfg, s, events), k => [Beating(cfg, s.beat.lastTx)])
  {
    hide Apply, Beating, IsTick, BringsEcho, NewTasks;
    if events != [] {
      var before, e := events[..|events| - 1], events[|events| - 1];
      var t := From(cfg, s, before).controller;
      WindowIsOpen(cfg, s, before, interval);
      if IsTick(t, e) {
        TickIsRepeated(cfg, t, e, interval, Ticks(cfg, s, before) + 1);
      } else {
        OthersKeepTheBeat(cfg, t, e);
      }
    }
  }

  lemma TickIsRepeated(cfg: Config, s: Controller, e: Event, interval: nat, k: nat)
    requires Enabled(s, e) && IsTick(s, e) && s.connected && s.running && !s.shutdown.closed
    requires s.beat.awaiting && 0 < interval <= cfg.heartbeat.timeout && k <= cfg.heartbeat.timeout / interval
    requires e.choice.now == s.beat.startedAt + k * interval
    ensures var r := Apply(cfg, s, e);
            && r == s.(tasks := s.tasks[1..] + [Beating(cfg, s.beat.lastTx)])
            && NewTasks(s.tasks[1..], r.tasks) == [Beating(cfg, s.beat.lastTx)]
  {
    hide Apply, Beating;
    InWindow(interval, cfg.heartbeat.timeout, k);
    RepeatingTick(cfg, s, e);
  }

  lemma InWindow(interval: nat, timeout: int, k: nat)
    requires 0 < interval <= timeout
    ensures k * interval <= timeout <==> k <= timeout / interval
  {
    var fit := timeout / interval;
    assert timeout == fit * interval + timeout % interval;
    if k <= fit {
      assert (fit - k) * interval >= 0;
    } else {
      assert (k - fit - 1) * interval >= 0;
    }
  }

  /** An unanswered count is repeated at exactly floor(timeout / interval) ticks, whatever else the
      strand does meanwhile. At the next one a strict link is given up; a lenient one goes on with
      the next count. */
  lemma WindowOnTheLink(cfg: Config, s: Controller, events: seq<Event>, tick: Event, interval: nat)
    requires 8 <= cfg.capacity && 0 < interval <= cfg.heartbeat.timeout && Awaits(s)
    requires Unanswered(cfg, s, events + [tick], interval)
    requires Ticks(cfg, s, events) == cfg.heartbeat.timeout / interval
    ensures From(cfg, s, events).Reached?
    ensures var t := From(cfg, s, events).controller;
            && t.connected && t.generation == s.generation
            && Added(cfg, s, events) == seq(cfg.heartbeat.timeout / interval, k => [Beating(cfg, s.beat.lastTx)])
            && (IsTick(t, tick) ==>
                  var r := Apply(cfg, t, tick);
                  if cfg.heartbeat.strict then GaveUp(t, r)
                  else
                    r == t.(tasks := t.tasks[1..] + [Beating(cfg, s.beat.count)],
                            beat := H.Beat((s.beat.count + 1) % H.WORD32, s.beat.count, true, tick.choice.now)))
  {
    hide Apply, Beating, IsTick, BringsEcho, NewTasks, GaveUp, Added, Ticks, From;
    assert (events + [tick])[..|events|] == events;
    WindowIsOpen(cfg, s, events, interval);
    var t := From(cfg, s, events).controller;
    if IsTick(t, tick) {
      var k := Ticks(cfg, s, events) + 1;
      InWindow(interval, cfg.heartbeat.timeout, k);
      ClosingTick(cfg, t, tick);
    }
  }

  /** A read that brings the echo in time, on a link that stays up, ends the wait. */
  lemma AnswerEndsTheWait(cfg: Config, s: Controller, events: seq<Event>, answer: Event, interval: nat)
    requires 8 <= cfg.capacity && 0 < interval <= cfg.heartbeat.timeout && Awaits(s)
    requires Unanswered(cfg, s, events, interval) && Ticks(cfg, s, events) <= cfg.heartbeat.timeout / interval
    requires From(cfg, s, events).Reached? && Enabled(From(cfg, s, events).controller, answer)
    requires BringsEcho(cfg, From(cfg, s, events).controller, answer, s.beat.lastTx)
    requires Apply(cfg, From(cfg, s, events).controller, answer).connected
    ensures var r := Apply(cfg, From(cfg, s, events).controller, answer);
            r.running && r.generation == s.generation && r.beat == s.beat.(awaiting := false)
  {
    hide Apply, From, Ticks, Added, SomeEcho, Parse;
    WindowIsOpen(cfg, s, events, interval);
    OthersKeepTheBeat(cfg, From(cfg, s, events).controller, answer);
  }
}
