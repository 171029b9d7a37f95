/** The heartbeat of a running link: one count is repeated at every timer tick until its echo
    arrives or the window closes. Times are whole milliseconds of the steady clock. */
module Heartbeat {
  import RingArithmetic

  const WORD32: nat := 0x1_0000_0000

  type word32 = x: int | 0 <= x < WORD32

  datatype Settings = Settings(strict: bool, timeout: int)

  /** The tracking fields of the controller. */
  datatype Beat = Beat(count: word32, lastTx: word32, awaiting: bool, startedAt: int)

  datatype Action = Send(count: word32) | GiveUp

  datatype Ticked = Ticked(beat: Beat, action: Action)

  /** `++` on a uint32. */
  function Next(n: word32): word32
  {
    if n + 1 == WORD32 then 0 else n + 1
  }

  function NewRound(b: Beat, now: int): Ticked
  {
    Ticked(Beat(Next(b.count), b.count, true, now), Send(b.count))
  }

  /** One tick of the timer while the link is running. The caller resets the link on `GiveUp`. */
  function Tick(cfg: Settings, b: Beat, now: int): Ticked
  {
    if cfg.timeout > 0 && b.awaiting then
      if now - b.startedAt <= cfg.timeout then Ticked(b, Send(b.lastTx))
      else if cfg.strict then Ticked(b, GiveUp)
      else NewRound(b.(awaiting := false), now)
    else
      NewRound(b, now)
  }

  /** An echo with the last count sent ends the wait; any other changes nothing. */
  function Echoed(b: Beat, count: word32): Beat
  {
    if count == b.lastTx then b.(awaiting := false) else b
  }

  /** What a reset and an accepted handshake leave. */
  function Cleared(b: Beat): Beat
  {
    b.(count := 0, lastTx := 0, awaiting := false)
  }

  // ---------------------------------------------------------------------
  // Runs at a fixed interval
  // ---------------------------------------------------------------------

  datatype Event = Timer | Echo(count: word32)

  /** The link between two resets: `ticks` timer ticks so far, tick k at k times the interval, and
      what was done at each of them. */
  datatype Line = Line(beat: Beat, ticks: nat, log: seq<Action>)

  predicate Up(log: seq<Action>)
  {
    log == [] || log[|log| - 1] != GiveUp
  }

  function Step(cfg: Settings, interval: nat, line: Line, e: Event): Line
  {
    if !Up(line.log) then line
    else match e
      case Timer =>
        var t := Tick(cfg, line.beat, line.ticks * interval);
        Line(t.beat, line.ticks + 1, line.log + [t.action])
      case Echo(count) => line.(beat := Echoed(line.beat, count))
  }

  function Run(cfg: Settings, interval: nat, line: Line, events: seq<Event>): Line
  {
    if events == [] then line
    else Step(cfg, interval, Run(cfg, interval, line, events[..|events| - 1]), events[|events| - 1])
  }

  const START: Line := Line(Beat(0, 0, false, 0), 0, [])

  // ---------------------------------------------------------------------
  // The same link without a clock
  // ---------------------------------------------------------------------

  /** `rounds` rounds have begun; the last of them has been repeated `age` times and is either
      answered or open. */
  datatype Rounds = Rounds(rounds: nat, age: nat, answered: bool, log: seq<Action>)

  function CountOf(round: nat): word32
  {
    round % WORD32
  }

  function Begin(r: Rounds): Rounds
  {
    Rounds(r.rounds + 1, 0, false, r.log + [Send(CountOf(r.rounds))])
  }

  /** A round is repeated `window` times; then the link is given up or, when only warning, the
      next round begins. */
  function CountStep(strict: bool, window: nat, r: Rounds, e: Event): Rounds
  {
    if !Up(r.log) then r
    else match e
      case Timer =>
        if r.rounds == 0 || r.answered then Begin(r)
        else if r.age < window then r.(age := r.age + 1, log := r.log + [Send(CountOf(r.rounds - 1))])
        else if strict then r.(log := r.log + [GiveUp])
        else Begin(r)
      case Echo(count) =>
        if r.rounds > 0 && count == CountOf(r.rounds - 1) then r.(answered := true) else r
  }

  function CountRun(strict: bool, window: nat, r: Rounds, events: seq<Event>): Rounds
  {
    if events == [] then r
    else CountStep(strict, window, CountRun(strict, window, r, events[..|events| - 1]), events[|events| - 1])
  }

  const NO_ROUNDS: Rounds := Rounds(0, 0, false, [])

  ghost predicate Agree(interval: nat, line: Line, r: Rounds)
  {
    && line.log == r.log
    && line.beat.count == CountOf(r.rounds)
    && (if r.rounds == 0 then !line.beat.awaiting && line.beat.lastTx == 0 && r.age == 0 && !r.answered
        else line.beat.lastTx == CountOf(r.rounds - 1) && line.beat.awaiting == !r.answered)
    && (Up(r.log) && line.beat.awaiting ==> line.beat.startedAt == (line.ticks - 1 - r.age) * interval)
  }

  lemma Wraps(n: nat)
    ensures Next(CountOf(n)) == CountOf(n + 1)
  {
  }

  /** The elapsed time fits into the timeout as long as the ticks fit into the window. */
  lemma WindowCounts(interval: nat, timeout: int, ticks: int, age: nat)
    requires 0 < interval <= timeout
    ensures ticks * interval - (ticks - 1 - age) * interval <= timeout <==> age < timeout / interval
  {
    var steps := age + 1;
    var fit := timeout / interval;
    assert ticks * interval - (ticks - 1 - age) * interval == steps * interval;
    assert timeout == fit * interval + timeout % interval;
    if steps <= fit {
      assert (fit - steps) * interval >= 0;
    } else {
      assert (steps - fit - 1) * interval >= 0;
    }
  }

  lemma StepAgrees(cfg: Settings, interval: nat, line: Line, r: Rounds, e: Event)
    requires 0 < interval <= cfg.timeout && Agree(interval, line, r)
    ensures Agree(interval, Step(cfg, interval, line, e), CountStep(cfg.strict, cfg.timeout / interval, r, e))
  {
    hide CountOf;
    Wraps(r.rounds);
    WindowCounts(interval, cfg.timeout, line.ticks, r.age);
    if e.Timer? && r.rounds > 0 {
      assert (line.ticks + 1 - 1 - (r.age + 1)) * interval == (line.ticks - 1 - r.age) * interval;
    }
  }

  /** The timestamps amount to counting ticks: the link does exactly what the clock-free link does,
      whatever echoes arrive and however often the count wraps. */
  lemma {:induction false} ClockCountsTicks(cfg: Settings, interval: nat, events: seq<Event>)
    requires 0 < interval <= cfg.timeout
    ensures Agree(interval, Run(cfg, interval, START, events),
                  CountRun(cfg.strict, cfg.timeout / interval, NO_ROUNDS, events))
  {
    hide CountOf;
    if events == [] {
      assert CountOf(0) == 0 by { CountOfZero(); }
    } else {
      var before := events[..|events| - 1];
      ClockCountsTicks(cfg, interval, before);
      StepAgrees(cfg, interval, Run(cfg, interval, START, before),
                 CountRun(cfg.strict, cfg.timeout / interval, NO_ROUNDS, before), events[|events| - 1]);
    }
  }

  lemma CountOfZero()
    ensures CountOf(0) == 0
  {
  }

  // ---------------------------------------------------------------------
  // The window
  // ---------------------------------------------------------------------

  function Timers(events: seq<Event>): nat
  {
    if events == [] then 0
    else Timers(events[..|events| - 1]) + if events[|events| - 1].Timer? then 1 else 0
  }

  function Repeat(action: Action, n: nat): (s: seq<Action>)
    ensures |s| == n && forall k | 0 <= k < n :: s[k] == action
  {
    seq(n, k => action)
  }

  /** A round has just begun: its count has been sent once and is awaited. */
  predicate JustBegun(line: Line, interval: nat)
  {
    && Up(line.log) && line.beat.awaiting && line.beat.startedAt == (line.ticks - 1) * interval
  }

  lemma RunSnoc(cfg: Settings, interval: nat, line: Line, events: seq<Event>, e: Event)
    ensures Run(cfg, interval, line, events + [e]) == Step(cfg, interval, Run(cfg, interval, line, events), e)
  {
    assert (events + [e])[..|events|] == events;
  }

  /** While no echo of its count arrives, a round is only repeated until the window closes. */
  lemma {:induction false} Unanswered(cfg: Settings, interval: nat, line: Line, events: seq<Event>)
    requires 0 < interval <= cfg.timeout && JustBegun(line, interval)
    requires Echo(line.beat.lastTx) !in events && Timers(events) <= cfg.timeout / interval
    ensures var line' := Run(cfg, interval, line, events);
            && line'.beat == line.beat && line'.ticks == line.ticks + Timers(events)
            && line'.log == line.log + Repeat(Send(line.beat.lastTx), Timers(events))
  {
    if events != [] {
      var before, e := events[..|events| - 1], events[|events| - 1];
      Unanswered(cfg, interval, line, before);
      assert e in events;
      if e.Timer? {
        var n := Timers(before);
        WindowCounts(interval, cfg.timeout, line.ticks + n, n);
        assert (line.ticks + n - 1 - n) * interval == (line.ticks - 1) * interval;
        var c := Send(line.beat.lastTx);
        assert line.log + Repeat(c, n) + [c] == line.log + Repeat(c, n + 1);
      }
    }
  }

  /** In strict mode an unanswered count is repeated exactly floor(timeout / interval) times and
      the link is given up at the tick after that; when only warning, the next count starts then. */
  lemma WindowCloses(cfg: Settings, interval: nat, line: Line, events: seq<Event>)
    requires 0 < interval <= cfg.timeout && JustBegun(line, interval)
    requires Echo(line.beat.lastTx) !in events && Timers(events) == cfg.timeout / interval
    ensures var window := cfg.timeout / interval;
            var line' := Run(cfg, interval, line, events + [Timer]);
            && line'.log == line.log + Repeat(Send(line.beat.lastTx), window)
                            + [if cfg.strict then GiveUp else Send(line.beat.count)]
            && (!cfg.strict ==> JustBegun(line', interval) && line'.beat.lastTx == line.beat.count)
  {
    hide Timers, Run, Step, JustBegun;
    var window := cfg.timeout / interval;
    Unanswered(cfg, interval, line, events);
    RunSnoc(cfg, interval, line, events, Timer);
    WindowIsOver(cfg, interval, line, Run(cfg, interval, line, events), window);
  }

  lemma WindowIsOver(cfg: Settings, interval: nat, line: Line, line': Line, window: nat)
    requires 0 < interval <= cfg.timeout && window == cfg.timeout / interval && JustBegun(line, interval)
    requires line'.beat == line.beat && line'.ticks == line.ticks + window
    requires line'.log == line.log + Repeat(Send(line.beat.lastTx), window)
    ensures var closed := Step(cfg, interval, line', Timer);
            && closed.log == line'.log + [if cfg.strict then GiveUp else Send(line.beat.count)]
            && (!cfg.strict ==> JustBegun(closed, interval) && closed.beat.lastTx == line.beat.count)
  {
    WindowCounts(interval, cfg.timeout, line.ticks + window, window);
    assert (line.ticks + window - 1 - window) * interval == (line.ticks - 1) * interval;
  }

  /** An echo of the count before that tick ends the round: whatever else arrives, the next tick
      starts the next count instead of giving up. */
  lemma EchoInTime(cfg: Settings, interval: nat, line: Line, events: seq<Event>, late: seq<Event>)
    requires 0 < interval <= cfg.timeout && JustBegun(line, interval)
    requires Echo(line.beat.lastTx) !in events && Timers(events) <= cfg.timeout / interval
    requires Timers(late) == 0
    ensures var line' := Run(cfg, interval, line, events + [Echo(line.beat.lastTx)] + late + [Timer]);
            && JustBegun(line', interval) && line'.beat.lastTx == line.beat.count
            && line'.log == line.log + Repeat(Send(line.beat.lastTx), Timers(events)) + [Send(line.beat.count)]
  {
    hide Timers, Run, Step;
    Unanswered(cfg, interval, line, events);
    var echo := Echo(line.beat.lastTx);
    var line1 := Run(cfg, interval, line, events);
    RunSnoc(cfg, interval, line, events, echo);
    AnsweredSteps(cfg, interval, line1, line.log, Timers(events));
    Late(cfg, interval, line, events + [echo], late);
    RunSnoc(cfg, interval, line, events + [echo] + late, Timer);
  }

  /** The echo of the current count, then a tick. */
  lemma AnsweredSteps(cfg: Settings, interval: nat, line: Line, log: seq<Action>, n: nat)
    requires line.log == log + Repeat(Send(line.beat.lastTx), n) && Up(log)
    ensures var answered := Step(cfg, interval, line, Echo(line.beat.lastTx));
            && !answered.beat.awaiting
            && var line' := Step(cfg, interval, answered, Timer);
               && JustBegun(line', interval) && line'.beat.lastTx == line.beat.count
               && line'.log == line.log + [Send(line.beat.count)]
  {
  }

  lemma {:induction false} Late(cfg: Settings, interval: nat, line: Line, events: seq<Event>, late: seq<Event>)
    requires Timers(late) == 0 && !Run(cfg, interval, line, events).beat.awaiting
    ensures Run(cfg, interval, line, events + late) == Run(cfg, interval, line, events)
  {
    if late == [] {
      assert events + late == events;
    } else {
      var before, e := late[..|late| - 1], late[|late| - 1];
      Late(cfg, interval, line, events, before);
      RunSnoc(cfg, interval, line, events + before, e);
      assert events + before + [e] == events + late;
    }
  }

  /** Which round tick `k` belongs to when no echo ever arrives. */
  function RoundAt(window: nat, k: nat): nat
  {
    k / (window + 1)
  }

  ghost predicate Silent(window: nat, n: nat, r: Rounds)
  {
    && |r.log| == n && Up(r.log) && !r.answered
    && (if n == 0 then r == NO_ROUNDS
        else r.rounds > 0 && r.age <= window && n == (r.rounds - 1) * (window + 1) + r.age + 1)
    && forall k | 0 <= k < n :: r.log[k] == Send(CountOf(RoundAt(window, k)))
  }

  /** Without any echo, a link that only warns sends each count floor(timeout / interval) + 1 times,
      counting up modulo 2^32 for ever. */
  lemma SilentPeer(cfg: Settings, interval: nat, n: nat)
    requires 0 < interval <= cfg.timeout && !cfg.strict
    ensures var window := cfg.timeout / interval;
            var log := Run(cfg, interval, START, seq(n, k => Timer)).log;
            |log| == n && forall k | 0 <= k < n :: log[k] == Send(CountOf(k / (window + 1)))
  {
    SilentRounds(cfg.timeout / interval, n);
    ClockCountsTicks(cfg, interval, seq(n, k => Timer));
  }

  lemma {:induction false} SilentRounds(window: nat, n: nat)
    ensures Silent(window, n, CountRun(false, window, NO_ROUNDS, seq(n, k => Timer)))
  {
    hide Silent, CountStep;
    if n > 0 {
      SilentRounds(window, n - 1);
      assert seq(n, k => Timer)[..n - 1] == seq(n - 1, k => Timer);
      SilentStep(window, n - 1, CountRun(false, window, NO_ROUNDS, seq(n - 1, k => Timer)));
    } else {
      SilentStart(window);
    }
  }

  lemma SilentStart(window: nat)
    ensures Silent(window, 0, NO_ROUNDS)
  {
  }

  lemma SilentStep(window: nat, n: nat, r: Rounds)
    requires Silent(window, n, r)
    ensures Silent(window, n + 1, CountStep(false, window, r, Timer))
  {
    hide CountOf, RoundAt;
    if n > 0 {
      NextTick(window, r.rounds - 1, r.age, n);
    } else {
      FirstTick(window);
    }
  }

  lemma FirstTick(window: nat)
    ensures RoundAt(window, 0) == 0
  {
  }

  lemma NextTick(window: nat, round: nat, age: nat, n: nat)
    requires age <= window && n == round * (window + 1) + age + 1
    ensures RoundAt(window, n) == if age < window then round else round + 1
  {
    if age < window {
      RingArithmetic.QuotientUnique(n, window + 1, round, age + 1);
    } else {
      assert n == (round + 1) * (window + 1);
      RingArithmetic.QuotientUnique(n, window + 1, round + 1, 0);
    }
  }
}
