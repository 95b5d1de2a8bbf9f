/**
 The route poller: one run at a time, one timer at a time, abort on leaving the page, and
 backoff after failures. Timers are identified, so a forgotten one would show.
 */
module RoutePolling {
  import opened Wrappers

  /** The interval between polls and the cap on any retry delay. */
  datatype Config = Config(interval: nat, maxBackoff: nat)

  const MAX_FAILURES: nat := 8

  /**
   `armed` are the timers the browser holds, with their delays, and `timer` the one the
   poller remembers. `inFlight` counts runs started and not ended; `aborted` is the signal of
   the latest controller. `hidden` is the document's.
   */
  datatype State = State(
    armed: map<nat, nat>, timer: Option<nat>, nextTimer: nat, inFlight: nat, aborted: bool,
    running: bool, stopped: bool, suspended: bool, hidden: bool, refreshPending: bool, failures: nat)

  datatype RunOutcome = Resolved | AbortError | OtherError

  datatype Event =
    | TimerFired(id: nat, active: bool)
    | RunEnded(outcome: RunOutcome)
    | VisibilityChanged(hidden: bool, active: bool)
    | RouteChanged(active: bool)
    | PageHidden
    | PageShown(active: bool)
    | StopCalled

  function ClearTimer(s: State): State {
    if s.timer.Some? then s.(armed := s.armed - {s.timer.value}) else s
  }

  predicate Awake(s: State) {
    !s.stopped && !s.suspended && !s.hidden
  }

  function Schedule(s: State, delay: nat): State {
    var c := ClearTimer(s);
    if Awake(s) then
      c.(armed := c.armed[s.nextTimer := delay], timer := Some(s.nextTimer), nextTimer := s.nextTimer + 1)
    else c
  }

  function Tick(s: State, active: bool, c: Config): State {
    if s.running || !Awake(s) then s
    else if !active then Schedule(s, c.interval)
    else s.(running := true, aborted := false, inFlight := s.inFlight + 1)
  }

  function Pow2(n: nat): (p: nat)
    ensures 1 <= p
  {
    if n == 0 then 1 else 2 * Pow2(n - 1)
  }

  function Backoff(failures: nat, c: Config): nat {
    if c.interval * Pow2(failures) < c.maxBackoff then c.interval * Pow2(failures) else c.maxBackoff
  }

  function FailuresAfter(s: State, outcome: RunOutcome): nat {
    if s.aborted || outcome.AbortError? then s.failures
    else if outcome.Resolved? then 0
    else if s.failures + 1 < MAX_FAILURES then s.failures + 1 else MAX_FAILURES
  }

  function EndRun(s: State, outcome: RunOutcome, c: Config): State
    requires 0 < s.inFlight
  {
    var f := FailuresAfter(s, outcome);
    Schedule(s.(running := false, inFlight := s.inFlight - 1, failures := f, refreshPending := false),
             if s.refreshPending then 0 else Backoff(f, c))
  }

  function Changed(s: State, active: bool, c: Config): State {
    var s1 := ClearTimer(s);
    if !Awake(s) || !active then Schedule(s1.(aborted := true, refreshPending := false), c.interval)
    else if s.running then s1.(refreshPending := s.refreshPending || s.aborted)
    else Schedule(s1, 0)
  }

  function Step(s: State, e: Event, c: Config): State {
    match e
    case TimerFired(id, active) => if id in s.armed then Tick(s.(armed := s.armed - {id}), active, c) else s
    case RunEnded(outcome) => if 0 < s.inFlight then EndRun(s, outcome, c) else s
    case VisibilityChanged(hidden, active) =>
      if s.stopped then s.(hidden := hidden) else Changed(s.(hidden := hidden), active, c)
    case RouteChanged(active) => Changed(s, active, c)
    case PageHidden => if s.stopped then s else ClearTimer(s.(suspended := true)).(aborted := true)
    case PageShown(active) => if s.stopped then s else Changed(s.(suspended := false), active, c)
    case StopCalled => ClearTimer(s.(stopped := true)).(aborted := true)
  }

  function Start(hidden: bool, c: Config): State {
    Schedule(State(map[], None, 0, 0, false, false, false, false, hidden, false, 0), c.interval)
  }

  function Run(hidden: bool, events: seq<Event>, c: Config): State {
    if events == [] then Start(hidden, c)
    else Step(Run(hidden, events[..|events| - 1], c), events[|events| - 1], c)
  }

  class RoutePoller {
    const config: Config
    var armed: map<nat, nat>
    var timer: Option<nat>
    var nextTimer: nat
    var inFlight: nat
    var aborted: bool
    var running: bool
    var stopped: bool
    var suspended: bool
    var hidden: bool
    var refreshPending: bool
    var failures: nat

    ghost function View(): State
      reads this
    {
      State(armed, timer, nextTimer, inFlight, aborted, running, stopped, suspended, hidden, refreshPending, failures)
    }

    constructor (config: Config, hidden: bool)
      ensures this.config == config && View() == Start(hidden, config)
    {
      this.config, this.hidden := config, hidden;
      armed, timer, nextTimer, inFlight := map[], None, 0, 0;
      aborted, running, stopped, suspended, refreshPending, failures := false, false, false, false, false, 0;
      new;
      ScheduleTimer(config.interval);
    }

    method ClearArmed()
      modifies this`armed
      ensures View() == ClearTimer(old(View()))
    {
      if timer.Some? {
        armed := armed - {timer.value};
      }
    }

    method ScheduleTimer(delay: nat)
      modifies this`armed, this`timer, this`nextTimer
      ensures View() == Schedule(old(View()), delay)
    {
      ClearArmed();
      if !stopped && !suspended && !hidden {
        armed := armed[nextTimer := delay];
        timer := Some(nextTimer);
        nextTimer := nextTimer + 1;
      }
    }

    /** An armed timer fires; `started` says whether a run begins. */
    method OnTimer(id: nat, active: bool) returns (started: bool)
      requires id in armed
      modifies this
      ensures View() == Step(old(View()), TimerFired(id, active), config)
      ensures started ==> running && inFlight == old(inFlight) + 1
    {
      started := false;
      armed := armed - {id};
      if running || stopped || suspended || hidden {
        return;
      }
      if !active {
        ScheduleTimer(config.interval);
        return;
      }
      running := true;
      aborted := false;
      inFlight := inFlight + 1;
      started := true;
    }

    /** The failures counted after a run that ends this way. */
    method CountFailures(outcome: RunOutcome)
      modifies this`failures
      ensures failures == FailuresAfter(old(View()), outcome)
    {
      if !aborted {
        if outcome.Resolved? {
          failures := 0;
        } else if outcome.OtherError? {
          failures := if failures + 1 < MAX_FAILURES then failures + 1 else MAX_FAILURES;
        }
      }
    }

    method OnRunEnded(outcome: RunOutcome)
      requires 0 < inFlight
      modifies this
      ensures View() == EndRun(old(View()), outcome, config)
    {
      CountFailures(outcome);
      var delay := if refreshPending then 0 else Backoff(failures, config);
      FinishRun(delay);
    }

    /** The poller is idle again and arms its next timer. */
    method FinishRun(delay: nat)
      requires 0 < inFlight
      modifies this
      ensures View() == Schedule(old(View()).(running := false, inFlight := old(inFlight) - 1, refreshPending := false), delay)
    {
      inFlight := inFlight - 1;
      running := false;
      refreshPending := false;
      ScheduleTimer(delay);
    }

    method OnChanged(active: bool)
      modifies this
      ensures View() == Step(old(View()), RouteChanged(active), config)
    {
      ClearArmed();
      if stopped || suspended || hidden || !active {
        aborted := true;
        refreshPending := false;
        ScheduleTimer(config.interval);
        return;
      }
      if running {
        if aborted {
          refreshPending := true;
        }
        return;
      }
      ScheduleTimer(0);
    }

    method OnVisibility(hidden: bool, active: bool)
      requires !stopped
      modifies this
      ensures View() == Step(old(View()), VisibilityChanged(hidden, active), config)
    {
      this.hidden := hidden;
      OnChanged(active);
    }

    method Suspend()
      requires !stopped
      modifies this
      ensures View() == Step(old(View()), PageHidden, config)
    {
      suspended := true;
      ClearArmed();
      aborted := true;
    }

    method Resume(active: bool)
      requires !stopped
      modifies this
      ensures View() == Step(old(View()), PageShown(active), config)
    {
      suspended := false;
      OnChanged(active);
    }

    method Stop()
      modifies this
      ensures View() == Step(old(View()), StopCalled, config)
    {
      stopped := true;
      ClearArmed();
      aborted := true;
    }
  }

  // ----- what holds in every reachable state

  predicate Consistent(s: State) {
    && s.inFlight == (if s.running then 1 else 0)
    && (forall id :: id in s.armed ==> s.timer == Some(id) && id < s.nextTimer)
    && (s.armed != map[] ==> Awake(s))
    && (Awake(s) ==> s.running || s.armed != map[])
    && s.failures <= MAX_FAILURES
  }

  lemma ScheduleConsistent(s: State, delay: nat)
    requires s.inFlight == (if s.running then 1 else 0) && s.failures <= MAX_FAILURES
    requires forall id :: id in s.armed ==> s.timer == Some(id) && id < s.nextTimer
    ensures Consistent(Schedule(s, delay))
    ensures Awake(s) ==> Schedule(s, delay).armed == map[s.nextTimer := delay]
  {
    assert ClearTimer(s).armed == map[];
    if Awake(s) {
      assert s.nextTimer in Schedule(s, delay).armed;
    }
  }

  lemma FiredConsistent(s: State, id: nat, active: bool, c: Config)
    requires Consistent(s) && id in s.armed
    ensures Consistent(Step(s, TimerFired(id, active), c))
  {
    var s1 := s.(armed := s.armed - {id});
    assert s1.armed == map[];
    ScheduleConsistent(s1, c.interval);
  }

  lemma EndedConsistent(s: State, outcome: RunOutcome, c: Config)
    requires Consistent(s) && 0 < s.inFlight
    ensures Consistent(EndRun(s, outcome, c))
  {
    var f := FailuresAfter(s, outcome);
    ScheduleConsistent(s.(running := false, inFlight := 0, failures := f, refreshPending := false),
                       if s.refreshPending then 0 else Backoff(f, c));
  }

  lemma StepConsistent(s: State, e: Event, c: Config)
    requires Consistent(s)
    ensures Consistent(Step(s, e, c))
  {
    match e {
      case TimerFired(id, active) =>
        if id in s.armed {
          FiredConsistent(s, id, active, c);
        }
      case RunEnded(outcome) =>
        if 0 < s.inFlight {
          EndedConsistent(s, outcome, c);
        }
      case VisibilityChanged(hidden, active) =>
        VisibilityConsistent(s, hidden, active, c);
      case RouteChanged(active) => ChangedConsistent(s, active, c);
      case PageHidden => Cleared(s);
      case PageShown(active) =>
        ShownConsistent(s, active, c);
      case StopCalled => Cleared(s);
    }
  }

  lemma VisibilityConsistent(s: State, hidden: bool, active: bool, c: Config)
    requires Consistent(s)
    ensures Consistent(Step(s, VisibilityChanged(hidden, active), c))
  {
    if s.stopped {
      assert s.armed == map[];
    } else {
      ChangedConsistent(s.(hidden := hidden), active, c);
    }
  }

  lemma ShownConsistent(s: State, active: bool, c: Config)
    requires Consistent(s)
    ensures Consistent(Step(s, PageShown(active), c))
  {
    if !s.stopped {
      ChangedConsistent(s.(suspended := false), active, c);
    }
  }

  lemma Cleared(s: State)
    requires Consistent(s)
    ensures ClearTimer(s).armed == map[]
  {
  }

  lemma ChangedConsistent(s: State, active: bool, c: Config)
    requires s.inFlight == (if s.running then 1 else 0) && s.failures <= MAX_FAILURES
    requires forall id :: id in s.armed ==> s.timer == Some(id) && id < s.nextTimer
    ensures Consistent(Changed(s, active, c))
  {
    var s1 := ClearTimer(s);
    assert s1.armed == map[];
    if !Awake(s) || !active {
      ScheduleConsistent(s1.(aborted := true, refreshPending := false), c.interval);
    } else if !s.running {
      ScheduleConsistent(s1, 0);
    }
  }

  lemma {:induction false} RunConsistent(hidden: bool, events: seq<Event>, c: Config)
    ensures Consistent(Run(hidden, events, c))
  {
    if events == [] {
      ScheduleConsistent(State(map[], None, 0, 0, false, false, false, false, hidden, false, 0), c.interval);
    } else {
      RunConsistent(hidden, events[..|events| - 1], c);
      StepConsistent(Run(hidden, events[..|events| - 1], c), events[|events| - 1], c);
    }
  }

  /**
   In every reachable state at most one run is in flight and at most one timer is armed, and
   a poller that is not stopped, suspended or hidden has one or the other: no wake-up is lost.
   */
  lemma {:induction false} NoWakeUpLost(hidden: bool, events: seq<Event>, c: Config)
    ensures var s := Run(hidden, events, c);
      && s.inFlight <= 1 && (s.running <==> s.inFlight == 1)
      && (forall i, j :: i in s.armed && j in s.armed ==> i == j)
      && (Awake(s) ==> s.inFlight == 1 || exists id :: id in s.armed)
      && (!Awake(s) ==> s.armed == map[])
  {
    RunConsistent(hidden, events, c);
    var s := Run(hidden, events, c);
    if Awake(s) && !s.running {
      assert s.armed.Keys != {};
    }
  }

  /** The events after which an awake poller is polling afresh: the run ends, the timer fires. */
  function WakeUp(s: State, c: Config): seq<Event> {
    if s.running then [RunEnded(Resolved), TimerFired(s.nextTimer, true)]
    else if s.timer.Some? then [TimerFired(s.timer.value, true)] else []
  }

  /** From every reachable awake state the poller is at most two such events away from a fresh run. */
  lemma {:induction false} AlwaysPollsAgain(hidden: bool, events: seq<Event>, c: Config)
    requires Awake(Run(hidden, events, c))
    ensures var s := Run(hidden, events + WakeUp(Run(hidden, events, c), c), c);
      s.running && !s.aborted && s.inFlight == 1
  {
    var s := Run(hidden, events, c);
    RunConsistent(hidden, events, c);
    if s.running {
      var ends, fires := RunEnded(Resolved), TimerFired(s.nextTimer, true);
      RunAppend(hidden, events, ends, c);
      RunAppend(hidden, events + [ends], fires, c);
      assert events + WakeUp(s, c) == events + [ends] + [fires];
      EndWakesUp(s, c);
    } else {
      var id :| id in s.armed;
      RunAppend(hidden, events, TimerFired(id, true), c);
    }
  }

  /** A run that ends arms the timer whose firing starts the next one. */
  lemma EndWakesUp(s: State, c: Config)
    requires Consistent(s) && Awake(s) && s.running
    ensures var s' := Step(Step(s, RunEnded(Resolved), c), TimerFired(s.nextTimer, true), c);
      s'.running && !s'.aborted && s'.inFlight == 1
  {
    EndRunArms(s, Resolved, c);
    var ended := EndRun(s, Resolved, c);
    assert s.nextTimer in ended.armed && Awake(ended) && !ended.running && ended.inFlight == 0;
  }

  lemma StoppedStep(s: State, e: Event, c: Config)
    requires Consistent(s) && s.stopped
    ensures Step(s, e, c).stopped && Step(s, e, c).inFlight <= s.inFlight
  {
    assert !Awake(s);
  }

  /** After `stop` no run ever starts again, whatever fires. */
  lemma {:induction false} StoppedForGood(hidden: bool, events: seq<Event>, i: nat, c: Config)
    requires i <= |events| && Run(hidden, events[..i], c).stopped
    ensures Run(hidden, events, c).stopped
    ensures Run(hidden, events, c).inFlight <= Run(hidden, events[..i], c).inFlight
    decreases |events|
  {
    if i == |events| {
      assert events[..i] == events;
    } else {
      var past := events[..|events| - 1];
      assert past[..i] == events[..i];
      StoppedForGood(hidden, past, i, c);
      RunConsistent(hidden, past, c);
      StoppedStep(Run(hidden, past, c), events[|events| - 1], c);
    }
  }

  lemma EndRunArms(s: State, outcome: RunOutcome, c: Config)
    requires Consistent(s) && s.running
    ensures var delay := if s.refreshPending then 0 else Backoff(FailuresAfter(s, outcome), c);
      EndRun(s, outcome, c).armed == if Awake(s) then map[s.nextTimer := delay] else map[]
  {
    var f := FailuresAfter(s, outcome);
    ScheduleConsistent(s.(running := false, inFlight := 0, failures := f, refreshPending := false),
                       if s.refreshPending then 0 else Backoff(f, c));
    EndedConsistent(s, outcome, c);
  }

  lemma {:induction false} RunAppend(hidden: bool, events: seq<Event>, e: Event, c: Config)
    ensures Run(hidden, events + [e], c) == Step(Run(hidden, events, c), e, c)
  {
    assert (events + [e])[..|events|] == events;
  }

  /** In every run, whatever a run of the poller ends with, the next delay is within the backoff cap. */
  lemma {:induction false} RetryWithinCap(hidden: bool, events: seq<Event>, outcome: RunOutcome, c: Config)
    requires Run(hidden, events, c).running
    ensures var armed := Run(hidden, events + [RunEnded(outcome)], c).armed;
      forall id :: id in armed ==> armed[id] <= c.maxBackoff
  {
    RunConsistent(hidden, events, c);
    RunAppend(hidden, events, RunEnded(outcome), c);
    EndRunArms(Run(hidden, events, c), outcome, c);
  }

  /** Events that neither leave the page nor end the run under way. */
  predicate Lingers(e: Event) {
    e.TimerFired? || (e.RouteChanged? && e.active) || (e.VisibilityChanged? && !e.hidden && e.active) || (e.PageShown? && e.active)
  }

  /** Once remembered, the return stays remembered until the run ends. */
  lemma {:induction false} ReturnStays(hidden: bool, events: seq<Event>, more: seq<Event>, c: Config)
    requires var s := Run(hidden, events, c); s.running && s.aborted && s.refreshPending && Awake(s)
    requires forall i :: 0 <= i < |more| ==> Lingers(more[i])
    ensures var s := Run(hidden, events + more, c); s.running && s.aborted && s.refreshPending && Awake(s)
    decreases |more|
  {
    if more == [] {
      assert events + more == events;
    } else {
      var front, last := more[..|more| - 1], more[|more| - 1];
      ReturnStays(hidden, events, front, c);
      RunAppend(hidden, events + front, last, c);
      assert events + more == events + front + [last];
    }
  }

  /**
   Coming back to the page while the run aborted on leaving is still unwinding is remembered:
   whatever happens then short of leaving again, when that run ends the next poll is armed
   without delay.
   */
  lemma {:induction false} ReturnIsRemembered(hidden: bool, events: seq<Event>, more: seq<Event>, outcome: RunOutcome, c: Config)
    requires var s := Run(hidden, events, c); s.running && s.aborted && Awake(s)
    requires forall i :: 0 <= i < |more| ==> Lingers(more[i])
    ensures var s := Run(hidden, events + [RouteChanged(true)] + more, c);
      Run(hidden, events + [RouteChanged(true)] + more + [RunEnded(outcome)], c).armed == map[s.nextTimer := 0]
  {
    var back := events + [RouteChanged(true)];
    RunAppend(hidden, events, RouteChanged(true), c);
    ReturnStays(hidden, back, more, c);
    RunConsistent(hidden, back + more, c);
    RunAppend(hidden, back + more, RunEnded(outcome), c);
    EndRunArms(Run(hidden, back + more, c), outcome, c);
  }

  // ----- what is armed when

  /** Failed runs since the last good one; a run aborted by leaving counts neither way. */
  function FailureStreak(hidden: bool, events: seq<Event>, c: Config): nat {
    if events == [] then 0
    else
      var past, e := events[..|events| - 1], events[|events| - 1];
      var s, streak := Run(hidden, past, c), FailureStreak(hidden, past, c);
      if !e.RunEnded? || !s.running || s.aborted then streak
      else match e.outcome
        case Resolved => 0
        case OtherError => streak + 1
        case AbortError => streak
  }

  predicate CountsRun(s: State, e: Event) {
    e.RunEnded? && s.running && !s.aborted && e.outcome != AbortError
  }

  /** Only a run that ends unaborted moves the failure count. */
  lemma FailuresStep(s: State, e: Event, c: Config)
    requires s.inFlight == (if s.running then 1 else 0)
    ensures !CountsRun(s, e) ==> Step(s, e, c).failures == s.failures
    ensures CountsRun(s, e) && e.outcome.Resolved? ==> Step(s, e, c).failures == 0
    ensures CountsRun(s, e) && e.outcome.OtherError?
      ==> Step(s, e, c).failures == if s.failures + 1 < 8 then s.failures + 1 else 8
  {
    match e {
      case RunEnded(outcome) => if 0 < s.inFlight { EndCounts(s, outcome, c); }
      case RouteChanged(active) => ChangedCounts(s, active, c);
      case VisibilityChanged(hidden, active) => ChangedCounts(s.(hidden := hidden), active, c);
      case PageShown(active) => ChangedCounts(s.(suspended := false), active, c);
      case _ =>
    }
  }

  lemma EndCounts(s: State, outcome: RunOutcome, c: Config)
    requires 0 < s.inFlight
    ensures EndRun(s, outcome, c).failures == FailuresAfter(s, outcome)
  {
  }

  lemma ChangedCounts(s: State, active: bool, c: Config)
    ensures Changed(s, active, c).failures == s.failures
  {
  }

  lemma {:induction false} StreakStep(hidden: bool, past: seq<Event>, e: Event, c: Config)
    ensures FailureStreak(hidden, past + [e], c)
      == if !CountsRun(Run(hidden, past, c), e) then FailureStreak(hidden, past, c)
         else if e.outcome.Resolved? then 0 else FailureStreak(hidden, past, c) + 1
  {
    assert (past + [e])[..|past|] == past;
  }

  lemma {:induction false} FailuresAreStreak(hidden: bool, events: seq<Event>, c: Config)
    ensures var streak := FailureStreak(hidden, events, c);
      Run(hidden, events, c).failures == if streak < 8 then streak else 8
  {
    if events != [] {
      var past, e := events[..|events| - 1], events[|events| - 1];
      FailuresAreStreak(hidden, past, c);
      RunConsistent(hidden, past, c);
      assert events == past + [e];
      StreakStep(hidden, past, e, c);
      CappedStep(Run(hidden, past, c), e, c, FailureStreak(hidden, past, c));
    }
  }

  lemma {:induction false} CappedStep(s: State, e: Event, c: Config, streak: nat)
    requires Consistent(s) && s.failures == if streak < 8 then streak else 8
    ensures var next := if !CountsRun(s, e) then streak else if e.outcome.Resolved? then 0 else streak + 1;
      Step(s, e, c).failures == if next < 8 then next else 8
  {
    FailuresStep(s, e, c);
  }

  lemma {:induction false} Doublings(n: nat)
    requires n <= 8
    ensures Pow2(n) == [1, 2, 4, 8, 16, 32, 64, 128, 256][n]
  {
    assert Pow2(2) == 4 && Pow2(4) == 16 && Pow2(6) == 64 && Pow2(8) == 256;
    assert Pow2(3) == 8 && Pow2(5) == 32 && Pow2(7) == 128;
  }

  /**
   The delay after a run of an awake poller, over every history: none if a refresh is due,
   otherwise the interval doubled for each failure since the last good run, eight at most,
   within the cap.
   */
  lemma {:induction false} DelayAfterRun(hidden: bool, events: seq<Event>, outcome: RunOutcome, c: Config)
    requires Run(hidden, events, c).running && Awake(Run(hidden, events, c))
    ensures var s, s' := Run(hidden, events, c), Run(hidden, events + [RunEnded(outcome)], c);
      var streak := FailureStreak(hidden, events + [RunEnded(outcome)], c);
      var retry := c.interval * [1, 2, 4, 8, 16, 32, 64, 128, 256][if streak < 8 then streak else 8];
      && !s'.running && !s'.refreshPending
      && s'.armed == map[s.nextTimer := if s.refreshPending then 0 else if retry < c.maxBackoff then retry else c.maxBackoff]
  {
    var s := Run(hidden, events, c);
    RunConsistent(hidden, events, c);
    RunAppend(hidden, events, RunEnded(outcome), c);
    FailuresAreStreak(hidden, events + [RunEnded(outcome)], c);
    EndRunArms(s, outcome, c);
    Doublings(FailuresAfter(s, outcome));
  }

  lemma ChangedArms(s: State, active: bool, c: Config)
    requires forall id :: id in s.armed ==> s.timer == Some(id) && id < s.nextTimer
    ensures var s' := Changed(s, active, c);
      && s'.running == s.running && s'.inFlight == s.inFlight && s'.failures == s.failures && s'.hidden == s.hidden
      && s'.suspended == s.suspended
      && if s.stopped || s.suspended || s.hidden then s'.armed == map[] && s'.aborted && !s'.refreshPending
         else if !active then s'.armed == map[s.nextTimer := c.interval] && s'.aborted && !s'.refreshPending
         else if s.running then s'.armed == map[] && s'.aborted == s.aborted
                                && (s'.refreshPending <==> s.refreshPending || s.aborted)
         else s'.armed == map[s.nextTimer := 0] && s'.aborted == s.aborted
  {
    assert ClearTimer(s).armed == map[];
  }

  /**
   Leaving and returning, in every run: away from an open page nothing is polled; on an open
   page an inactive route aborts the run and looks again after the interval; an active one
   polls at once, or lets the run under way finish, remembering the return if that run was aborted.
   */
  lemma {:induction false} HowRoutesChange(hidden: bool, events: seq<Event>, active: bool, c: Config)
    ensures var s, s' := Run(hidden, events, c), Run(hidden, events + [RouteChanged(active)], c);
      && s'.running == s.running && s'.inFlight == s.inFlight && s'.failures == s.failures
      && if s.stopped || s.suspended || s.hidden then s'.armed == map[] && s'.aborted && !s'.refreshPending
         else if !active then s'.armed == map[s.nextTimer := c.interval] && s'.aborted && !s'.refreshPending
         else if s.running then s'.armed == map[] && s'.aborted == s.aborted
                                && (s'.refreshPending <==> s.refreshPending || s.aborted)
         else s'.armed == map[s.nextTimer := 0] && s'.aborted == s.aborted
  {
    RunConsistent(hidden, events, c);
    RunAppend(hidden, events, RouteChanged(active), c);
    ChangedArms(Run(hidden, events, c), active, c);
  }

  /** Showing and hiding the document is the same change with what is then visible. */
  lemma {:induction false} HowVisibilityChanges(hidden: bool, events: seq<Event>, now: bool, active: bool, c: Config)
    requires !Run(hidden, events, c).stopped
    ensures var s, s' := Run(hidden, events, c), Run(hidden, events + [VisibilityChanged(now, active)], c);
      && s'.hidden == now && s'.suspended == s.suspended
      && if now || s.suspended then s'.armed == map[] && s'.aborted && !s'.refreshPending
         else if !active then s'.armed == map[s.nextTimer := c.interval] && s'.aborted && !s'.refreshPending
         else if s.running then s'.armed == map[] && (s'.refreshPending <==> s.refreshPending || s.aborted)
         else s'.armed == map[s.nextTimer := 0]
  {
    RunConsistent(hidden, events, c);
    RunAppend(hidden, events, VisibilityChanged(now, active), c);
    ChangedArms(Run(hidden, events, c).(hidden := now), active, c);
  }

  /** A timer that fires on an active route starts a run that nothing has aborted yet; otherwise the poller looks again later. */
  lemma {:induction false} HowTimersFire(hidden: bool, events: seq<Event>, id: nat, active: bool, c: Config)
    requires id in Run(hidden, events, c).armed
    ensures var s, s' := Run(hidden, events, c), Run(hidden, events + [TimerFired(id, active)], c);
      if s.running then s' == s.(armed := map[])
      else if active then s'.running && s'.inFlight == 1 && !s'.aborted && s'.armed == map[]
      else !s'.running && s'.inFlight == 0 && s'.armed == map[s.nextTimer := c.interval]
  {
    var s := Run(hidden, events, c);
    RunConsistent(hidden, events, c);
    RunAppend(hidden, events, TimerFired(id, active), c);
    assert s.armed - {id} == map[];
  }

  /**
   The page going away aborts the run and polls nothing until it is shown again, which is then
   the same change as to its route; after `stop` neither has any effect.
   */
  lemma {:induction false} HowPagesComeAndGo(hidden: bool, events: seq<Event>, active: bool, c: Config)
    ensures var s := Run(hidden, events, c);
      var gone, shown := Run(hidden, events + [PageHidden], c), Run(hidden, events + [PageShown(active)], c);
      if s.stopped then gone == s && shown == s
      else
        && gone.suspended && gone.armed == map[] && gone.aborted && gone.running == s.running && gone.hidden == s.hidden
        && !shown.suspended && shown.hidden == s.hidden && shown.running == s.running
        && (if s.hidden then shown.armed == map[] && shown.aborted && !shown.refreshPending
            else if !active then shown.armed == map[s.nextTimer := c.interval] && shown.aborted && !shown.refreshPending
            else if s.running then shown.armed == map[] && (shown.refreshPending <==> s.refreshPending || s.aborted)
            else shown.armed == map[s.nextTimer := 0])
  {
    var s := Run(hidden, events, c);
    RunConsistent(hidden, events, c);
    RunAppend(hidden, events, PageHidden, c);
    RunAppend(hidden, events, PageShown(active), c);
    Cleared(s);
    ChangedArms(s.(suspended := false), active, c);
  }
}
