/**
 Wallet sign-in and log-out sharing one chain of requests. Every segment that runs between
 two awaits is one atomic event; any interleaving of events is a run.
 */
module WalletSignIn {
  import opened Wrappers

  datatype Session = Session(address: string, provider: nat, version: nat)

  datatype Remembered = Remembered(session: Session, expiresAt: int)

  datatype Outcome = Returned(value: bool) | Threw

  datatype Phase =
    | Checking | Preparing | Signing | Verifying          // a sign-in's request sequence
    | AwaitingPrior | LoggingOut                          // a log-out
    | Settled(outcome: Outcome)

  /** A sign-in has a session; a log-out has none, and may have a prior task to wait for. */
  datatype Task = Task(session: Option<Session>, interactive: bool, prior: Option<nat>, phase: Phase)

  datatype Progress = Owns(task: nat) | Waits(prior: nat) | Done(outcome: Outcome)

  /** One call of `ensure`. */
  datatype Call = Call(session: Session, interactive: bool, progress: Progress)

  datatype State = State(remembered: Option<Remembered>, pending: Option<nat>, tasks: seq<Task>, calls: seq<Call>)

  /** The session data in a server reply. */
  datatype Data = Data(authenticated: bool, wallet: string, expiresAt: Option<int>)

  /** What an awaited request or signature brings. */
  datatype Reply = Failed | Answer(data: Option<Data>, usable: bool)

  datatype Event =
    | EnsureCalled(session: Session, interactive: bool, current: bool, now: int)
    | WaiterResumed(call: nat, current: bool, now: int)
    | TaskResumed(task: nat, reply: Reply, current: bool, canSign: bool, now: int)
    | OwnerResumed(task: nat)
    | LogoutCalled
    | Cleared

  const Initial := State(None, None, [], [])

  // ----- the segments

  predicate Ready(remembered: Option<Remembered>, session: Session, now: int) {
    remembered.Some? && remembered.value.session == session && now + 5000 < remembered.value.expiresAt
  }

  predicate Confirms(data: Option<Data>, session: Session) {
    data.Some? && data.value.authenticated && data.value.wallet == session.address
  }

  function Remember(data: Data, session: Session, now: int): Remembered {
    Remembered(session, if data.expiresAt.Some? then data.expiresAt.value else now + 60_000)
  }

  /** Entering `ensure` for call `c`: what the call does next, and the task it may start. */
  function Enter(s: State, c: Call, current: bool, now: int): (State, Progress) {
    if !current then (s, Done(Threw))
    else if Ready(s.remembered, c.session, now) then (s, Done(Returned(true)))
    else if s.pending.Some? then (s, Waits(s.pending.value))
    else (s.(tasks := s.tasks + [Task(Some(c.session), c.interactive, None, Checking)],
             pending := Some(|s.tasks|)),
          Owns(|s.tasks|))
  }

  function EnsureSegment(s: State, session: Session, interactive: bool, current: bool, now: int): State {
    var c := Call(session, interactive, Done(Threw));
    var (s', progress) := Enter(s, c, current, now);
    s'.(calls := s'.calls + [c.(progress := progress)])
  }

  /** A waiting call takes its prior's result only for the same session; otherwise it starts over. */
  function ResumeSegment(s: State, call: nat, current: bool, now: int): State {
    if |s.calls| <= call || !s.calls[call].progress.Waits? || |s.tasks| <= s.calls[call].progress.prior
      || !s.tasks[s.calls[call].progress.prior].phase.Settled? then s
    else
      var c := s.calls[call];
      var prior := s.tasks[c.progress.prior];
      var outcome := prior.phase.outcome;
      if !current then s.(calls := s.calls[call := c.(progress := Done(Threw))])
      else if prior.session == Some(c.session)
           && (outcome.Threw? || outcome.value || !c.interactive || prior.interactive) then
        s.(calls := s.calls[call := c.(progress := Done(outcome))])
      else
        var (s', progress) := Enter(s, c, current, now);
        s'.(calls := s'.calls[call := c.(progress := progress)])
  }

  function SetPhase(s: State, task: nat, phase: Phase): State
    requires task < |s.tasks|
  {
    s.(tasks := s.tasks[task := s.tasks[task].(phase := phase)])
  }

  /** A task resumes after its await. */
  function TaskSegment(s: State, task: nat, reply: Reply, current: bool, canSign: bool, now: int): State {
    if |s.tasks| <= task then s
    else
      var t := s.tasks[task];
      match t.phase
      case Settled(_) => s
      case AwaitingPrior =>
        if t.prior.Some? && t.prior.value < |s.tasks| && !s.tasks[t.prior.value].phase.Settled? then s
        else SetPhase(s, task, LoggingOut).(remembered := None)
      case LoggingOut => SetPhase(s, task, Settled(if reply.Failed? then Threw else Returned(false)))
      case Checking =>
        if t.session.None? || !current then SetPhase(s, task, Settled(Threw))
        else if reply.Answer? && Confirms(reply.data, t.session.value) then
          SetPhase(s, task, Settled(Returned(true)))
            .(remembered := Some(Remember(reply.data.value, t.session.value, now)))
        else
          SetPhase(s, task, if !t.interactive then Settled(Returned(false))
                            else if !canSign then Settled(Threw) else Preparing)
            .(remembered := None)
      case Preparing =>
        SetPhase(s, task, if reply.Failed? || !current || !reply.usable then Settled(Threw) else Signing)
      case Signing =>
        SetPhase(s, task, if reply.Failed? || !current then Settled(Threw) else Verifying)
      case Verifying =>
        if t.session.Some? && reply.Answer? && current && Confirms(reply.data, t.session.value) then
          SetPhase(s, task, Settled(Returned(true)))
            .(remembered := Some(Remember(reply.data.value, t.session.value, now)))
        else SetPhase(s, task, Settled(Threw))
  }

  /** The owner's `finally` and the delivery of the result to the calls it owns. */
  function OwnerSegment(s: State, task: nat): State {
    if |s.tasks| <= task || !s.tasks[task].phase.Settled? then s
    else
      s.(pending := if s.pending == Some(task) then None else s.pending,
         calls := seq(|s.calls|, i requires 0 <= i < |s.calls| =>
           if s.calls[i].progress == Owns(task) then s.calls[i].(progress := Done(s.tasks[task].phase.outcome))
           else s.calls[i]))
  }

  function LogoutSegment(s: State): State {
    s.(remembered := None, tasks := s.tasks + [Task(None, false, s.pending, AwaitingPrior)],
       pending := Some(|s.tasks|))
  }

  function Step(s: State, e: Event): State {
    match e
    case EnsureCalled(session, interactive, current, now) => EnsureSegment(s, session, interactive, current, now)
    case WaiterResumed(call, current, now) => ResumeSegment(s, call, current, now)
    case TaskResumed(task, reply, current, canSign, now) => TaskSegment(s, task, reply, current, canSign, now)
    case OwnerResumed(task) => OwnerSegment(s, task)
    case LogoutCalled => LogoutSegment(s)
    case Cleared => s.(remembered := None)
  }

  function Run(events: seq<Event>): State {
    if events == [] then Initial else Step(Run(events[..|events| - 1]), events[|events| - 1])
  }

  // ----- the object

  class SignIn {
    var authenticated: Option<Remembered>
    var pending: Option<nat>
    var tasks: seq<Task>
    var calls: seq<Call>

    ghost function View(): State
      reads this
    {
      State(authenticated, pending, tasks, calls)
    }

    constructor ()
      ensures View() == Initial
    {
      authenticated, pending, tasks, calls := None, None, [], [];
    }

    method BeginEnsure(c: Call, current: bool, now: int) returns (progress: Progress)
      modifies this
      ensures (View(), progress) == Enter(old(View()), c, current, now)
    {
      if !current {
        return Done(Threw);
      }
      if Ready(authenticated, c.session, now) {
        return Done(Returned(true));
      }
      if pending.Some? {
        return Waits(pending.value);
      }
      var id := |tasks|;
      tasks := tasks + [Task(Some(c.session), c.interactive, None, Checking)];
      pending := Some(id);
      progress := Owns(id);
    }

    method Ensure(session: Session, interactive: bool, current: bool, now: int)
      modifies this
      ensures View() == Step(old(View()), EnsureCalled(session, interactive, current, now))
    {
      var c := Call(session, interactive, Done(Threw));
      var progress := BeginEnsure(c, current, now);
      calls := calls + [c.(progress := progress)];
    }

    method ResumeWaiter(call: nat, current: bool, now: int)
      requires call < |calls| && calls[call].progress.Waits? && calls[call].progress.prior < |tasks|
      requires tasks[calls[call].progress.prior].phase.Settled?
      modifies this
      ensures View() == Step(old(View()), WaiterResumed(call, current, now))
    {
      var c := calls[call];
      var prior := tasks[c.progress.prior];
      var outcome := prior.phase.outcome;
      var progress;
      if !current {
        progress := Done(Threw);
      } else if prior.session == Some(c.session)
        && (outcome.Threw? || outcome.value || !c.interactive || prior.interactive) {
        progress := Done(outcome);
      } else {
        progress := BeginEnsure(c, current, now);
      }
      calls := calls[call := c.(progress := progress)];
    }

    method SetTaskPhase(task: nat, phase: Phase)
      requires task < |tasks|
      modifies this`tasks
      ensures tasks == old(tasks)[task := old(tasks)[task].(phase := phase)]
    {
      tasks := tasks[task := tasks[task].(phase := phase)];
    }

    /** Returns whether the reply confirmed the session, remembering it if so. */
    method RememberReply(data: Option<Data>, session: Session, now: int) returns (confirmed: bool)
      modifies this`authenticated
      ensures confirmed <==> Confirms(data, session)
      ensures authenticated == if confirmed then Some(Remember(data.value, session, now)) else old(authenticated)
    {
      if data.None? || !data.value.authenticated || data.value.wallet != session.address {
        return false;
      }
      authenticated := Some(Remember(data.value, session, now));
      confirmed := true;
    }

    method ResumeSignIn(task: nat, reply: Reply, current: bool, canSign: bool, now: int)
      requires task < |tasks| && tasks[task].session.Some?
      requires tasks[task].phase in {Checking, Preparing, Signing, Verifying}
      modifies this
      ensures View() == Step(old(View()), TaskResumed(task, reply, current, canSign, now))
    {
      var t := tasks[task];
      if !current || (reply.Failed? && t.phase != Checking) {
        SetTaskPhase(task, Settled(Threw));
        return;
      }
      match t.phase {
        case Checking =>
          var confirmed := false;
          if reply.Answer? {
            confirmed := RememberReply(reply.data, t.session.value, now);
          }
          if confirmed {
            SetTaskPhase(task, Settled(Returned(true)));
            return;
          }
          authenticated := None;
          if !t.interactive {
            SetTaskPhase(task, Settled(Returned(false)));
          } else if !canSign {
            SetTaskPhase(task, Settled(Threw));
          } else {
            SetTaskPhase(task, Preparing);
          }
        case Preparing =>
          if !reply.usable {
            SetTaskPhase(task, Settled(Threw));
          } else {
            SetTaskPhase(task, Signing);
          }
        case Signing =>
          SetTaskPhase(task, Verifying);
        case Verifying =>
          var confirmed := RememberReply(reply.data, t.session.value, now);
          SetTaskPhase(task, Settled(if confirmed then Returned(true) else Threw));
      }
    }

    method ResumeLogout(task: nat, reply: Reply)
      requires task < |tasks| && tasks[task].phase in {AwaitingPrior, LoggingOut}
      requires tasks[task].phase == AwaitingPrior && tasks[task].prior.Some? ==>
                 tasks[task].prior.value < |tasks| && tasks[tasks[task].prior.value].phase.Settled?
      modifies this
      ensures forall current, canSign, now ::
                View() == Step(old(View()), TaskResumed(task, reply, current, canSign, now))
    {
      if tasks[task].phase == AwaitingPrior {
        authenticated := None;
        SetTaskPhase(task, LoggingOut);
      } else {
        SetTaskPhase(task, Settled(if reply.Failed? then Threw else Returned(false)));
      }
    }

    method Finish(task: nat)
      requires task < |tasks| && tasks[task].phase.Settled?
      modifies this
      ensures View() == Step(old(View()), OwnerResumed(task))
    {
      if pending == Some(task) {
        pending := None;
      }
      var outcome := tasks[task].phase.outcome;
      calls := seq(|calls|, i requires 0 <= i < |calls| reads this =>
        if calls[i].progress == Owns(task) then calls[i].(progress := Done(outcome)) else calls[i]);
    }

    method Logout()
      modifies this
      ensures View() == Step(old(View()), LogoutCalled)
    {
      authenticated := None;
      var prior := pending;
      var id := |tasks|;
      tasks := tasks + [Task(None, false, prior, AwaitingPrior)];
      pending := Some(id);
    }

    method Clear()
      modifies this
      ensures View() == Step(old(View()), Cleared)
    {
      authenticated := None;
    }
  }

  // ----- the wait chain

  predicate Unsettled(s: State, i: nat) {
    i < |s.tasks| && !s.tasks[i].phase.Settled?
  }

  /** A task whose requests are under way. */
  predicate Active(t: Task) {
    !t.phase.Settled? && t.phase != AwaitingPrior
  }

  /**
   The unsettled tasks are the last ones; all but the first of them are log-outs waiting
   for the task just before them; and `pending` is the last task, or none once all settled.
   */
  predicate Chained(s: State) {
    && (forall i, j :: 0 <= i < j < |s.tasks| && !s.tasks[i].phase.Settled?
          ==> s.tasks[j].phase == AwaitingPrior && s.tasks[j].prior == Some(j - 1))
    && (s.pending.Some? ==> s.pending.value + 1 == |s.tasks|)
    && (s.pending.None? ==> forall i :: 0 <= i < |s.tasks| ==> s.tasks[i].phase.Settled?)
    && (forall i :: 0 <= i < |s.tasks| && s.tasks[i].prior.Some? ==> s.tasks[i].prior.value + 1 == i)
    && (forall i :: 0 <= i < |s.tasks| ==>
          if s.tasks[i].session.None? then s.tasks[i].phase in {AwaitingPrior, LoggingOut} || s.tasks[i].phase.Settled?
          else s.tasks[i].phase !in {AwaitingPrior, LoggingOut})
  }

  /** While a log-out request is under way nothing is remembered. */
  predicate Forgotten(s: State) {
    forall i :: 0 <= i < |s.tasks| && s.tasks[i].phase == LoggingOut ==> s.remembered.None?
  }

  lemma EnterKeeps(s: State, c: Call, current: bool, now: int)
    requires Chained(s) && Forgotten(s)
    ensures Chained(Enter(s, c, current, now).0) && Forgotten(Enter(s, c, current, now).0)
  {
  }

  lemma EnsureKeeps(s: State, session: Session, interactive: bool, current: bool, now: int)
    requires Chained(s) && Forgotten(s)
    ensures Chained(EnsureSegment(s, session, interactive, current, now))
    ensures Forgotten(EnsureSegment(s, session, interactive, current, now))
  {
    EnterKeeps(s, Call(session, interactive, Done(Threw)), current, now);
  }

  lemma ResumeKeeps(s: State, call: nat, current: bool, now: int)
    requires Chained(s) && Forgotten(s)
    ensures Chained(ResumeSegment(s, call, current, now)) && Forgotten(ResumeSegment(s, call, current, now))
  {
    if call < |s.calls| {
      EnterKeeps(s, s.calls[call], current, now);
    }
  }

  /** A task that can resume has only settled tasks before it. */
  lemma EnabledIsFirst(s: State, task: nat)
    requires Chained(s) && Unsettled(s, task)
    requires s.tasks[task].phase == AwaitingPrior && s.tasks[task].prior.Some? ==> !Unsettled(s, s.tasks[task].prior.value)
    ensures forall i :: 0 <= i < task ==> s.tasks[i].phase.Settled?
  {
    forall i | 0 <= i < task ensures s.tasks[i].phase.Settled? {
      if !s.tasks[i].phase.Settled? {
        assert false;
      }
    }
  }

  lemma SetPhaseKeeps(s: State, task: nat, phase: Phase)
    requires Chained(s) && Unsettled(s, task) && phase != AwaitingPrior
    requires forall i :: 0 <= i < task ==> s.tasks[i].phase.Settled?
    requires phase.Settled? || (phase == LoggingOut <==> s.tasks[task].session.None?)
    ensures Chained(SetPhase(s, task, phase))
  {
    var t := SetPhase(s, task, phase).tasks;
    assert forall i :: 0 <= i < |t| && i != task ==> t[i] == s.tasks[i];
    assert s.pending.Some?;
  }

  lemma TaskKeepsChain(s: State, task: nat, reply: Reply, current: bool, canSign: bool, now: int)
    requires Chained(s)
    ensures Chained(TaskSegment(s, task, reply, current, canSign, now))
  {
    var s' := TaskSegment(s, task, reply, current, canSign, now);
    if s' != s {
      EnabledIsFirst(s, task);
      SetPhaseKeeps(s, task, s'.tasks[task].phase);
    }
  }

  lemma TaskKeepsForgotten(s: State, task: nat, reply: Reply, current: bool, canSign: bool, now: int)
    requires Chained(s) && Forgotten(s)
    ensures Forgotten(TaskSegment(s, task, reply, current, canSign, now))
  {
    var s' := TaskSegment(s, task, reply, current, canSign, now);
    if s' != s {
      EnabledIsFirst(s, task);
      assert forall i :: 0 <= i < |s.tasks| && i != task ==> s'.tasks[i] == s.tasks[i];
    }
  }

  lemma OwnerKeeps(s: State, task: nat)
    requires Chained(s) && Forgotten(s)
    ensures Chained(OwnerSegment(s, task)) && Forgotten(OwnerSegment(s, task))
  {
    if task < |s.tasks| && s.tasks[task].phase.Settled? && s.pending == Some(task) {
      forall i | 0 <= i < |s.tasks| ensures s.tasks[i].phase.Settled? {
        assert i < task || i == task;
      }
    }
  }

  lemma LogoutKeeps(s: State)
    requires Chained(s) && Forgotten(s)
    ensures Chained(LogoutSegment(s)) && Forgotten(LogoutSegment(s))
  {
  }

  lemma StepKeeps(s: State, e: Event)
    requires Chained(s) && Forgotten(s)
    ensures Chained(Step(s, e)) && Forgotten(Step(s, e))
  {
    match e {
      case EnsureCalled(session, interactive, current, now) =>
        EnsureKeeps(s, session, interactive, current, now);
      case WaiterResumed(call, current, now) => ResumeKeeps(s, call, current, now);
      case TaskResumed(task, reply, current, canSign, now) =>
        TaskKeepsChain(s, task, reply, current, canSign, now);
        TaskKeepsForgotten(s, task, reply, current, canSign, now);
      case OwnerResumed(task) => OwnerKeeps(s, task);
      case LogoutCalled => LogoutKeeps(s);
      case Cleared =>
    }
  }

  lemma {:induction false} RunKeeps(events: seq<Event>)
    ensures Chained(Run(events)) && Forgotten(Run(events))
  {
    if events != [] {
      RunKeeps(events[..|events| - 1]);
      StepKeeps(Run(events[..|events| - 1]), events[|events| - 1]);
    }
  }

  /**
   In every interleaving at most one task has requests under way, everything behind the
   first unsettled task waits for its predecessor, `pending` is the tail of that chain, and
   the first unsettled task itself never waits for an unsettled one: the chain moves on.
   */
  lemma {:induction false} OneSequenceAtATime(events: seq<Event>)
    ensures var s := Run(events);
      && (forall i, j :: 0 <= i < j < |s.tasks| ==> !(Active(s.tasks[i]) && Active(s.tasks[j])))
      && (forall i: nat :: Unsettled(s, i) ==> s.pending == Some(|s.tasks| - 1))
      && (forall i: nat, j: nat :: Unsettled(s, i) && i < j < |s.tasks|
            ==> Unsettled(s, j) && s.tasks[j].prior == Some(j - 1))
      && (forall i: nat :: Unsettled(s, i) && (forall j: nat :: j < i ==> !Unsettled(s, j))
            ==> s.tasks[i].prior.None? || !Unsettled(s, s.tasks[i].prior.value))
  {
    RunKeeps(events);
  }

  /** Whatever sign-ins were in flight, when a log-out completes nothing is remembered. */
  lemma {:induction false} LogoutForgets(events: seq<Event>, task: nat, reply: Reply, current: bool, canSign: bool, now: int)
    requires task < |Run(events).tasks| && Run(events).tasks[task].phase == LoggingOut
    ensures var s := Run(events + [TaskResumed(task, reply, current, canSign, now)]);
      s.tasks[task].phase.Settled? && s.remembered.None?
  {
    RunKeeps(events);
    var e := TaskResumed(task, reply, current, canSign, now);
    assert (events + [e])[..|events|] == events;
  }

  // ----- what the server confirmed

  /** The session, if any, whose ownership the server's reply confirms in this event. */
  function ConfirmedIn(s: State, e: Event): set<Session> {
    if e.TaskResumed? && e.task < |s.tasks| && e.reply.Answer? && e.current
       && s.tasks[e.task].session.Some? && s.tasks[e.task].phase in {Checking, Verifying}
       && Confirms(e.reply.data, s.tasks[e.task].session.value)
    then {s.tasks[e.task].session.value} else {}
  }

  /** What was confirmed from event `from` on. */
  function Confirmed(events: seq<Event>, from: nat): set<Session> {
    if |events| <= from then {}
    else
      var past := events[..|events| - 1];
      Confirmed(past, from) + ConfirmedIn(Run(past), events[|events| - 1])
  }

  /**
   For tasks from `t0` and calls from `c0` on: what is remembered, and every true outcome, is
   for a confirmed session; these calls own and wait for these tasks only.
   */
  predicate Backed(s: State, confirmed: set<Session>, t0: nat, c0: nat) {
    && t0 <= |s.tasks| && c0 <= |s.calls| && (s.pending.Some? ==> t0 <= s.pending.value)
    && (s.remembered.Some? ==> s.remembered.value.session in confirmed)
    && (forall i :: t0 <= i < |s.tasks| ==> TaskBacked(s.tasks[i], confirmed))
    && (forall i :: c0 <= i < |s.calls| ==> CallBacked(s, s.calls[i], confirmed, t0))
  }

  predicate TaskBacked(t: Task, confirmed: set<Session>) {
    t.phase == Settled(Returned(true)) ==> t.session.Some? && t.session.value in confirmed
  }

  predicate CallBacked(s: State, c: Call, confirmed: set<Session>, t0: nat) {
    match c.progress
    case Done(outcome) => outcome == Returned(true) ==> c.session in confirmed
    case Waits(prior) => t0 <= prior
    case Owns(task) => t0 <= task < |s.tasks| && s.tasks[task].session == Some(c.session)
  }

  /** Calls stay backed while tasks keep their sessions and more is confirmed. */
  lemma CallStays(s: State, s': State, c: Call, confirmed: set<Session>, more: set<Session>, t0: nat)
    requires CallBacked(s, c, confirmed, t0) && |s.tasks| <= |s'.tasks| && confirmed <= more
    requires forall i :: 0 <= i < |s.tasks| ==> s'.tasks[i].session == s.tasks[i].session
    ensures CallBacked(s', c, more, t0)
  {
  }

  lemma EnterBacked(s: State, c: Call, current: bool, now: int, confirmed: set<Session>, t0: nat, c0: nat)
    requires Backed(s, confirmed, t0, c0)
    ensures var (s', progress) := Enter(s, c, current, now);
      && s'.calls == s.calls && Backed(s', confirmed, t0, c0)
      && CallBacked(s', c.(progress := progress), confirmed, t0)
  {
    var s' := Enter(s, c, current, now).0;
    assert forall i :: 0 <= i < |s.tasks| ==> s'.tasks[i] == s.tasks[i];
    forall i | c0 <= i < |s.calls| ensures CallBacked(s', s.calls[i], confirmed, t0) {
      CallStays(s, s', s.calls[i], confirmed, confirmed, t0);
    }
  }

  lemma EnsureBacked(s: State, session: Session, interactive: bool, current: bool, now: int,
                     confirmed: set<Session>, t0: nat, c0: nat)
    requires Backed(s, confirmed, t0, c0)
    ensures Backed(EnsureSegment(s, session, interactive, current, now), confirmed, t0, c0)
  {
    var c := Call(session, interactive, Done(Threw));
    EnterBacked(s, c, current, now, confirmed, t0, c0);
    var (s', progress) := Enter(s, c, current, now);
    PutCall(s', s'.calls + [c.(progress := progress)], confirmed, t0, c0);
  }

  lemma PutCall(s: State, calls: seq<Call>, confirmed: set<Session>, t0: nat, c0: nat)
    requires Backed(s, confirmed, t0, c0) && c0 <= |calls|
    requires forall i :: c0 <= i < |calls| ==> CallBacked(s, calls[i], confirmed, t0)
    ensures Backed(s.(calls := calls), confirmed, t0, c0)
  {
    forall i | c0 <= i < |calls| ensures CallBacked(s.(calls := calls), calls[i], confirmed, t0) {
      CallStays(s, s.(calls := calls), calls[i], confirmed, confirmed, t0);
    }
  }

  lemma ResumeBacked(s: State, call: nat, current: bool, now: int, confirmed: set<Session>, t0: nat, c0: nat)
    requires Backed(s, confirmed, t0, c0)
    ensures Backed(ResumeSegment(s, call, current, now), confirmed, t0, c0)
  {
    if ResumeSegment(s, call, current, now) != s {
      var c := s.calls[call];
      EnterBacked(s, c, current, now, confirmed, t0, c0);
      var s' := ResumeSegment(s, call, current, now);
      var middle := s'.(calls := s.calls);
      assert Backed(middle, confirmed, t0, c0);
      forall i | c0 <= i < |s'.calls| ensures CallBacked(middle, s'.calls[i], confirmed, t0) {
        if i == call && s.tasks[c.progress.prior].session == Some(c.session) {
          assert CallBacked(s, c, confirmed, t0) && TaskBacked(s.tasks[c.progress.prior], confirmed);
        }
      }
      PutCall(middle, s'.calls, confirmed, t0, c0);
    }
  }

  lemma TasksBacked(s: State, e: Event, confirmed: set<Session>, t0: nat, c0: nat)
    requires Backed(s, confirmed, t0, c0) && e.TaskResumed? && Chained(s)
    ensures Backed(Step(s, e), confirmed + ConfirmedIn(s, e), t0, c0)
  {
    var s', more := Step(s, e), confirmed + ConfirmedIn(s, e);
    assert |s'.tasks| == |s.tasks| && s'.calls == s.calls && s'.pending == s.pending;
    forall i | 0 <= i < |s.tasks| ensures s'.tasks[i].session == s.tasks[i].session {}
    forall i | t0 <= i < |s.tasks| ensures TaskBacked(s'.tasks[i], more) {
      assert TaskBacked(s.tasks[i], confirmed);
    }
    forall i | c0 <= i < |s.calls| ensures CallBacked(s', s.calls[i], more, t0) {
      CallStays(s, s', s.calls[i], confirmed, more, t0);
    }
  }

  lemma OwnerBacked(s: State, task: nat, confirmed: set<Session>, t0: nat, c0: nat)
    requires Backed(s, confirmed, t0, c0)
    ensures Backed(OwnerSegment(s, task), confirmed, t0, c0)
  {
    var s' := OwnerSegment(s, task);
    if s' != s {
      var middle := s.(pending := s'.pending);
      forall i | c0 <= i < |s.calls| ensures CallBacked(middle, s.calls[i], confirmed, t0) {
        CallStays(s, middle, s.calls[i], confirmed, confirmed, t0);
      }
      assert Backed(middle, confirmed, t0, c0);
      forall i | c0 <= i < |s'.calls| ensures CallBacked(middle, s'.calls[i], confirmed, t0) {
        assert CallBacked(s, s.calls[i], confirmed, t0);
      }
      PutCall(middle, s'.calls, confirmed, t0, c0);
    }
  }

  lemma LogoutBacked(s: State, confirmed: set<Session>, t0: nat, c0: nat)
    requires Backed(s, confirmed, t0, c0)
    ensures Backed(LogoutSegment(s), confirmed, t0, c0)
  {
    var s' := LogoutSegment(s);
    assert forall i :: 0 <= i < |s.tasks| ==> s'.tasks[i] == s.tasks[i];
    forall i | c0 <= i < |s.calls| ensures CallBacked(s', s.calls[i], confirmed, t0) {
      CallStays(s, s', s.calls[i], confirmed, confirmed, t0);
    }
  }

  lemma ClearBacked(s: State, confirmed: set<Session>, t0: nat, c0: nat)
    requires Backed(s, confirmed, t0, c0)
    ensures Backed(s.(remembered := None), confirmed, t0, c0)
  {
    forall i | c0 <= i < |s.calls| ensures CallBacked(s.(remembered := None), s.calls[i], confirmed, t0) {
      CallStays(s, s.(remembered := None), s.calls[i], confirmed, confirmed, t0);
    }
  }

  lemma StepBacked(s: State, e: Event, confirmed: set<Session>, t0: nat, c0: nat)
    requires Backed(s, confirmed, t0, c0) && Chained(s)
    ensures Backed(Step(s, e), confirmed + ConfirmedIn(s, e), t0, c0)
  {
    if e.TaskResumed? {
      TasksBacked(s, e, confirmed, t0, c0);
    } else {
      assert confirmed + ConfirmedIn(s, e) == confirmed;
      match e {
        case EnsureCalled(session, interactive, current, now) =>
          EnsureBacked(s, session, interactive, current, now, confirmed, t0, c0);
        case WaiterResumed(call, current, now) => ResumeBacked(s, call, current, now, confirmed, t0, c0);
        case OwnerResumed(task) => OwnerBacked(s, task, confirmed, t0, c0);
        case LogoutCalled => LogoutBacked(s, confirmed, t0, c0);
        case Cleared => ClearBacked(s, confirmed, t0, c0);
      }
    }
  }

  lemma {:induction false} BackedSince(events: seq<Event>, from: nat, n: nat, t0: nat, c0: nat)
    requires from <= n <= |events| && Backed(Run(events[..from]), {}, t0, c0)
    ensures Backed(Run(events[..n]), Confirmed(events[..n], from), t0, c0)
  {
    if from < n {
      BackedSince(events, from, n - 1, t0, c0);
      assert events[..n] == events[..n - 1] + [events[n - 1]];
      BackedOnward(events[..n - 1], events[n - 1], from, t0, c0);
    }
  }

  lemma {:induction false} BackedOnward(past: seq<Event>, e: Event, from: nat, t0: nat, c0: nat)
    requires from <= |past| && Backed(Run(past), Confirmed(past, from), t0, c0)
    ensures Backed(Run(past + [e]), Confirmed(past + [e], from), t0, c0)
  {
    RunKeeps(past);
    assert (past + [e])[..|past|] == past;
    StepBacked(Run(past), e, Confirmed(past, from), t0, c0);
  }

  /** `ensure` returns true only for an address, provider and version that the server confirmed. */
  lemma {:induction false} TrueOnlyIfConfirmed(events: seq<Event>, call: nat)
    requires call < |Run(events).calls| && Run(events).calls[call].progress == Done(Returned(true))
    ensures Run(events).calls[call].session in Confirmed(events, 0)
  {
    assert events[..0] == [] && events[..|events|] == events;
    BackedSince(events, 0, |events|, 0, 0);
    BackedCall(Run(events), Confirmed(events, 0), 0, 0, call);
  }

  /** When a log-out settles nothing that came before it backs anything. */
  lemma {:induction false} SettledLogoutIsBlank(events: seq<Event>, task: nat, e: Event)
    requires task < |Run(events).tasks| && Run(events).tasks[task].phase == LoggingOut
    requires e.TaskResumed? && e.task == task
    ensures var s := Run(events + [e]); Backed(s, {}, task, |s.calls|)
  {
    RunKeeps(events);
    assert (events + [e])[..|events|] == events;
    var s, s' := Run(events), Run(events + [e]);
    forall i | task <= i < |s'.tasks| ensures TaskBacked(s'.tasks[i], {}) {
      assert i == task || s'.tasks[i] == s.tasks[i];
    }
  }

  /**
   After a log-out settled at event `at`, a call entered later returns true only for a session
   that the server confirmed after that log-out, whatever was confirmed, pending or in
   flight before.
   */
  lemma {:induction false} TrueOnlyIfConfirmedSinceLogout(events: seq<Event>, at: nat, call: nat)
    requires at < |events| && events[at].TaskResumed?
    requires var s, task := Run(events[..at]), events[at].task; task < |s.tasks| && s.tasks[task].phase == LoggingOut
    requires |Run(events[..at + 1]).calls| <= call < |Run(events).calls|
    requires Run(events).calls[call].progress == Done(Returned(true))
    ensures Run(events).calls[call].session in Confirmed(events, at + 1)
  {
    var task, c0 := events[at].task, |Run(events[..at + 1]).calls|;
    assert events[..at] + [events[at]] == events[..at + 1];
    SettledLogoutIsBlank(events[..at], task, events[at]);
    BackedToEnd(events, at + 1, task, c0);
    BackedCall(Run(events), Confirmed(events, at + 1), task, c0, call);
  }

  lemma {:induction false} BackedToEnd(events: seq<Event>, from: nat, t0: nat, c0: nat)
    requires from <= |events| && Backed(Run(events[..from]), {}, t0, c0)
    ensures Backed(Run(events), Confirmed(events, from), t0, c0)
  {
    BackedSince(events, from, |events|, t0, c0);
    assert events[..|events|] == events;
  }

  lemma BackedCall(s: State, confirmed: set<Session>, t0: nat, c0: nat, call: nat)
    requires Backed(s, confirmed, t0, c0) && c0 <= call < |s.calls| && s.calls[call].progress == Done(Returned(true))
    ensures s.calls[call].session in confirmed
  {
    assert CallBacked(s, s.calls[call], confirmed, t0);
  }

  // ----- what an answer rests on

  /** At event `k` the server answered this task, for the session still in use, that its address is signed in. */
  predicate SaidSignedIn(events: seq<Event>, k: nat, session: Session) {
    k < |events| && events[k].TaskResumed? && events[k].current && events[k].reply.Answer?
    && events[k].reply.data.Some? && events[k].reply.data.value.authenticated
    && events[k].reply.data.value.wallet == session.address
    && var s := Run(events[..k]);
       events[k].task < |s.tasks| && s.tasks[events[k].task].session == Some(session)
       && s.tasks[events[k].task].phase in {Checking, Verifying}
  }

  lemma {:induction false} WhenConfirmed(events: seq<Event>, from: nat, session: Session) returns (k: nat)
    requires session in Confirmed(events, from)
    ensures from <= k && SaidSignedIn(events, k, session)
  {
    var n := |events| - 1;
    var past := events[..n];
    if session in Confirmed(past, from) {
      k := WhenConfirmed(past, from, session);
      assert past[..k] == events[..k];
    } else {
      k := n;
    }
  }

  /**
   A call that returned true did so on the server's word: at some event of the run it answered
   a task of that very session that it is authenticated, under that address.
   */
  lemma {:induction false} TrueOnServersWord(events: seq<Event>, call: nat) returns (k: nat)
    requires call < |Run(events).calls| && Run(events).calls[call].progress == Done(Returned(true))
    ensures SaidSignedIn(events, k, Run(events).calls[call].session)
  {
    TrueOnlyIfConfirmed(events, call);
    k := WhenConfirmed(events, 0, Run(events).calls[call].session);
  }

  // ----- what is signed

  /** At `j` the server's answer, if any, does not name this address as signed in, and the wallet can sign. */
  predicate AskedToPrepare(events: seq<Event>, task: nat, address: string, j: nat) {
    j < |events| && events[j].TaskResumed? && events[j].task == task && events[j].current && events[j].canSign
    && (events[j].reply.Failed? || events[j].reply.data.None? || !events[j].reply.data.value.authenticated
        || events[j].reply.data.value.wallet != address)
  }

  /** After that, at `k`, the server sent a message fit to sign. */
  predicate AskedToSign(events: seq<Event>, task: nat, address: string, j: nat, k: nat) {
    j < k < |events| && AskedToPrepare(events, task, address, j)
    && events[k].TaskResumed? && events[k].task == task && events[k].current
    && events[k].reply.Answer? && events[k].reply.usable
  }

  ghost predicate SignsAsAsked(events: seq<Event>, s: State, task: nat)
    requires task < |s.tasks|
  {
    && (s.tasks[task].phase in {Preparing, Signing, Verifying} ==> s.tasks[task].interactive && s.tasks[task].session.Some?)
    && (s.tasks[task].phase == Preparing ==> exists j: nat :: AskedToPrepare(events, task, s.tasks[task].session.value.address, j))
    && (s.tasks[task].phase in {Signing, Verifying} ==> exists j: nat, k: nat :: AskedToSign(events, task, s.tasks[task].session.value.address, j, k))
  }

  lemma {:induction false} SignsGrows(past: seq<Event>, e: Event, s: State, task: nat)
    requires task < |s.tasks| && SignsAsAsked(past, s, task)
    ensures SignsAsAsked(past + [e], s, task)
  {
    var address := if s.tasks[task].session.Some? then s.tasks[task].session.value.address else "";
    if s.tasks[task].phase == Preparing {
      var j: nat :| AskedToPrepare(past, task, address, j);
      assert AskedToPrepare(past + [e], task, address, j);
    }
    if s.tasks[task].phase in {Signing, Verifying} {
      var j: nat, k: nat :| AskedToSign(past, task, address, j, k);
      assert AskedToSign(past + [e], task, address, j, k);
    }
  }

  /** Only its own reply moves a task to another phase; a new one starts with the check or behind another task. */
  lemma PhaseMoves(s: State, e: Event, task: nat)
    requires task < |Step(s, e).tasks|
    requires task < |s.tasks| ==> Step(s, e).tasks[task] != s.tasks[task]
    ensures if |s.tasks| <= task then Step(s, e).tasks[task].phase in {Checking, AwaitingPrior}
            else e.TaskResumed? && e.task == task
                 && Step(s, e).tasks[task] == s.tasks[task].(phase := Step(s, e).tasks[task].phase)
  {
  }

  /** What moves a task into preparing, signing and verifying. */
  lemma TowardsSigning(s: State, e: Event, task: nat)
    requires e.TaskResumed? && e.task == task && task < |s.tasks| && Step(s, e).tasks[task] != s.tasks[task]
    ensures var t, p := s.tasks[task], Step(s, e).tasks[task].phase;
      && (p == Preparing ==>
            t.phase == Checking && t.interactive && t.session.Some? && e.current && e.canSign
            && (e.reply.Failed? || e.reply.data.None? || !e.reply.data.value.authenticated
                || e.reply.data.value.wallet != t.session.value.address))
      && (p == Signing ==> t.phase == Preparing && e.current && e.reply.Answer? && e.reply.usable)
      && (p == Verifying ==> t.phase == Signing && e.current && e.reply.Answer?)
  {
  }

  lemma {:induction false} RunSignsAsAsked(events: seq<Event>, task: nat)
    requires task < |Run(events).tasks|
    ensures SignsAsAsked(events, Run(events), task)
  {
    if events != [] {
      var n := |events| - 1;
      var past, e := events[..n], events[n];
      assert events == past + [e];
      if task < |Run(past).tasks| {
        RunSignsAsAsked(past, task);
        SignsGrows(past, e, Run(past), task);
      }
      if task >= |Run(past).tasks| || Run(events).tasks[task] != Run(past).tasks[task] {
        PhaseMoves(Run(past), e, task);
        if task < |Run(past).tasks| {
          TowardsSigning(Run(past), e, task);
          NextPhase(past, e, task);
        }
      }
    }
  }

  lemma {:induction false} NextPhase(past: seq<Event>, e: Event, task: nat)
    requires task < |Run(past).tasks| && SignsAsAsked(past, Run(past), task)
    requires e.TaskResumed? && e.task == task && Step(Run(past), e).tasks[task] != Run(past).tasks[task]
    requires Step(Run(past), e).tasks[task] == Run(past).tasks[task].(phase := Step(Run(past), e).tasks[task].phase)
    ensures SignsAsAsked(past + [e], Step(Run(past), e), task)
  {
    var s, s' := Run(past), Step(Run(past), e);
    TowardsSigning(s, e, task);
    var address := if s.tasks[task].session.Some? then s.tasks[task].session.value.address else "";
    match s'.tasks[task].phase {
      case Preparing => assert AskedToPrepare(past + [e], task, address, |past|);
      case Signing =>
        var j: nat :| AskedToPrepare(past, task, address, j);
        assert AskedToSign(past + [e], task, address, j, |past|);
      case Verifying =>
        var j: nat, k: nat :| AskedToSign(past, task, address, j, k);
        assert AskedToSign(past + [e], task, address, j, k);
      case _ =>
    }
  }

  /**
   The wallet is asked to sign only for an interactive call, once the server did not know it
   and it can sign, and then only a message the server sent in a usable form.
   */
  lemma {:induction false} SignedOnlyWhenAsked(events: seq<Event>, task: nat) returns (j: nat, k: nat)
    requires task < |Run(events).tasks| && Run(events).tasks[task].phase in {Signing, Verifying}
    ensures var t := Run(events).tasks[task];
      t.interactive && t.session.Some? && AskedToSign(events, task, t.session.value.address, j, k)
  {
    RunSignsAsAsked(events, task);
    j, k :| AskedToSign(events, task, Run(events).tasks[task].session.value.address, j, k);
  }

  // ----- no silent refusal of an interactive call

  predicate NotFalse(o: Outcome) {
    o.Returned? ==> o.value
  }

  /** An interactive sign-in settles with true or an exception, and so do the calls that asked for one. */
  predicate NeverFalse(s: State) {
    && (forall i :: 0 <= i < |s.tasks| && s.tasks[i].session.Some? && s.tasks[i].interactive && s.tasks[i].phase.Settled?
          ==> NotFalse(s.tasks[i].phase.outcome))
    && (forall i :: 0 <= i < |s.calls| && s.calls[i].interactive ==> CallNeverFalse(s, s.calls[i]))
  }

  predicate CallNeverFalse(s: State, c: Call) {
    match c.progress
    case Done(outcome) => NotFalse(outcome)
    case Owns(task) => task < |s.tasks| && s.tasks[task].session.Some? && s.tasks[task].interactive
    case Waits(_) => true
  }

  lemma EnterNeverFalse(s: State, c: Call, current: bool, now: int)
    requires NeverFalse(s)
    ensures var (s', progress) := Enter(s, c, current, now);
      NeverFalse(s') && s'.calls == s.calls && (c.interactive ==> CallNeverFalse(s', c.(progress := progress)))
  {
    var s' := Enter(s, c, current, now).0;
    assert forall i :: 0 <= i < |s.tasks| ==> s'.tasks[i] == s.tasks[i];
    forall i | 0 <= i < |s.calls| && s.calls[i].interactive ensures CallNeverFalse(s', s.calls[i]) {
      assert CallNeverFalse(s, s.calls[i]);
    }
  }

  lemma CallsNeverFalse(s: State, calls: seq<Call>)
    requires NeverFalse(s) && forall i :: 0 <= i < |calls| && calls[i].interactive ==> CallNeverFalse(s, calls[i])
    ensures NeverFalse(s.(calls := calls))
  {
    forall i | 0 <= i < |calls| && calls[i].interactive ensures CallNeverFalse(s.(calls := calls), calls[i]) {
      assert CallNeverFalse(s, calls[i]);
    }
  }

  lemma TaskNeverFalse(s: State, e: Event)
    requires NeverFalse(s) && e.TaskResumed?
    requires Chained(s)
    ensures NeverFalse(Step(s, e))
  {
    var s' := Step(s, e);
    TaskSettles(s, e);
    forall i | 0 <= i < |s.calls| && s.calls[i].interactive ensures CallNeverFalse(s', s.calls[i]) {
      assert CallNeverFalse(s, s.calls[i]);
    }
  }

  predicate SettlesWell(t: Task) {
    t.session.Some? && t.interactive && t.phase.Settled? ==> NotFalse(t.phase.outcome)
  }

  /** A reply moves one task, and an interactive sign-in never to a settled false. */
  lemma TaskSettles(s: State, e: Event)
    requires e.TaskResumed? && Chained(s)
    ensures var s' := Step(s, e);
      && |s'.tasks| == |s.tasks| && s'.calls == s.calls
      && (forall i :: 0 <= i < |s.tasks| ==>
            s'.tasks[i].session == s.tasks[i].session && s'.tasks[i].interactive == s.tasks[i].interactive)
      && (forall i :: 0 <= i < |s.tasks| && s'.tasks[i] != s.tasks[i] ==> SettlesWell(s'.tasks[i]))
  {
  }

  lemma StepNeverFalse(s: State, e: Event)
    requires NeverFalse(s) && Chained(s)
    ensures NeverFalse(Step(s, e))
  {
    match e {
      case EnsureCalled(session, interactive, current, now) =>
        var c := Call(session, interactive, Done(Threw));
        EnterNeverFalse(s, c, current, now);
        CallsNeverFalse(Enter(s, c, current, now).0, Step(s, e).calls);
      case WaiterResumed(call, current, now) =>
        if Step(s, e) != s {
          EnterNeverFalse(s, s.calls[call], current, now);
          ResumedNeverFalse(s, call, current, now);
        }
      case TaskResumed(_, _, _, _, _) => TaskNeverFalse(s, e);
      case OwnerResumed(task) => OwnerNeverFalse(s, task);
      case LogoutCalled =>
        var s' := Step(s, e);
        assert forall i :: 0 <= i < |s.tasks| ==> s'.tasks[i] == s.tasks[i];
        forall i | 0 <= i < |s.calls| && s.calls[i].interactive ensures CallNeverFalse(s', s.calls[i]) {
          assert CallNeverFalse(s, s.calls[i]);
        }
      case Cleared =>
        forall i | 0 <= i < |s.calls| && s.calls[i].interactive ensures CallNeverFalse(Step(s, e), s.calls[i]) {
          assert CallNeverFalse(s, s.calls[i]);
        }
    }
  }

  lemma ResumedNeverFalse(s: State, call: nat, current: bool, now: int)
    requires NeverFalse(s) && call < |s.calls| && ResumeSegment(s, call, current, now) != s
    requires var c := s.calls[call];
      var (s', progress) := Enter(s, c, current, now);
      NeverFalse(s') && s'.calls == s.calls && (c.interactive ==> CallNeverFalse(s', c.(progress := progress)))
    ensures NeverFalse(ResumeSegment(s, call, current, now))
  {
    var s' := ResumeSegment(s, call, current, now);
    var middle := s'.(calls := s.calls);
    forall i | 0 <= i < |s'.calls| && s'.calls[i].interactive ensures CallNeverFalse(middle, s'.calls[i]) {
      if i != call {
        assert CallNeverFalse(s, s.calls[i]);
      }
    }
    CallsNeverFalse(middle, s'.calls);
  }

  lemma OwnerNeverFalse(s: State, task: nat)
    requires NeverFalse(s)
    ensures NeverFalse(OwnerSegment(s, task))
  {
    var s' := OwnerSegment(s, task);
    forall i | 0 <= i < |s'.calls| && s'.calls[i].interactive ensures CallNeverFalse(s', s'.calls[i]) {
      assert CallNeverFalse(s, s.calls[i]);
    }
  }

  lemma {:induction false} RunNeverFalse(events: seq<Event>)
    ensures NeverFalse(Run(events))
  {
    if events != [] {
      RunNeverFalse(events[..|events| - 1]);
      RunKeeps(events[..|events| - 1]);
      StepNeverFalse(Run(events[..|events| - 1]), events[|events| - 1]);
    }
  }

  /** An interactive call, its own task's or one that waited, never returns false: it returns true or throws. */
  lemma {:induction false} InteractiveNeverFalse(events: seq<Event>, call: nat)
    requires call < |Run(events).calls| && Run(events).calls[call].interactive
    ensures Run(events).calls[call].progress != Done(Returned(false))
  {
    RunNeverFalse(events);
    assert CallNeverFalse(Run(events), Run(events).calls[call]);
  }

  // ----- how a call is answered

  lemma {:induction false} RunAppend(events: seq<Event>, e: Event)
    ensures Run(events + [e]) == Step(Run(events), e)
  {
    assert (events + [e])[..|events|] == events;
  }

  /**
   Entering in any run: an outdated session throws; what is remembered for this very session
   with more than five seconds left answers true at once; while anything is pending the call
   waits for the last task; and otherwise it starts the check.
   */
  lemma {:induction false} HowEnsureStarts(events: seq<Event>, session: Session, interactive: bool, current: bool, now: int)
    ensures var s, s' := Run(events), Run(events + [EnsureCalled(session, interactive, current, now)]);
      var known := s.remembered.Some? && s.remembered.value.session == session && s.remembered.value.expiresAt - now > 5000;
      && s'.remembered == s.remembered
      && |s'.calls| == |s.calls| + 1 && s'.calls[..|s.calls|] == s.calls
      && s'.calls[|s.calls|].session == session && s'.calls[|s.calls|].interactive == interactive
      && var p := s'.calls[|s.calls|].progress;
         if !current then p == Done(Threw) && s'.tasks == s.tasks
         else if known then p == Done(Returned(true)) && s'.tasks == s.tasks
         else if s.tasks != [] && s.pending.Some? then p == Waits(|s.tasks| - 1) && s'.tasks == s.tasks
         else p == Owns(|s.tasks|) && s'.tasks == s.tasks + [Task(Some(session), interactive, None, Checking)]
              && s'.pending == Some(|s.tasks|)
  {
    RunKeeps(events);
    RunAppend(events, EnsureCalled(session, interactive, current, now));
  }

  /**
   What the server confirms settles its task with true and is remembered until the expiry the
   server sent, or else for a minute.
   */
  lemma {:induction false} ConfirmedIsRemembered(events: seq<Event>, e: Event, session: Session)
    requires SaidSignedIn(events + [e], |events|, session)
    ensures var s' := Run(events + [e]);
      && e.task < |s'.tasks| && s'.tasks[e.task].phase == Settled(Returned(true))
      && s'.remembered.Some? && s'.remembered.value.session == session
      && s'.remembered.value.expiresAt
           == (if e.reply.data.value.expiresAt.Some? then e.reply.data.value.expiresAt.value else e.now + 60_000)
  {
    assert (events + [e])[..|events|] == events;
  }

  /** A whole sign-in of a wallet the server does not know, through to a confirming reply. */
  function SigningIn(task: nat, data: Option<Data>, now: int): seq<Event> {
    [TaskResumed(task, Answer(None, true), true, true, now), TaskResumed(task, Answer(None, true), true, true, now),
     TaskResumed(task, Answer(None, true), true, true, now), TaskResumed(task, Answer(data, true), true, true, now),
     OwnerResumed(task)]
  }

  lemma {:induction false} UpToVerifying(events: seq<Event>, session: Session, r: seq<Event>, now: int)
    requires Run(events).pending.None? && Run(events).remembered.None? && 3 <= |r|
    requires forall i :: 0 <= i < 3 ==> r[i] == TaskResumed(|Run(events).tasks|, Answer(None, true), true, true, now)
    ensures var s, s' := Run(events), Run(events + [EnsureCalled(session, true, true, now)] + [r[0]] + [r[1]] + [r[2]]);
      && s'.pending == Some(|s.tasks|) && |s'.tasks| == |s.tasks| + 1
      && s'.tasks[|s.tasks|] == Task(Some(session), true, None, Verifying)
      && s'.calls == s.calls + [Call(session, true, Owns(|s.tasks|))]
  {
    var e := events + [EnsureCalled(session, true, true, now)];
    HowEnsureStarts(events, session, true, true, now);
    RunAppend(e, r[0]);
    RunAppend(e + [r[0]], r[1]);
    RunAppend(e + [r[0]] + [r[1]], r[2]);
  }

  /** Four replies later, an interactive call in a current session has signed in and its caller is told so. */
  lemma {:induction false} SignInCompletes(events: seq<Event>, session: Session, data: Data, now: int)
    requires Run(events).pending.None? && Run(events).remembered.None?
    requires data.authenticated && data.wallet == session.address
    ensures var s, s' := Run(events), Run(events + [EnsureCalled(session, true, true, now)]
                                          + SigningIn(|Run(events).tasks|, Some(data), now));
      && s'.pending.None? && s'.remembered.Some? && s'.remembered.value.session == session
      && |s'.calls| == |s.calls| + 1 && s'.calls[|s.calls|] == Call(session, true, Done(Returned(true)))
      && |s'.tasks| == |s.tasks| + 1 && s'.tasks[|s.tasks|].phase == Settled(Returned(true))
  {
    var t, e := |Run(events).tasks|, events + [EnsureCalled(session, true, true, now)];
    var r := SigningIn(t, Some(data), now);
    UpToVerifying(events, session, r, now);
    RunAppend(e + [r[0]] + [r[1]] + [r[2]], r[3]);
    RunAppend(e + [r[0]] + [r[1]] + [r[2]] + [r[3]], r[4]);
    assert e + r == e + [r[0]] + [r[1]] + [r[2]] + [r[3]] + [r[4]];
  }

  /**
   A call that waited: an outdated session throws; the prior task's outcome is taken over for
   the same session, except that a refusal without asking the wallet does not answer a call
   that may ask it; in every other case the call starts over as if it were new.
   */
  lemma {:induction false} HowWaitersResume(events: seq<Event>, call: nat, current: bool, now: int)
    requires var s := Run(events);
      && call < |s.calls| && s.calls[call].progress.Waits? && s.calls[call].progress.prior < |s.tasks|
      && s.tasks[s.calls[call].progress.prior].phase.Settled?
    ensures var s, s' := Run(events), Run(events + [WaiterResumed(call, current, now)]);
      var c := s.calls[call];
      var prior := s.tasks[c.progress.prior];
      var outcome, known := prior.phase.outcome,
        s.remembered.Some? && s.remembered.value.session == c.session && s.remembered.value.expiresAt - now > 5000;
      && |s'.calls| == |s.calls|
      && var p := s'.calls[call].progress;
         if !current then p == Done(Threw)
         else if prior.session == Some(c.session) && !(outcome == Returned(false) && c.interactive && !prior.interactive)
              then p == Done(outcome)
         else if known then p == Done(Returned(true))
         else if s.pending.Some? then p == Waits(|s.tasks| - 1)
         else p == Owns(|s.tasks|) && |s'.tasks| == |s.tasks| + 1
              && s'.tasks[|s.tasks|] == Task(Some(c.session), c.interactive, None, Checking)
  {
    RunKeeps(events);
    RunAppend(events, WaiterResumed(call, current, now));
  }
}
