/**
 The local pilot record and its consent across browser tabs: one serialised database
 transaction per action, an epoch that fences opt-ins against revocations, and the legacy
 storage that older tabs may still write. Between the events anything may be delayed,
 reordered or lost.
 */
module PilotConsent {
  import opened Wrappers

  const MAX_EPOCH: nat := 0x1f_ffff_ffff_ffff
  const MAX_EVENTS: nat := 2000
  const OFF := "off"

  // ----- the record

  datatype Profile = Profile(role: nat, source: nat, cluster: nat)

  /** `at` is the time of day in milliseconds since the epoch. */
  datatype PilotEvent = PilotEvent(name: string, at: nat, incentive: nat, prompt: nat)

  datatype Record = Record(participant: string, profile: Profile, events: seq<PilotEvent>, full: bool)

  const DAY: nat := 86_400_000

  predicate Repeats(a: PilotEvent, b: PilotEvent) {
    && a.name == b.name && a.incentive == b.incentive && a.prompt == b.prompt
    && (if a.name == "creator-update-published" then a.at == b.at else a.at / DAY == b.at / DAY)
  }

  function AppendEvent(r: Record, e: PilotEvent): Record {
    if r.full || exists i :: 0 <= i < |r.events| && Repeats(r.events[i], e) then r
    else if MAX_EVENTS <= |r.events| then r.(full := true)
    else r.(events := r.events + [e])
  }

  // ----- what is stored

  datatype Snapshot = Snapshot(record: Option<Record>, grant: Option<string>, epoch: nat)

  /** Legacy storage: a readable record with its format's version-2 mark, and the consent key. */
  datatype Legacy = Legacy(record: Option<Record>, versionTwo: bool, grant: Option<string>)

  /** The first snapshot, imported from legacy storage if that is consented. */
  function Imported(legacy: Legacy): Snapshot {
    if legacy.record.Some?
       && (legacy.grant == Some(legacy.record.value.participant) || (legacy.grant.None? && !legacy.versionTwo))
    then Snapshot(legacy.record, Some(legacy.record.value.participant), 0)
    else Snapshot(None, Some(OFF), 0)
  }

  const Deleted := Snapshot(None, Some(OFF), 0)

  /** The recorder's and the page's variables in one tab. */
  datatype Tab = Tab(activeId: Option<string>, blocked: bool, committed: Option<Record>, committedEpoch: nat,
                     initialized: bool, failed: bool, generation: nat)

  const FreshTab := Tab(None, false, None, 0, false, false, 0)

  datatype Action =
    | Refresh
    | Note(participant: string, event: PilotEvent)
    | OptIn(profile: Profile, newId: string, event: PilotEvent, expected: nat)
    | Export(participant: string)
    | Revoke
    | Reset

  // ----- the recorder, on the snapshot a transaction holds

  function Stopped(t: Tab): Tab {
    t.(activeId := None, blocked := true)
  }

  function Current(t: Tab, a: Snapshot): (Tab, Option<Record>) {
    if t.blocked || a.record.None? then (t, None)
    else
      var id := a.record.value.participant;
      if a.grant != Some(id) || (t.activeId.Some? && t.activeId != Some(id)) then (Stopped(t), None)
      else (t.(activeId := Some(id)), a.record)
  }

  function Save(t: Tab, a: Snapshot, r: Record): (Tab, Snapshot) {
    if a.grant != Some(r.participant) then (Stopped(t), a) else (t, a.(record := Some(r)))
  }

  function NoteEvent(t: Tab, a: Snapshot, e: PilotEvent): (Tab, Snapshot) {
    var (t', r) := Current(t, a);
    if r.None? then (t', a) else Save(t', a, AppendEvent(r.value, e))
  }

  /** Enabling keeps a consented record of the same profile; a different profile is a conflict. */
  function Enable(t: Tab, a: Snapshot, profile: Profile, newId: string): (Tab, Snapshot, bool) {
    if a.record.Some? && a.grant == Some(a.record.value.participant) then
      if a.record.value.profile != profile then (t, a, false)
      else (t.(activeId := a.grant, blocked := false), a, true)
    else
      (t.(activeId := Some(newId), blocked := false),
       a.(record := Some(Record(newId, profile, [], false)), grant := Some(newId)), true)
  }

  /** The action a request carries, run on the transaction's snapshot. */
  function RunAction(t: Tab, a: Snapshot, action: Action): (Tab, Snapshot, Option<Record>) {
    match action
    case Refresh =>
      var (t1, r) := Current(t, a);
      (t1, a, r)
    case Note(participant, event) =>
      var (t1, r) := Current(t, a);
      if r.None? || r.value.participant != participant then (t1, a, r)
      else
        var (t2, a2) := NoteEvent(t1, a, event);
        var (t3, r3) := Current(t2, a2);
        (t3, a2, r3)
    case OptIn(profile, newId, event, _) =>
      var (t1, a1, fits) := Enable(t, a, profile, newId);
      var (t2, a2) := if fits then NoteEvent(t1, a1, event) else (t1, a1);
      var (t3, r3) := Current(t2, a2);
      (t3, a2, r3)
    case Export(participant) =>
      var (t1, r) := Current(t, a);
      if r.None? || r.value.participant != participant then (t1, a, r)
      else
        var (t2, a2) := Save(t1, a, r.value);
        var (t3, r3) := Current(t2, a2);
        (t3, a2, r3)
    case Revoke => (Stopped(t), a.(record := None, grant := Some(OFF)), None)
    case Reset => (t, a, None)
  }

  // ----- requests and transactions

  datatype Status =
    | InFlight
    | Committed(record: Option<Record>, epoch: nat, stale: bool)
    | Aborted(conflict: bool)
    | Delivered

  datatype Request = Request(tab: nat, generation: nat, action: Action, status: Status)

  datatype State = State(db: Option<Snapshot>, legacy: Legacy, tabs: seq<Tab>, requests: seq<Request>)

  function EpochOf(db: Option<Snapshot>): nat {
    if db.None? then 0 else db.value.epoch
  }

  /** What a transaction finds: the stored snapshot, or the first one. */
  function Opening(db: Option<Snapshot>, legacy: Legacy, action: Action): Snapshot {
    if db.Some? then db.value else if action.Revoke? then Deleted else Imported(legacy)
  }

  /** The result of a transaction's handler. */
  datatype Handled = Refused(conflict: bool, tab: Tab) | Handled(after: Snapshot, tab: Tab, record: Option<Record>, stale: bool)

  function Handle(opening: Snapshot, t: Tab, r: Request): Handled {
    if r.action.OptIn? && r.action.expected != opening.epoch then Refused(true, t)
    else
      var stale := r.generation != t.generation;
      var (t', a, record) := if stale then (t, opening, None) else RunAction(t, opening, r.action);
      if !r.action.Revoke? then Handled(a, t', record, stale)
      else if MAX_EPOCH <= a.epoch then Refused(false, t')
      else Handled(a.(epoch := a.epoch + 1), t', record, stale)
  }

  /** Cleaning legacy storage after a commit; either write may fail on its own. */
  function Cleaned(legacy: Legacy, setOk: bool, removeOk: bool): Legacy {
    Legacy(if removeOk then None else legacy.record, legacy.versionTwo, if setOk then Some(OFF) else legacy.grant)
  }

  /** A transaction completes, aborts, or completes after its caller has given up waiting. */
  datatype Fate = Completes | Aborts | CompletesUnseen

  datatype Event =
    | Opened                                             // a new tab
    | Asked(tab: nat, action: Action)                    // a user action or a signal submits a request
    | Transacted(request: nat, fate: Fate, setOk: bool, removeOk: bool)
    | Answered(request: nat)                             // the tab sees the outcome
    | LegacyChanged(legacy: Legacy)                      // an old tab writes legacy storage

  /** When a tab submits the action at all. */
  predicate Allowed(t: Tab, action: Action) {
    match action
    case Refresh => !t.failed
    case Note(participant, _) =>
      t.initialized && !t.failed && t.committed.Some? && t.committed.value.participant == participant
    case OptIn(_, newId, _, expected) => t.initialized && !t.failed && expected == t.committedEpoch && newId != OFF
    case Export(participant) => !t.failed && t.committed.Some? && t.committed.value.participant == participant
    case Revoke => true
    case Reset => false
  }

  /** Revoking takes effect in its tab at once. */
  function Asking(t: Tab, action: Action): Tab {
    if action.Revoke? then Stopped(t).(generation := t.generation + 1, committed := None) else t
  }

  function AskSegment(s: State, tab: nat, action: Action): State {
    if |s.tabs| <= tab || !Allowed(s.tabs[tab], action) then s
    else
      var t := Asking(s.tabs[tab], action);
      s.(tabs := s.tabs[tab := t], requests := s.requests + [Request(tab, t.generation, action, InFlight)])
  }

  predicate Runnable(s: State, request: nat) {
    request < |s.requests| && s.requests[request].status.InFlight? && s.requests[request].tab < |s.tabs|
  }

  function HandledAt(s: State, request: nat): Handled
    requires Runnable(s, request)
  {
    var r := s.requests[request];
    Handle(Opening(s.db, s.legacy, r.action), s.tabs[r.tab], r)
  }

  function TransactSegment(s: State, request: nat, fate: Fate, setOk: bool, removeOk: bool): State {
    if !Runnable(s, request) then s
    else
      var r := s.requests[request];
      var h := HandledAt(s, request);
      var tabs := s.tabs[r.tab := h.tab];
      if h.Handled? && fate.Completes? then
        State(Some(h.after), Cleaned(s.legacy, setOk, removeOk), tabs,
              s.requests[request := r.(status := Committed(h.record, h.after.epoch, h.stale))])
      else if h.Handled? && fate.CompletesUnseen? then
        State(Some(h.after), s.legacy, tabs, s.requests[request := r.(status := Aborted(false))])
      else
        s.(tabs := tabs, requests := s.requests[request := r.(status := Aborted(h.Refused? && h.conflict))])
  }

  function AnswerSegment(s: State, request: nat): State {
    if |s.requests| <= request || |s.tabs| <= s.requests[request].tab then s
    else
      var r := s.requests[request];
      var t := s.tabs[r.tab];
      var done := s.(requests := s.requests[request := r.(status := Delivered)]);
      match r.status
      case InFlight => s
      case Delivered => s
      case Committed(record, epoch, stale) =>
        if r.generation != t.generation || stale then done
        else done.(tabs := s.tabs[r.tab := t.(committed := record, committedEpoch := epoch,
                                              initialized := true, failed := false)])
      case Aborted(conflict) =>
        if r.generation != t.generation then done
        else
          var t' := Stopped(t).(committed := None, generation := t.generation + 1, failed := t.failed || !conflict);
          var s' := done.(tabs := s.tabs[r.tab := t']);
          if conflict then
            s'.(requests := s'.requests + [Request(r.tab, t'.generation, Reset, InFlight)])
          else s'
  }

  function Step(s: State, e: Event): State {
    match e
    case Opened => s.(tabs := s.tabs + [FreshTab])
    case Asked(tab, action) => AskSegment(s, tab, action)
    case Transacted(request, fate, setOk, removeOk) => TransactSegment(s, request, fate, setOk, removeOk)
    case Answered(request) => AnswerSegment(s, request)
    case LegacyChanged(legacy) => s.(legacy := legacy)
  }

  function Run(legacy: Legacy, events: seq<Event>): State {
    if events == [] then State(None, legacy, [], [])
    else Step(Run(legacy, events[..|events| - 1]), events[|events| - 1])
  }

  // ----- the objects

  /** One tab's recorder and page variables. */
  class PilotTab {
    var activeId: Option<string>
    var blocked: bool
    var committedRecord: Option<Record>
    var committedConsentEpoch: nat
    var initialized: bool
    var storageFailed: bool
    var generation: nat

    ghost function View(): Tab
      reads this
    {
      Tab(activeId, blocked, committedRecord, committedConsentEpoch, initialized, storageFailed, generation)
    }

    constructor ()
      ensures View() == FreshTab
    {
      activeId, blocked, committedRecord, committedConsentEpoch := None, false, None, 0;
      initialized, storageFailed, generation := false, false, 0;
    }

    method Stop()
      modifies this
      ensures View() == Stopped(old(View()))
    {
      activeId := None;
      blocked := true;
    }

    method ReadCurrent(a: Snapshot) returns (r: Option<Record>)
      modifies this
      ensures (View(), r) == Current(old(View()), a)
    {
      if blocked || a.record.None? {
        return None;
      }
      var id := a.record.value.participant;
      if a.grant != Some(id) || (activeId.Some? && activeId != Some(id)) {
        Stop();
        return None;
      }
      activeId := Some(id);
      r := a.record;
    }

    method SaveRecord(a: Snapshot, r: Record) returns (a': Snapshot)
      modifies this
      ensures (View(), a') == Save(old(View()), a, r)
    {
      a' := a;
      if a.grant != Some(r.participant) {
        Stop();
      } else {
        a' := a.(record := Some(r));
      }
    }

    method RecordEvent(a: Snapshot, e: PilotEvent) returns (a': Snapshot)
      modifies this
      ensures (View(), a') == NoteEvent(old(View()), a, e)
    {
      a' := a;
      var r := ReadCurrent(a);
      if r.Some? {
        a' := SaveRecord(a, AppendEvent(r.value, e));
      }
    }

    method EnableRecording(a: Snapshot, profile: Profile, newId: string) returns (a': Snapshot, fits: bool)
      modifies this
      ensures (View(), a', fits) == Enable(old(View()), a, profile, newId)
    {
      a', fits := a, true;
      if a.record.Some? && a.grant == Some(a.record.value.participant) {
        if a.record.value.profile != profile {
          return a, false;
        }
        activeId := Some(a.record.value.participant);
      } else {
        a' := a.(record := Some(Record(newId, profile, [], false)), grant := Some(newId));
        activeId := Some(newId);
      }
      blocked := false;
    }

    method Perform(a: Snapshot, action: Action) returns (a': Snapshot, r: Option<Record>)
      modifies this
      ensures (View(), a', r) == RunAction(old(View()), a, action)
    {
      a', r := a, None;
      match action {
        case Refresh => r := ReadCurrent(a);
        case Note(participant, event) =>
          r := ReadCurrent(a);
          if r.Some? && r.value.participant == participant {
            a' := RecordEvent(a, event);
            r := ReadCurrent(a');
          }
        case OptIn(profile, newId, event, _) =>
          var fits;
          a', fits := EnableRecording(a, profile, newId);
          if fits {
            a' := RecordEvent(a', event);
          }
          r := ReadCurrent(a');
        case Export(participant) =>
          r := ReadCurrent(a);
          if r.Some? && r.value.participant == participant {
            a' := SaveRecord(a, r.value);
            r := ReadCurrent(a');
          }
        case Revoke =>
          Stop();
          a' := a.(record := None, grant := Some(OFF));
        case Reset =>
      }
    }

    /** The synchronous part of a user action. */
    method Ask(action: Action)
      requires Allowed(View(), action)
      modifies this
      ensures View() == Asking(old(View()), action)
    {
      if action.Revoke? {
        generation := generation + 1;
        Stop();
        committedRecord := None;
      }
    }

    /** The continuation after the transaction; answers whether the snapshot must be read again. */
    method Answer(requested: nat, status: Status) returns (reread: bool)
      requires status.Committed? || status.Aborted?
      modifies this
      ensures var r := Request(0, requested, Refresh, status);
        var s := AnswerSegment(State(None, Legacy(None, false, None), [old(View())], [r]), 0);
        View() == s.tabs[0] && reread == (|s.requests| == 2)
    {
      reread := false;
      if requested != generation || (status.Committed? && status.stale) {
        return;
      }
      if status.Committed? {
        committedRecord, committedConsentEpoch := status.record, status.epoch;
        initialized, storageFailed := true, false;
      } else {
        Stop();
        committedRecord := None;
        generation := generation + 1;
        reread := status.conflict;
        storageFailed := storageFailed || !status.conflict;
      }
    }
  }

  /** The database shared by all tabs, with the legacy storage beside it. */
  class PilotDatabase {
    var stored: Option<Snapshot>
    var legacy: Legacy

    constructor (legacy: Legacy)
      ensures stored == None && this.legacy == legacy
    {
      stored := None;
      this.legacy := legacy;
    }

    /** One serialised transaction on behalf of a tab. An abort writes nothing. */
    method Transact(tab: PilotTab, r: Request, fate: Fate, setOk: bool, removeOk: bool) returns (status: Status)
      modifies this, tab
      ensures var h := Handle(Opening(old(stored), old(legacy), r.action), old(tab.View()), r);
        && tab.View() == h.tab
        && stored == (if h.Handled? && !fate.Aborts? then Some(h.after) else old(stored))
        && (if h.Handled? && fate.Completes? then
              && legacy == Cleaned(old(legacy), setOk, removeOk)
              && status == Committed(h.record, h.after.epoch, h.stale)
            else
              && legacy == old(legacy)
              && status == Aborted(h.Refused? && h.conflict))
    {
      var active: Snapshot;
      if stored.Some? {
        active := stored.value;
      } else if r.action.Revoke? {
        active := Deleted;
      } else {
        active := Imported(legacy);
      }
      if r.action.OptIn? && r.action.expected != active.epoch {
        return Aborted(true);
      }
      var stale, record := r.generation != tab.generation, None;
      if !stale {
        active, record := tab.Perform(active, r.action);
      }
      if r.action.Revoke? {
        if MAX_EPOCH <= active.epoch {
          return Aborted(false);
        }
        active := active.(epoch := active.epoch + 1);
      }
      if fate.Aborts? {
        return Aborted(false);
      }
      stored := Some(active);
      if fate.CompletesUnseen? {
        return Aborted(false);
      }
      legacy := Cleaned(legacy, setOk, removeOk);
      status := Committed(record, active.epoch, stale);
    }
  }

  // ----- consent

  /** A stored record always has the matching grant. */
  predicate Consented(a: Snapshot) {
    a.record.Some? ==> a.grant == Some(a.record.value.participant)
  }

  predicate ConsentedDb(db: Option<Snapshot>) {
    db.Some? ==> Consented(db.value)
  }

  lemma NoteKeeps(t: Tab, a: Snapshot, e: PilotEvent)
    requires Consented(a)
    ensures var a' := NoteEvent(t, a, e).1;
      && Consented(a') && a'.epoch == a.epoch && a'.grant == a.grant
      && (a.record.None? <==> a'.record.None?)
      && (a.record.Some? ==> a'.record.value.participant == a.record.value.participant)
  {
  }

  /**
   What an action can do to a consented snapshot. It stays consented and keeps its epoch;
   only an opt-in can put a record where none was; every other action leaves the record's
   participant or, revoking, removes it; and an event changes only its own participant's record.
   */
  lemma ActionEffect(t: Tab, a: Snapshot, action: Action)
    requires Consented(a)
    ensures var a' := RunAction(t, a, action).1;
      && Consented(a') && a'.epoch == a.epoch
      && (a.record.None? && a'.record.Some? ==> action.OptIn?)
      && (action.Revoke? ==> a'.record.None? && a'.grant == Some(OFF))
      && (a.record.Some? && !action.Revoke? ==>
            a'.record.Some? && a'.record.value.participant == a.record.value.participant)
      && (action.Note? && a' != a ==> a.record.Some? && a.record.value.participant == action.participant)
      && (action in {Refresh, Reset} || action.Export? ==> a' == a)
  {
    match action {
      case Note(_, event) => NoteKeeps(Current(t, a).0, a, event);
      case OptIn(profile, newId, event, _) =>
        var (t1, a1, fits) := Enable(t, a, profile, newId);
        NoteKeeps(t1, a1, event);
      case _ =>
    }
  }

  /** The request whose transaction commits in this event, if any. */
  predicate Commits(s: State, e: Event) {
    e.Transacted? && Runnable(s, e.request) && !e.fate.Aborts? && HandledAt(s, e.request).Handled?
  }

  predicate CommitsRevoke(s: State, e: Event) {
    Commits(s, e) && s.requests[e.request].action.Revoke?
  }

  /** An opt-in that is not stale commits. */
  predicate CommitsOptIn(s: State, e: Event) {
    Commits(s, e) && s.requests[e.request].action.OptIn? && !HandledAt(s, e.request).stale
  }

  /** One event: consent is kept, the epoch counts committed revokes, and only an opt-in adds a record. */
  lemma StepEffect(s: State, e: Event)
    requires ConsentedDb(s.db)
    ensures var s' := Step(s, e);
      && ConsentedDb(s'.db)
      && EpochOf(s'.db) == EpochOf(s.db) + (if CommitsRevoke(s, e) then 1 else 0)
      && (s.db.Some? ==> s'.db.Some?)
      && (!Commits(s, e) ==> s'.db == s.db && (e.LegacyChanged? || s'.legacy == s.legacy))
      && (CommitsOptIn(s, e) ==> s.requests[e.request].action.expected == EpochOf(s.db))
      && (s.db.Some? && s.db.value.record.None? && s'.db.value.record.Some? ==> CommitsOptIn(s, e))
      && (CommitsRevoke(s, e) && !HandledAt(s, e.request).stale ==> s'.db.value.record.None?)
      && (Commits(s, e) && e.fate.Completes? ==>
            (s'.requests[e.request].status.Committed? && s'.requests[e.request].status.epoch == EpochOf(s'.db)))
  {
    if e.Transacted? && Runnable(s, e.request) {
      var r := s.requests[e.request];
      ActionEffect(s.tabs[r.tab], Opening(s.db, s.legacy, r.action), r.action);
    }
  }

  /** The number of revocations committed in a run. */
  function Revokes(legacy: Legacy, events: seq<Event>): nat {
    if events == [] then 0
    else
      var past := events[..|events| - 1];
      Revokes(legacy, past) + (if CommitsRevoke(Run(legacy, past), events[|events| - 1]) then 1 else 0)
  }

  /** In every run a stored record has its grant, and the epoch is the number of committed revocations. */
  lemma {:induction false} EpochCountsRevokes(legacy: Legacy, events: seq<Event>)
    ensures ConsentedDb(Run(legacy, events).db)
    ensures EpochOf(Run(legacy, events).db) == Revokes(legacy, events)
  {
    if events != [] {
      EpochCountsRevokes(legacy, events[..|events| - 1]);
      StepEffect(Run(legacy, events[..|events| - 1]), events[|events| - 1]);
    }
  }

  lemma {:induction false} RevokesMono(legacy: Legacy, events: seq<Event>, i: nat, j: nat)
    requires i <= j <= |events|
    ensures Revokes(legacy, events[..i]) <= Revokes(legacy, events[..j])
    decreases j - i
  {
    if i < j {
      RevokesMono(legacy, events, i + 1, j);
      RevokesTake(legacy, events, i);
    }
  }

  lemma {:induction false} RevokeRaises(legacy: Legacy, events: seq<Event>, i: nat, k: nat, j: nat)
    requires i <= k < j <= |events| && CommitsRevoke(Run(legacy, events[..k]), events[k])
    ensures Revokes(legacy, events[..i]) < Revokes(legacy, events[..j])
  {
    RevokesMono(legacy, events, i, k);
    RevokesTake(legacy, events, k);
    RevokesMono(legacy, events, k + 1, j);
  }

  /**
   The fence. A tab learns an epoch from its own committed transaction, at event `i`. If at
   event `j` an opt-in carrying that epoch commits, no revocation committed in between.
   */
  lemma {:induction false} OptInFence(legacy: Legacy, events: seq<Event>, i: nat, j: nat)
    requires i < j < |events|
    requires Commits(Run(legacy, events[..i]), events[i]) && CommitsOptIn(Run(legacy, events[..j]), events[j])
    requires var learned, asked := Run(legacy, events[..i + 1]).requests, Run(legacy, events[..j]).requests;
      && events[i].request < |learned| && learned[events[i].request].status.Committed?
      && learned[events[i].request].status.epoch == asked[events[j].request].action.expected
    ensures forall k :: i < k < j ==> !CommitsRevoke(Run(legacy, events[..k]), events[k])
  {
    EpochCountsRevokes(legacy, events[..i]);
    EpochCountsRevokes(legacy, events[..i + 1]);
    EpochCountsRevokes(legacy, events[..j]);
    assert events[..i + 1][..i] == events[..i];
    StepEffect(Run(legacy, events[..i]), events[i]);
    StepEffect(Run(legacy, events[..j]), events[j]);
    forall k | i < k < j ensures !CommitsRevoke(Run(legacy, events[..k]), events[k]) {
      if CommitsRevoke(Run(legacy, events[..k]), events[k]) {
        RevokeRaises(legacy, events, i + 1, k, j);
      }
    }
  }

  /**
   Nothing but an opt-in brings a record back. If no record is stored at one time and one is
   at a later time, an opt-in committed in between, and it carried an epoch counting every
   revocation committed before it: no event write, export, signal or legacy import suffices.
   */
  lemma OnlyOptInRestores(legacy: Legacy, events: seq<Event>, i: nat) returns (k: nat)
    requires i <= |events|
    requires var db := Run(legacy, events[..i]).db; db.Some? && db.value.record.None?
    requires var db := Run(legacy, events).db; db.Some? && db.value.record.Some?
    ensures i <= k < |events| && CommitsOptIn(Run(legacy, events[..k]), events[k])
    ensures Run(legacy, events[..k]).requests[events[k].request].action.expected == Revokes(legacy, events[..k])
    ensures Revokes(legacy, events[..i]) <= Revokes(legacy, events[..k])
  {
    assert events[..|events|] == events;
    k := FirstRestored(legacy, events, i, |events|);
    RestoredBy(legacy, events[..k], events[k]);
    RevokesMono(legacy, events, i, k);
  }

  predicate HasRecord(legacy: Legacy, past: seq<Event>) {
    var db := Run(legacy, past).db; db.Some? && db.value.record.Some?
  }

  predicate HasNoRecord(legacy: Legacy, past: seq<Event>) {
    var db := Run(legacy, past).db; db.Some? && db.value.record.None?
  }

  lemma {:induction false} FirstRestored(legacy: Legacy, events: seq<Event>, i: nat, n: nat) returns (k: nat)
    requires i <= n <= |events| && HasNoRecord(legacy, events[..i]) && HasRecord(legacy, events[..n])
    ensures i <= k < n && HasNoRecord(legacy, events[..k]) && HasRecord(legacy, events[..k] + [events[k]])
    decreases n - i
  {
    if HasRecord(legacy, events[..i + 1]) {
      k := i;
      assert events[..i + 1] == events[..i] + [events[i]];
    } else {
      StoredTake(legacy, events, i);
      k := FirstRestored(legacy, events, i + 1, n);
    }
  }

  /** The event that brings a record back. */
  lemma {:induction false} RestoredBy(legacy: Legacy, past: seq<Event>, e: Event)
    requires HasNoRecord(legacy, past) && HasRecord(legacy, past + [e])
    ensures CommitsOptIn(Run(legacy, past), e)
    ensures Run(legacy, past).requests[e.request].action.expected == Revokes(legacy, past)
  {
    EpochCountsRevokes(legacy, past);
    StepEffect(Run(legacy, past), e);
    assert (past + [e])[..|past|] == past;
  }

  lemma StoredStep(s: State, e: Event)
    requires s.db.Some?
    ensures Step(s, e).db.Some?
  {
  }

  lemma {:induction false} StoredTake(legacy: Legacy, events: seq<Event>, k: nat)
    requires k < |events| && Run(legacy, events[..k]).db.Some?
    ensures Run(legacy, events[..k + 1]).db.Some?
  {
    assert events[..k + 1][..k] == events[..k];
    StoredStep(Run(legacy, events[..k]), events[k]);
  }

  lemma {:induction false} RevokesTake(legacy: Legacy, events: seq<Event>, k: nat)
    requires k < |events|
    ensures Revokes(legacy, events[..k + 1])
         == Revokes(legacy, events[..k]) + (if CommitsRevoke(Run(legacy, events[..k]), events[k]) then 1 else 0)
  {
    assert events[..k + 1][..k] == events[..k];
  }

  // ----- one transaction for each request

  /** The transaction of this request has run, whatever came of it. */
  predicate Spent(s: State, request: nat) {
    request < |s.requests| && !s.requests[request].status.InFlight?
  }

  lemma SpentStep(s: State, e: Event, request: nat)
    requires Spent(s, request)
    ensures Spent(Step(s, e), request)
  {
  }

  lemma {:induction false} SpentStays(legacy: Legacy, events: seq<Event>, request: nat, i: nat, j: nat)
    requires i <= j <= |events| && Spent(Run(legacy, events[..i]), request)
    ensures Spent(Run(legacy, events[..j]), request)
    decreases j - i
  {
    if i < j {
      SpentStays(legacy, events, request, i, j - 1);
      RunTake(legacy, events, j - 1);
      SpentStep(Run(legacy, events[..j - 1]), events[j - 1], request);
    }
  }

  /**
   A transaction that aborts or is refused changes neither the database nor legacy storage,
   and its request writes nothing at any other time of the run, before or after.
   */
  lemma {:induction false} AbortedNeverWrites(legacy: Legacy, events: seq<Event>, n: nat, j: nat)
    requires n < |events| && events[n].Transacted? && Runnable(Run(legacy, events[..n]), events[n].request)
    requires !Commits(Run(legacy, events[..n]), events[n])
    ensures var s, s' := Run(legacy, events[..n]), Run(legacy, events[..n + 1]);
      && s'.db == s.db && s'.legacy == s.legacy
      && events[n].request < |s'.requests| && s'.requests[events[n].request].status.Aborted?
    ensures j < |events| && Commits(Run(legacy, events[..j]), events[j]) ==> events[j].request != events[n].request
  {
    var request := events[n].request;
    RunTake(legacy, events, n);
    if j < |events| && Commits(Run(legacy, events[..j]), events[j]) && events[j].request == request {
      RunTake(legacy, events, j);
      if j < n {
        SpentStays(legacy, events, request, j + 1, n);
      } else if n < j {
        SpentStays(legacy, events, request, n + 1, j);
      }
    }
  }

  // ----- what a committed revocation does

  /** The events that start a new generation of a tab: a revocation asked there, or an aborted answer taken there. */
  predicate Overtakes(s: State, e: Event, tab: nat) {
    tab < |s.tabs| && (
      || (e.Asked? && e.tab == tab && e.action.Revoke?)
      || (e.Answered? && e.request < |s.requests| && s.requests[e.request].tab == tab
          && s.requests[e.request].status.Aborted? && s.requests[e.request].generation == s.tabs[tab].generation))
  }

  lemma CurrentGeneration(t: Tab, a: Snapshot)
    ensures Current(t, a).0.generation == t.generation
  {
  }

  lemma NoteGeneration(t: Tab, a: Snapshot, e: PilotEvent)
    ensures NoteEvent(t, a, e).0.generation == t.generation
  {
  }

  lemma RunActionGeneration(t: Tab, a: Snapshot, action: Action)
    ensures RunAction(t, a, action).0.generation == t.generation
  {
    match action {
      case Note(_, event) =>
        var t1 := Current(t, a).0;
        var (t2, a2) := NoteEvent(t1, a, event);
        NoteGeneration(t1, a, event);
        CurrentGeneration(t2, a2);
      case OptIn(profile, newId, event, _) =>
        var (t1, a1, fits) := Enable(t, a, profile, newId);
        var (t2, a2) := if fits then NoteEvent(t1, a1, event) else (t1, a1);
        NoteGeneration(t1, a1, event);
        CurrentGeneration(t2, a2);
      case _ =>
    }
  }

  lemma GenerationStep(s: State, e: Event, tab: nat)
    requires tab < |s.tabs|
    ensures tab < |Step(s, e).tabs|
    ensures Step(s, e).tabs[tab].generation == s.tabs[tab].generation + (if Overtakes(s, e, tab) then 1 else 0)
  {
    if e.Transacted? && Runnable(s, e.request) {
      var r := s.requests[e.request];
      RunActionGeneration(s.tabs[r.tab], Opening(s.db, s.legacy, r.action), r.action);
    }
  }

  /** A request keeps its tab, generation and action. */
  predicate SameRequest(r: Request, r': Request) {
    r'.tab == r.tab && r'.generation == r.generation && r'.action == r.action
  }

  lemma RequestStep(s: State, e: Event, request: nat)
    requires request < |s.requests|
    ensures request < |Step(s, e).requests| && SameRequest(s.requests[request], Step(s, e).requests[request])
  {
  }

  /** Where a revocation request comes from. */
  predicate AskedAt(legacy: Legacy, events: seq<Event>, a: nat, request: nat, tab: nat)
    requires a < |events|
  {
    && events[a] == Asked(tab, Revoke) && tab < |Run(legacy, events[..a]).tabs|
    && request == |Run(legacy, events[..a]).requests|
  }

  predicate OvertakesAt(legacy: Legacy, events: seq<Event>, j: nat, tab: nat)
    requires j < |events|
  {
    Overtakes(Run(legacy, events[..j]), events[j], tab)
  }

  /** Between event `a` and event `n` a new generation of the tab starts. */
  predicate Overtaken(legacy: Legacy, events: seq<Event>, a: nat, tab: nat, n: nat)
    requires n <= |events|
  {
    exists j :: a < j < n && OvertakesAt(legacy, events, j, tab)
  }

  lemma OvertakenStep(legacy: Legacy, events: seq<Event>, a: nat, tab: nat, n: nat)
    requires a < n < |events|
    ensures Overtaken(legacy, events, a, tab, n + 1)
       <==> Overtaken(legacy, events, a, tab, n) || OvertakesAt(legacy, events, n, tab)
  {
  }

  /** A revocation request, and whether its tab has moved on to a later generation. */
  predicate Standing(s: State, request: nat, tab: nat, overtaken: bool) {
    && request < |s.requests| && tab < |s.tabs| && s.requests[request].tab == tab && s.requests[request].action == Revoke
    && s.requests[request].generation <= s.tabs[tab].generation
    && (overtaken <==> s.requests[request].generation < s.tabs[tab].generation)
  }

  lemma StandingStep(s: State, e: Event, request: nat, tab: nat, overtaken: bool)
    requires Standing(s, request, tab, overtaken)
    ensures Standing(Step(s, e), request, tab, overtaken || Overtakes(s, e, tab))
  {
    GenerationStep(s, e, tab);
    RequestStep(s, e, request);
  }

  lemma {:induction false} RunTake(legacy: Legacy, events: seq<Event>, n: nat)
    requires n < |events|
    ensures Run(legacy, events[..n + 1]) == Step(Run(legacy, events[..n]), events[n])
  {
    assert events[..n + 1][..n] == events[..n];
  }

  lemma JustAsked(s: State, tab: nat)
    requires tab < |s.tabs|
    ensures Standing(Step(s, Asked(tab, Revoke)), |s.requests|, tab, false)
  {
  }

  lemma {:induction false} SinceStart(legacy: Legacy, events: seq<Event>, a: nat, request: nat, tab: nat)
    requires a < |events| && AskedAt(legacy, events, a, request, tab)
    ensures Standing(Run(legacy, events[..a + 1]), request, tab, Overtaken(legacy, events, a, tab, a + 1))
  {
    RunTake(legacy, events, a);
    JustAsked(Run(legacy, events[..a]), tab);
    assert !Overtaken(legacy, events, a, tab, a + 1);
  }

  lemma {:induction false} SinceStep(legacy: Legacy, events: seq<Event>, a: nat, request: nat, tab: nat, n: nat)
    requires a < n < |events| && Standing(Run(legacy, events[..n]), request, tab, Overtaken(legacy, events, a, tab, n))
    ensures Standing(Run(legacy, events[..n + 1]), request, tab, Overtaken(legacy, events, a, tab, n + 1))
  {
    RunTake(legacy, events, n);
    StandingStep(Run(legacy, events[..n]), events[n], request, tab, Overtaken(legacy, events, a, tab, n));
    OvertakenStep(legacy, events, a, tab, n);
  }

  /** The revocation as it stands, `n` events into the run, since it was asked at `a`. */
  lemma {:induction false} SinceAsked(legacy: Legacy, events: seq<Event>, a: nat, request: nat, tab: nat, n: nat)
    requires a < n <= |events| && AskedAt(legacy, events, a, request, tab)
    ensures Standing(Run(legacy, events[..n]), request, tab, Overtaken(legacy, events, a, tab, n))
  {
    if a + 1 == n {
      SinceStart(legacy, events, a, request, tab);
    } else {
      SinceAsked(legacy, events, a, request, tab, n - 1);
      SinceStep(legacy, events, a, request, tab, n - 1);
    }
  }

  /** Only asking creates a revocation request. */
  lemma RevokeIsAsked(s: State, e: Event, request: nat)
    requires |s.requests| <= request < |Step(s, e).requests| && Step(s, e).requests[request].action.Revoke?
    ensures e.Asked? && e.tab < |s.tabs| && e == Asked(e.tab, Revoke) && request == |s.requests|
  {
  }

  lemma {:induction false} WhenAsked(legacy: Legacy, events: seq<Event>, request: nat) returns (a: nat, tab: nat)
    requires request < |Run(legacy, events).requests| && Run(legacy, events).requests[request].action.Revoke?
    ensures a < |events| && AskedAt(legacy, events, a, request, tab)
  {
    var n := |events| - 1;
    var past := events[..n];
    if request < |Run(legacy, past).requests| {
      RequestStep(Run(legacy, past), events[n], request);
      a, tab := WhenAsked(legacy, past, request);
      assert past[..a] == events[..a];
    } else {
      RevokeIsAsked(Run(legacy, past), events[n], request);
      a, tab := n, events[n].tab;
    }
  }

  /**
   Exactly what a committed revocation does. The epoch always rises. Asked at event `a`, it
   leaves no record if and only if nothing overtook it in its tab: since then the tab asked
   no other revocation and took no aborted answer. Overtaken, it leaves what was stored,
   record or none, exactly as it was.
   */
  lemma RevokeRemovesUnlessOvertaken(legacy: Legacy, events: seq<Event>, e: Event) returns (a: nat, tab: nat)
    requires CommitsRevoke(Run(legacy, events), e)
    ensures a < |events| && AskedAt(legacy, events, a, e.request, tab)
    ensures var s, db := Run(legacy, events), Run(legacy, events + [e]).db;
      && db.Some? && db.value.epoch == EpochOf(s.db) + 1
      && (if Overtaken(legacy, events, a, tab, |events|)
          then db.value == Opening(s.db, s.legacy, Revoke).(epoch := EpochOf(s.db) + 1)
          else db.value.record.None? && db.value.grant == Some(OFF))
  {
    var s := Run(legacy, events);
    a, tab := WhenAsked(legacy, events, e.request);
    SinceAsked(legacy, events, a, e.request, tab, |events|);
    assert events[..|events|] == events;
    EpochCountsRevokes(legacy, events);
    StepEffect(s, e);
    assert (events + [e])[..|events|] == events;
    assert HandledAt(s, e.request).stale <==> Overtaken(legacy, events, a, tab, |events|);
  }

  /** A consented record in legacy storage, imported by a tab that then revokes; the revocation is queued. */
  function RevokeQueued(): seq<Event> {
    [Opened, Asked(0, Refresh), Transacted(0, Completes, true, true), Answered(0), Asked(0, Revoke)]
  }

  /** Before it runs, a re-read for another tab's signal is asked, fails, and its failure is taken. */
  function ReadFails(): seq<Event> {
    [Asked(0, Refresh), Transacted(2, Aborts, true, true), Answered(2)]
  }

  lemma {:induction false} RunConcat1(legacy: Legacy, events: seq<Event>, e: Event)
    ensures Run(legacy, events + [e]) == Step(Run(legacy, events), e)
  {
    assert (events + [e])[..|events|] == events;
  }

  lemma {:induction false} ImportedState(record: Record, legacy: Legacy)
    requires legacy == Legacy(Some(record), true, Some(record.participant))
    ensures Run(legacy, [Opened] + [Asked(0, Refresh)] + [Transacted(0, Completes, true, true)])
      == State(Some(Snapshot(Some(record), Some(record.participant), 0)), Legacy(None, true, Some(OFF)),
               [FreshTab.(activeId := Some(record.participant))], [Request(0, 0, Refresh, Committed(Some(record), 0, false))])
  {
    RunConcat1(legacy, [], Opened);
    assert [] + [Opened] == [Opened];
    RunConcat1(legacy, [Opened], Asked(0, Refresh));
    RunConcat1(legacy, [Opened] + [Asked(0, Refresh)], Transacted(0, Completes, true, true));
  }

  lemma {:induction false} QueuedState(record: Record, legacy: Legacy)
    requires legacy == Legacy(Some(record), true, Some(record.participant))
    ensures var s := Run(legacy, RevokeQueued());
      && s.db == Some(Snapshot(Some(record), Some(record.participant), 0))
      && s.legacy == Legacy(None, true, Some(OFF))
      && s.tabs == [Tab(None, true, None, 0, true, false, 1)]
      && s.requests == [Request(0, 0, Refresh, Delivered), Request(0, 1, Revoke, InFlight)]
  {
    ImportedState(record, legacy);
    var imported := [Opened] + [Asked(0, Refresh)] + [Transacted(0, Completes, true, true)];
    RunConcat1(legacy, imported, Answered(0));
    RunConcat1(legacy, imported + [Answered(0)], Asked(0, Revoke));
    assert RevokeQueued() == imported + [Answered(0)] + [Asked(0, Revoke)];
  }

  lemma {:induction false} FailedReadState(record: Record, legacy: Legacy)
    requires legacy == Legacy(Some(record), true, Some(record.participant))
    ensures var s := Run(legacy, RevokeQueued() + ReadFails());
      && s.db == Some(Snapshot(Some(record), Some(record.participant), 0)) && s.legacy == Legacy(None, true, Some(OFF))
      && |s.tabs| == 1 && s.tabs[0].generation == 2
      && |s.requests| == 3 && s.requests[1] == Request(0, 1, Revoke, InFlight)
  {
    QueuedState(record, legacy);
    var q, f := RevokeQueued(), ReadFails();
    RunConcat1(legacy, q, f[0]);
    RunConcat1(legacy, q + [f[0]], f[1]);
    RunConcat1(legacy, q + [f[0]] + [f[1]], f[2]);
    assert q + f == q + [f[0]] + [f[1]] + [f[2]];
  }

  /**
   The exception is reachable with a single revocation in the whole run: a read of the same
   tab that fails while the revocation waits for its turn makes the revocation commit
   without removing anything.
   */
  lemma {:induction false} RevokeCanLeaveTheRecord(record: Record, legacy: Legacy)
    requires legacy == Legacy(Some(record), true, Some(record.participant))
    ensures var events, e := RevokeQueued() + ReadFails(), Transacted(1, Completes, true, true);
      && CommitsRevoke(Run(legacy, events), e)
      && (forall j :: 0 <= j < |events| && events[j].Asked? && events[j].action.Revoke? ==> j == 4)
      && Run(legacy, events + [e]).db == Some(Snapshot(Some(record), Some(record.participant), 1))
  {
    QueuedState(record, legacy);
    FailedReadState(record, legacy);
    var events := RevokeQueued() + ReadFails();
    RunConcat1(legacy, events, Transacted(1, Completes, true, true));
  }

  // ----- what a committed transaction writes

  /** A transaction commits unless it is aborted, an opt-in's epoch is not the stored one, or no epoch is left for a revocation. */
  lemma CommitsUnless(s: State, e: Event)
    requires e.Transacted? && e.request < |s.requests| && s.requests[e.request].status.InFlight?
    requires s.requests[e.request].tab < |s.tabs|
    ensures var action, epoch := s.requests[e.request].action, if s.db.Some? then s.db.value.epoch else 0;
      Commits(s, e) <==>
        && e.fate != Aborts
        && (action.OptIn? ==> action.expected == epoch)
        && (action.Revoke? ==> epoch < 0x1f_ffff_ffff_ffff)
  {
  }

  /** The stored record holds an event of this name, incentive, prompt and day; an update must match to the millisecond. */
  predicate Holds(events: seq<PilotEvent>, e: PilotEvent) {
    exists i :: 0 <= i < |events| && events[i].name == e.name && events[i].incentive == e.incentive
      && events[i].prompt == e.prompt
      && (events[i].at == e.at || (e.name != "creator-update-published" && events[i].at / 86_400_000 == e.at / 86_400_000))
  }

  /** What one event makes of a record: it is last in it, unless it repeats one or there is no room. */
  predicate Stores(r: Record, e: PilotEvent, r': Record) {
    && r'.participant == r.participant && r'.profile == r.profile
    && (if r.full || Holds(r.events, e) then r'.events == r.events && r'.full == r.full
        else if |r.events| < 2000 then |r'.events| == |r.events| + 1 && r'.events[..|r.events|] == r.events
                                       && r'.events[|r.events|] == e && !r'.full
        else r'.events == r.events && r'.full)
  }

  lemma AppendStores(r: Record, e: PilotEvent)
    ensures Stores(r, e, AppendEvent(r, e))
  {
    forall i | 0 <= i < |r.events| && Repeats(r.events[i], e) ensures Holds(r.events, e) {
    }
    if Holds(r.events, e) {
      var i :| 0 <= i < |r.events| && r.events[i].name == e.name && r.events[i].incentive == e.incentive
        && r.events[i].prompt == e.prompt
        && (r.events[i].at == e.at || (e.name != "creator-update-published" && r.events[i].at / 86_400_000 == e.at / 86_400_000));
      assert Repeats(r.events[i], e);
    }
  }

  /** The tab whose request this is still asks in the generation it is in. */
  predicate UpToDate(s: State, request: nat) {
    Runnable(s, request) && s.requests[request].generation == s.tabs[s.requests[request].tab].generation
  }

  /**
   In every run, an event committed in an up-to-date request for the stored participant is
   stored: last in the record, which otherwise stays as it is, unless it repeats an event or the
   record is full; the two-thousand-and-first event only marks the record full.
   */
  lemma {:induction false} CommittedEventIsStored(legacy: Legacy, events: seq<Event>, e: Event)
    requires e.Transacted? && UpToDate(Run(legacy, events), e.request) && e.fate != Aborts
    requires var s := Run(legacy, events);
      var action, t := s.requests[e.request].action, s.tabs[s.requests[e.request].tab];
      && HasRecord(legacy, events) && action.Note? && s.db.value.record.value.participant == action.participant
      && !t.blocked && (t.activeId.None? || t.activeId.value == action.participant)
    ensures var s, db := Run(legacy, events), Run(legacy, events + [e]).db;
      && db.Some? && db.value.record.Some?
      && db.value.epoch == s.db.value.epoch && db.value.grant == s.db.value.grant
      && Stores(s.db.value.record.value, s.requests[e.request].action.event, db.value.record.value)
  {
    var s := Run(legacy, events);
    EpochCountsRevokes(legacy, events);
    RunConcat1(legacy, events, e);
    AppendStores(s.db.value.record.value, s.requests[e.request].action.event);
  }

  /** An event of a blocked tab, of another participant or of another active record stores nothing. */
  lemma {:induction false} ForeignEventStoresNothing(legacy: Legacy, events: seq<Event>, e: Event)
    requires e.Transacted? && Runnable(Run(legacy, events), e.request)
    requires var s := Run(legacy, events);
      var action, t := s.requests[e.request].action, s.tabs[s.requests[e.request].tab];
      && s.db.Some? && action.Note?
      && (t.blocked || s.db.value.record.None? || s.db.value.record.value.participant != action.participant
          || (t.activeId.Some? && t.activeId.value != s.db.value.record.value.participant)
          || s.requests[e.request].generation != t.generation)
    ensures Run(legacy, events + [e]).db == Run(legacy, events).db
  {
    RunConcat1(legacy, events, e);
  }

  /**
   An opt-in at the stored epoch: where no record is stored it starts one under the new name
   and the asked profile with its event as the only one; a stored record of the same profile
   takes the event; one of another profile stays as it is.
   */
  lemma {:induction false} OptInStores(legacy: Legacy, events: seq<Event>, e: Event)
    requires e.Transacted? && UpToDate(Run(legacy, events), e.request) && e.fate != Aborts
    requires var s := Run(legacy, events);
      var action := s.requests[e.request].action;
      && s.db.Some? && action.OptIn? && action.expected == s.db.value.epoch
    ensures var s, db := Run(legacy, events), Run(legacy, events + [e]).db;
      var action := s.requests[e.request].action;
      && db.Some? && db.value.epoch == s.db.value.epoch && db.value.record.Some?
      && db.value.grant == Some(db.value.record.value.participant)
      && (s.db.value.record.None? ==>
            db.value.record.value == Record(action.newId, action.profile, [action.event], false))
      && (s.db.value.record.Some? && s.db.value.record.value.profile != action.profile ==> db == s.db)
      && (s.db.value.record.Some? && s.db.value.record.value.profile == action.profile ==>
            Stores(s.db.value.record.value, action.event, db.value.record.value))
  {
    var s := Run(legacy, events);
    var action := s.requests[e.request].action;
    EpochCountsRevokes(legacy, events);
    RunConcat1(legacy, events, e);
    if s.db.value.record.Some? {
      AppendStores(s.db.value.record.value, action.event);
    } else {
      FirstEvent(action.newId, action.profile, action.event);
    }
  }

  lemma FirstEvent(id: string, profile: Profile, e: PilotEvent)
    ensures AppendEvent(Record(id, profile, [], false), e) == Record(id, profile, [e], false)
  {
    var none: seq<PilotEvent> := [];
    assert none + [e] == [e];
  }

  /**
   The first read of an empty database takes over the legacy record with its grant if the
   legacy consent names its participant, or if there is none and the record predates the
   second format; otherwise it stores that recording is off. Legacy storage is cleaned after
   a commit that is seen: the consent key says off and the record is gone, where the writes succeed.
   */
  lemma {:induction false} LegacyImport(legacy: Legacy, events: seq<Event>, e: Event)
    requires e.Transacted? && Runnable(Run(legacy, events), e.request) && e.fate != Aborts
    requires Run(legacy, events).db.None? && Run(legacy, events).requests[e.request].action.Refresh?
    ensures var s, s' := Run(legacy, events), Run(legacy, events + [e]);
      && (if s.legacy.record.Some?
             && (s.legacy.grant == Some(s.legacy.record.value.participant) || (s.legacy.grant.None? && !s.legacy.versionTwo))
          then s'.db == Some(Snapshot(s.legacy.record, Some(s.legacy.record.value.participant), 0))
          else s'.db == Some(Snapshot(None, Some("off"), 0)))
      && (if e.fate == Completes then
            && s'.legacy.record == (if e.removeOk then None else s.legacy.record)
            && s'.legacy.grant == (if e.setOk then Some("off") else s.legacy.grant)
          else s'.legacy == s.legacy)
  {
    RunConcat1(legacy, events, e);
  }

  // ----- what a tab shows

  predicate StoredAt(legacy: Legacy, events: seq<Event>, n: nat, record: Record) {
    n <= |events| && var db := Run(legacy, events[..n]).db; db.Some? && db.value.record == Some(record)
  }

  ghost predicate WasStored(legacy: Legacy, events: seq<Event>, record: Record) {
    exists n: nat :: StoredAt(legacy, events, n, record)
  }

  /** Answers on their way and records taken from them are of records that were stored. */
  ghost predicate Sourced(legacy: Legacy, events: seq<Event>, s: State) {
    && (forall i :: 0 <= i < |s.requests| && s.requests[i].status.Committed? && s.requests[i].status.record.Some?
          ==> WasStored(legacy, events, s.requests[i].status.record.value))
    && (forall i :: 0 <= i < |s.tabs| && s.tabs[i].committed.Some?
          ==> WasStored(legacy, events, s.tabs[i].committed.value))
  }

  lemma {:induction false} SourcedGrows(legacy: Legacy, past: seq<Event>, e: Event, s: State)
    requires Sourced(legacy, past, s)
    ensures Sourced(legacy, past + [e], s)
  {
    forall r | WasStored(legacy, past, r) ensures WasStored(legacy, past + [e], r) {
      var n: nat :| StoredAt(legacy, past, n, r);
      assert (past + [e])[..n] == past[..n];
      assert StoredAt(legacy, past + [e], n, r);
    }
  }

  /** What an action answers is the record it leaves, and it leaves what the tab shows alone. */
  lemma AnswersWhatItLeaves(t: Tab, a: Snapshot, action: Action)
    ensures var (t', a', r) := RunAction(t, a, action); t'.committed == t.committed && (r.Some? ==> r == a'.record)
  {
    match action {
      case Note(_, event) =>
        var t1 := Current(t, a).0;
        var (t2, a2) := NoteEvent(t1, a, event);
        NoteShows(t1, a, event);
        CurrentAnswers(t2, a2);
      case OptIn(profile, newId, event, _) =>
        var (t1, a1, fits) := Enable(t, a, profile, newId);
        var (t2, a2) := if fits then NoteEvent(t1, a1, event) else (t1, a1);
        NoteShows(t1, a1, event);
        CurrentAnswers(t2, a2);
      case _ =>
    }
  }

  lemma CurrentAnswers(t: Tab, a: Snapshot)
    ensures Current(t, a).0.committed == t.committed && (Current(t, a).1.Some? ==> Current(t, a).1 == a.record)
  {
  }

  lemma NoteShows(t: Tab, a: Snapshot, e: PilotEvent)
    ensures NoteEvent(t, a, e).0.committed == t.committed
  {
  }

  lemma {:induction false} StepSourced(legacy: Legacy, events: seq<Event>, s: State, e: Event)
    requires Sourced(legacy, events, s)
    requires Step(s, e).db.Some? && Step(s, e).db.value.record.Some?
      ==> WasStored(legacy, events, Step(s, e).db.value.record.value)
    ensures Sourced(legacy, events, Step(s, e))
  {
    if e.Transacted? && Runnable(s, e.request) {
      var r := s.requests[e.request];
      AnswersWhatItLeaves(s.tabs[r.tab], Opening(s.db, s.legacy, r.action), r.action);
    }
  }

  lemma {:induction false} RunSourced(legacy: Legacy, events: seq<Event>)
    ensures Sourced(legacy, events, Run(legacy, events))
  {
    if events != [] {
      var past, e := events[..|events| - 1], events[|events| - 1];
      assert events == past + [e] && events[..|events|] == events;
      RunSourced(legacy, past);
      SourcedGrows(legacy, past, e, Run(legacy, past));
      var db := Run(legacy, events).db;
      if db.Some? && db.value.record.Some? {
        assert StoredAt(legacy, events, |events|, db.value.record.value);
      }
      StepSourced(legacy, events, Run(legacy, past), e);
    }
  }

  /** In every run, a record that a tab shows was stored, exactly so, in the shared database at some time. */
  lemma {:induction false} ShownWasStored(legacy: Legacy, events: seq<Event>, tab: nat) returns (n: nat)
    requires tab < |Run(legacy, events).tabs| && Run(legacy, events).tabs[tab].committed.Some?
    ensures n <= |events| && Run(legacy, events[..n]).db.Some?
    ensures Run(legacy, events[..n]).db.value.record == Run(legacy, events).tabs[tab].committed
  {
    RunSourced(legacy, events);
    n :| StoredAt(legacy, events, n, Run(legacy, events).tabs[tab].committed.value);
  }

  // ----- what a tab asks and takes

  /**
   When a tab submits a request: reading while storage works; an event or an export for the
   participant it shows; an opt-in at the epoch it learned, under a name that is not "off"; a
   revocation always. Revoking stops the tab and starts its next generation at once.
   */
  lemma {:induction false} HowRequestsAreAsked(legacy: Legacy, events: seq<Event>, tab: nat, action: Action)
    requires tab < |Run(legacy, events).tabs|
    ensures var s, s' := Run(legacy, events), Run(legacy, events + [Asked(tab, action)]);
      var t := s.tabs[tab];
      var asks :=
        match action
        case Refresh => !t.failed
        case Note(participant, _) =>
          t.initialized && !t.failed && t.committed.Some? && t.committed.value.participant == participant
        case OptIn(_, newId, _, expected) => t.initialized && !t.failed && expected == t.committedEpoch && newId != "off"
        case Export(participant) => !t.failed && t.committed.Some? && t.committed.value.participant == participant
        case Revoke => true
        case Reset => false;
      if !asks then s' == s
      else
        && s'.db == s.db && s'.legacy == s.legacy && |s'.tabs| == |s.tabs|
        && s'.requests == s.requests + [Request(tab, s'.tabs[tab].generation, action, InFlight)]
        && s'.tabs[tab] == (if action.Revoke? then Tab(None, true, None, t.committedEpoch, t.initialized, t.failed, t.generation + 1)
                            else t)
  {
    RunConcat1(legacy, events, Asked(tab, action));
  }

  /**
   How a tab takes an answer, which by itself changes nothing that is stored. One of an earlier
   generation, or of a request that was outdated when it ran, leaves the tab as it is; a
   committed one is shown with its epoch; an aborted one stops the tab, starts its next
   generation, and has it read again after a conflict or give up on storage otherwise.
   */
  lemma {:induction false} HowAnswersAreTaken(legacy: Legacy, events: seq<Event>, request: nat)
    requires var s := Run(legacy, events);
      && request < |s.requests| && s.requests[request].tab < |s.tabs|
      && (s.requests[request].status.Committed? || s.requests[request].status.Aborted?)
    ensures var s, s' := Run(legacy, events), Run(legacy, events + [Answered(request)]);
      var r := s.requests[request];
      var t, t' := s.tabs[r.tab], s'.tabs[r.tab];
      && s'.db == s.db && s'.legacy == s.legacy && |s'.tabs| == |s.tabs|
      && |s.requests| <= |s'.requests| && s'.requests[request].status == Delivered
      && if r.generation != t.generation || (r.status.Committed? && r.status.stale) then
           t' == t && |s'.requests| == |s.requests|
         else if r.status.Committed? then
           t' == Tab(t.activeId, t.blocked, r.status.record, r.status.epoch, true, false, t.generation)
           && |s'.requests| == |s.requests|
         else
           && t' == Tab(None, true, None, t.committedEpoch, t.initialized, t.failed || !r.status.conflict, t.generation + 1)
           && (if r.status.conflict then |s'.requests| == |s.requests| + 1
                                         && s'.requests[|s.requests|] == Request(r.tab, t.generation + 1, Reset, InFlight)
               else |s'.requests| == |s.requests|)
  {
    RunConcat1(legacy, events, Answered(request));
  }

  /**
   What an up-to-date read answers: the stored record to a tab that follows it or none yet, and
   follows it from then on; nothing to a stopped tab; and nothing to a tab that follows another
   record, which stops.
   */
  lemma {:induction false} HowReadsAnswer(legacy: Legacy, events: seq<Event>, e: Event)
    requires e.Transacted? && UpToDate(Run(legacy, events), e.request) && e.fate == Completes
    requires Run(legacy, events).db.Some? && Run(legacy, events).requests[e.request].action == Refresh
    ensures var s, s' := Run(legacy, events), Run(legacy, events + [e]);
      var tab, stored := s.requests[e.request].tab, s.db.value.record;
      var t, t', status := s.tabs[tab], s'.tabs[tab], s'.requests[e.request].status;
      && s'.db == s.db && status.Committed? && !status.stale && status.epoch == s.db.value.epoch
      && (if t.blocked || stored.None? then t' == t && status.record.None?
          else if t.activeId.None? || t.activeId.value == stored.value.participant then
            t' == t.(activeId := Some(stored.value.participant)) && status.record == stored
          else t' == t.(activeId := None, blocked := true) && status.record.None?)
  {
    EpochCountsRevokes(legacy, events);
    RunConcat1(legacy, events, e);
  }

  /**
   What one transaction event does to the whole state, as the database method does it: its tab is
   left as the handler leaves it, committed or not, and nothing else but the stored
   snapshot, the legacy storage and the answer changes.
   */
  lemma {:induction false} OneTransaction(legacy: Legacy, events: seq<Event>, e: Event)
    requires e.Transacted? && Runnable(Run(legacy, events), e.request)
    ensures var s, s' := Run(legacy, events), Run(legacy, events + [e]);
      var r := s.requests[e.request];
      var h := Handle(Opening(s.db, s.legacy, r.action), s.tabs[r.tab], r);
      && s'.tabs == s.tabs[r.tab := h.tab]
      && s'.db == (if h.Handled? && !e.fate.Aborts? then Some(h.after) else s.db)
      && s'.legacy == (if h.Handled? && e.fate.Completes? then Cleaned(s.legacy, e.setOk, e.removeOk) else s.legacy)
      && s'.requests == s.requests[e.request := r.(status :=
           if h.Handled? && e.fate.Completes? then Committed(h.record, h.after.epoch, h.stale)
           else Aborted(h.Refused? && h.conflict))]
  {
    RunConcat1(legacy, events, e);
  }

  /** An up-to-date revocation that aborts has still stopped its tab, and an aborted read still follows what it read. */
  lemma {:induction false} AbortedStillActs(legacy: Legacy, events: seq<Event>, e: Event)
    requires e.Transacted? && UpToDate(Run(legacy, events), e.request) && e.fate == Aborts && Run(legacy, events).db.Some?
    ensures var s, s' := Run(legacy, events), Run(legacy, events + [e]);
      var r, stored := s.requests[e.request], s.db.value.record;
      var t, t' := s.tabs[r.tab], s'.tabs[r.tab];
      && s'.db == s.db && s'.requests[e.request].status.Aborted?
      && (r.action.Revoke? ==> t' == t.(activeId := None, blocked := true))
      && (r.action.Refresh? && !t.blocked && stored.Some?
            && (t.activeId.None? || t.activeId.value == stored.value.participant)
          ==> t' == t.(activeId := Some(stored.value.participant)))
  {
    EpochCountsRevokes(legacy, events);
    RunConcat1(legacy, events, e);
  }
}
