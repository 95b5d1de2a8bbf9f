/**
 The following feed: explicit pages behind a cursor, every load numbered so that a late
 reply is recognised. Any number of loads may be unanswered at once; replies come in any order.
 */
module FollowingFeed {
  import opened Wrappers

  type Cursor = string
  const MAX_CREATORS: nat := 20

  /** What a reply may set; a reply carries nothing else. */
  datatype Page = Page(creators: seq<string>, nextCursor: Option<Cursor>, requestedCount: nat, checkedCount: nat)

  datatype Reply = Failed | Malformed | Loaded(page: Page)

  /** One load: its number and what it asked for, and the reply once there. */
  datatype Load = Load(sequence: nat, ids: seq<string>, after: Cursor, reply: Option<Reply>)

  datatype View = View(page: Page, after: Cursor, previous: seq<Cursor>, loading: bool, failed: bool)

  datatype State = State(ids: seq<string>, enabled: bool, sequence: nat, view: View, loads: seq<Load>)

  function Empty(count: nat): View {
    View(Page([], None, count, 0), "", [], false, false)
  }

  const Initial := State([], false, 0, Empty(0), [])

  datatype Event =
    | ContextSet(ids: seq<string>, enabled: bool)       // ids already normalised
    | RefreshAsked | NextAsked | PreviousAsked | FirstAsked | Disposed
    | Replied(load: nat, reply: Reply)

  predicate Usable(r: Reply) {
    r.Loaded? && |r.page.creators| <= MAX_CREATORS
  }

  function Refresh(s: State): State {
    if !s.enabled then s
    else
      s.(sequence := s.sequence + 1,
         view := s.view.(page := s.view.page.(creators := [], nextCursor := None), loading := true, failed := false),
         loads := s.loads + [Load(s.sequence + 1, s.ids, s.view.after, None)])
  }

  predicate CanGoNext(s: State) {
    s.enabled && !s.view.loading && s.view.page.nextCursor.Some? && s.view.page.nextCursor.value != ""
  }

  predicate CanGoPrevious(s: State) {
    s.enabled && !s.view.loading && s.view.previous != []
  }

  function Next(s: State): State {
    if !CanGoNext(s) then s
    else Refresh(s.(view := s.view.(previous := s.view.previous + [s.view.after], after := s.view.page.nextCursor.value)))
  }

  function Previous(s: State): State {
    if !CanGoPrevious(s) then s
    else
      var n := |s.view.previous| - 1;
      Refresh(s.(view := s.view.(previous := s.view.previous[..n], after := s.view.previous[n])))
  }

  function Receive(s: State, load: nat, reply: Reply): State {
    if |s.loads| <= load || s.loads[load].reply.Some? then s
    else
      var s' := s.(loads := s.loads[load := s.loads[load].(reply := Some(reply))]);
      if s.loads[load].sequence != s.sequence || !s.enabled then s'
      else if Usable(reply) then s'.(view := s.view.(page := reply.page, loading := false, failed := false))
      else s'.(view := s.view.(loading := false, failed := true))
  }

  function Step(s: State, e: Event): State {
    match e
    case ContextSet(ids, enabled) =>
      if s.enabled == enabled && s.ids == ids then s
      else s.(ids := ids, enabled := enabled, sequence := s.sequence + 1, view := Empty(|ids|))
    case RefreshAsked => Refresh(s)
    case NextAsked => Next(s)
    case PreviousAsked => Previous(s)
    case FirstAsked =>
      if !s.enabled || s.view.loading then s else Refresh(s.(view := s.view.(after := "", previous := [])))
    case Disposed =>
      s.(sequence := s.sequence + 1, enabled := false,
         view := s.view.(page := s.view.page.(creators := []), loading := false))
    case Replied(load, reply) => Receive(s, load, reply)
  }

  function Run(events: seq<Event>): State {
    if events == [] then Initial else Step(Run(events[..|events| - 1]), events[|events| - 1])
  }

  class Feed {
    var ids: seq<string>
    var enabled: bool
    var sequence: nat
    var page: Page
    var after: Cursor
    var previous: seq<Cursor>
    var loading: bool
    var failed: bool
    var loads: seq<Load>

    ghost function Model(): State
      reads this
    {
      State(ids, enabled, sequence, View(page, after, previous, loading, failed), loads)
    }

    constructor ()
      ensures Model() == Initial
    {
      ids, enabled, sequence, loads := [], false, 0, [];
      page, after, previous, loading, failed := Page([], None, 0, 0), "", [], false, false;
    }

    method SetContext(nextIds: seq<string>, nextEnabled: bool) returns (changed: bool)
      modifies this
      ensures Model() == Step(old(Model()), ContextSet(nextIds, nextEnabled))
      ensures changed <==> old(enabled) != nextEnabled || old(ids) != nextIds
    {
      if enabled == nextEnabled && ids == nextIds {
        return false;
      }
      sequence := sequence + 1;
      ids, enabled := nextIds, nextEnabled;
      page, after, previous, loading, failed := Page([], None, |ids|, 0), "", [], false, false;
      changed := true;
    }

    method RefreshPage()
      modifies this
      ensures Model() == Refresh(old(Model()))
    {
      if enabled {
        sequence := sequence + 1;
        page := page.(creators := [], nextCursor := None);
        loading, failed := true, false;
        loads := loads + [Load(sequence, ids, after, None)];
      }
    }

    method GoNext()
      modifies this
      ensures Model() == Step(old(Model()), NextAsked)
    {
      if !enabled || loading || page.nextCursor.None? || page.nextCursor.value == "" {
        return;
      }
      previous := previous + [after];
      after := page.nextCursor.value;
      RefreshPage();
    }

    method GoPrevious()
      modifies this
      ensures Model() == Step(old(Model()), PreviousAsked)
    {
      if !enabled || loading || previous == [] {
        return;
      }
      after := previous[|previous| - 1];
      previous := previous[..|previous| - 1];
      RefreshPage();
    }

    method GoFirst()
      modifies this
      ensures Model() == Step(old(Model()), FirstAsked)
    {
      if !enabled || loading {
        return;
      }
      after, previous := "", [];
      RefreshPage();
    }

    method Dispose()
      modifies this
      ensures Model() == Step(old(Model()), Disposed)
    {
      sequence := sequence + 1;
      enabled := false;
      page := page.(creators := []);
      loading := false;
    }

    method OnReply(load: nat, reply: Reply)
      requires load < |loads| && loads[load].reply.None?
      modifies this
      ensures Model() == Step(old(Model()), Replied(load, reply))
    {
      var request := loads[load].sequence;
      loads := loads[load := loads[load].(reply := Some(reply))];
      if request != sequence || !enabled {
        return;
      }
      if reply.Loaded? && |reply.page.creators| <= MAX_CREATORS {
        page := reply.page;
        failed := false;
      } else {
        failed := true;
      }
      loading := false;
    }
  }

  // ----- freshness

  /** `l` is the load behind what is shown: the latest one, for the current ids and cursor. */
  predicate IsCurrent(s: State, l: Load) {
    l.sequence == s.sequence && l.ids == s.ids && l.after == s.view.after
  }

  /** What is shown, and any cursor to go on with, is the usable reply to the current load. */
  ghost predicate Fresh(s: State) {
    && (forall k :: 0 <= k < |s.loads| ==> s.loads[k].sequence <= s.sequence)
    && (forall k :: 0 <= k < |s.loads| && s.loads[k].sequence == s.sequence ==> s.enabled && IsCurrent(s, s.loads[k]))
    && (forall j, k :: 0 <= j < k < |s.loads| ==> s.loads[j].sequence < s.loads[k].sequence)
    && (s.enabled && !s.view.loading && (s.view.page.creators != [] || s.view.page.nextCursor.Some?) ==>
          exists k :: 0 <= k < |s.loads| && IsCurrent(s, s.loads[k]) && s.loads[k].reply.Some?
                      && Usable(s.loads[k].reply.value) && s.loads[k].reply.value.page == s.view.page)
    && (s.view.loading ==>
          && s.enabled && s.view.page.creators == [] && s.view.page.nextCursor.None?
          && exists k :: 0 <= k < |s.loads| && IsCurrent(s, s.loads[k]) && s.loads[k].reply.None?)
    && (!s.enabled ==> s.view.page.creators == [])
  }

  lemma RefreshFresh(s: State)
    requires forall k :: 0 <= k < |s.loads| ==> s.loads[k].sequence <= s.sequence
    requires forall j, k :: 0 <= j < k < |s.loads| ==> s.loads[j].sequence < s.loads[k].sequence
    requires s.enabled
    ensures Fresh(Refresh(s))
  {
    var s' := Refresh(s);
    assert IsCurrent(s', s'.loads[|s.loads|]);
  }

  /** Marking a load answered that is not the current one keeps whatever load is behind the page. */
  lemma LateFresh(s: State, load: nat, reply: Reply)
    requires Fresh(s) && load < |s.loads| && s.loads[load].reply.None? && (s.loads[load].sequence != s.sequence || !s.enabled)
    ensures Fresh(Receive(s, load, reply))
  {
    var s' := Receive(s, load, reply);
    assert forall k :: 0 <= k < |s.loads| && k != load ==> s'.loads[k] == s.loads[k];
    if s.view.loading {
      var k :| 0 <= k < |s.loads| && IsCurrent(s, s.loads[k]) && s.loads[k].reply.None?;
      assert IsCurrent(s', s'.loads[k]);
    } else if s.enabled && (s.view.page.creators != [] || s.view.page.nextCursor.Some?) {
      var k :| 0 <= k < |s.loads| && IsCurrent(s, s.loads[k]) && s.loads[k].reply.Some?
        && Usable(s.loads[k].reply.value) && s.loads[k].reply.value.page == s.view.page;
      assert IsCurrent(s', s'.loads[k]);
    }
  }

  lemma CurrentFresh(s: State, load: nat, reply: Reply)
    requires Fresh(s) && load < |s.loads| && s.loads[load].reply.None? && s.loads[load].sequence == s.sequence && s.enabled
    ensures Fresh(Receive(s, load, reply))
  {
    var s' := Receive(s, load, reply);
    assert forall k :: 0 <= k < |s.loads| && k != load ==> s'.loads[k] == s.loads[k];
    assert IsCurrent(s', s'.loads[load]);
  }

  lemma ReceiveFresh(s: State, load: nat, reply: Reply)
    requires Fresh(s)
    ensures Fresh(Receive(s, load, reply))
  {
    if load < |s.loads| && s.loads[load].reply.None? {
      if s.loads[load].sequence == s.sequence && s.enabled {
        CurrentFresh(s, load, reply);
      } else {
        LateFresh(s, load, reply);
      }
    }
  }

  lemma StepFresh(s: State, e: Event)
    requires Fresh(s)
    ensures Fresh(Step(s, e))
  {
    match e {
      case ContextSet(_, _) =>
      case RefreshAsked => if s.enabled { RefreshFresh(s); }
      case NextAsked =>
        if CanGoNext(s) {
          RefreshFresh(s.(view := s.view.(previous := s.view.previous + [s.view.after], after := s.view.page.nextCursor.value)));
        }
      case PreviousAsked =>
        if CanGoPrevious(s) {
          var n := |s.view.previous| - 1;
          RefreshFresh(s.(view := s.view.(previous := s.view.previous[..n], after := s.view.previous[n])));
        }
      case FirstAsked => if s.enabled && !s.view.loading { RefreshFresh(s.(view := s.view.(after := "", previous := []))); }
      case Disposed =>
      case Replied(load, reply) => ReceiveFresh(s, load, reply);
    }
  }

  /** In every interleaving the feed is fresh. */
  lemma {:induction false} RunFresh(events: seq<Event>)
    ensures Fresh(Run(events))
  {
    if events != [] {
      RunFresh(events[..|events| - 1]);
      StepFresh(Run(events[..|events| - 1]), events[|events| - 1]);
    }
  }

  /**
   Whatever is shown is the reply to the one latest load, for the current ids and cursor;
   going on is possible only with a cursor from that same reply.
   */
  lemma ShownIsCurrent(events: seq<Event>) returns (k: nat)
    requires Run(events).view.page.creators != [] || CanGoNext(Run(events))
    ensures var s := Run(events);
      && k < |s.loads| && s.enabled && !s.view.loading
      && IsCurrent(s, s.loads[k]) && (forall j :: 0 <= j < |s.loads| && j != k ==> s.loads[j].sequence < s.sequence)
      && s.loads[k].reply.Some? && Usable(s.loads[k].reply.value) && s.loads[k].reply.value.page == s.view.page
  {
    RunFresh(events);
    var s := Run(events);
    k :| 0 <= k < |s.loads| && IsCurrent(s, s.loads[k]) && s.loads[k].reply.Some?
      && Usable(s.loads[k].reply.value) && s.loads[k].reply.value.page == s.view.page;
  }

  lemma SupersededStep(s: State, e: Event, load: nat)
    requires Fresh(s) && load < |s.loads| && s.loads[load].sequence < s.sequence
    ensures var s' := Step(s, e); load < |s'.loads| && s'.loads[load].sequence < s'.sequence
  {
  }

  lemma {:induction false} SupersededStays(events: seq<Event>, load: nat, i: nat, n: nat)
    requires i <= n <= |events|
    requires var s := Run(events[..i]); load < |s.loads| && s.loads[load].sequence < s.sequence
    ensures var s := Run(events[..n]); load < |s.loads| && s.loads[load].sequence < s.sequence
    decreases n - i
  {
    if i < n {
      SupersededStays(events, load, i, n - 1);
      RunFresh(events[..n - 1]);
      assert events[..n][..n - 1] == events[..n - 1];
      SupersededStep(Run(events[..n - 1]), events[n - 1], load);
    }
  }

  /**
   A load is superseded for good: once anything newer was asked for or set, its reply,
   whenever it comes in the run, changes nothing but that it is answered.
   */
  lemma SupersededChangesNothing(events: seq<Event>, load: nat, reply: Reply, i: nat, n: nat)
    requires i <= n < |events| && events[n] == Replied(load, reply)
    requires var s := Run(events[..i]); load < |s.loads| && s.loads[load].sequence != s.sequence
    ensures var s, s' := Run(events[..n]), Run(events[..n + 1]); s'.(loads := s.loads) == s
  {
    RunFresh(events[..i]);
    SupersededStays(events, load, i, n);
    assert events[..n + 1][..n] == events[..n];
  }

  /** Events that leave the reader on the page. */
  predicate Stays(e: Event) {
    e.Replied? || e.RefreshAsked?
  }

  function After(s: State, events: seq<Event>): State {
    if events == [] then s else Step(After(s, events[..|events| - 1]), events[|events| - 1])
  }

  lemma {:induction false} StayingKeepsPlace(s: State, events: seq<Event>)
    requires forall i :: 0 <= i < |events| ==> Stays(events[i])
    ensures var s' := After(s, events);
      s'.view.after == s.view.after && s'.view.previous == s.view.previous && s'.ids == s.ids && s'.enabled == s.enabled
  {
    if events != [] {
      StayingKeepsPlace(s, events[..|events| - 1]);
    }
  }

  /**
   Previous undoes Next exactly: whatever replies and refreshes came between, it returns to
   the same cursor, history and ids, and loads them anew.
   */
  lemma {:induction false} PreviousUndoesNext(s: State, between: seq<Event>)
    requires CanGoNext(s) && forall i :: 0 <= i < |between| ==> Stays(between[i])
    requires !After(Next(s), between).view.loading
    ensures var s' := Previous(After(Next(s), between));
      && s'.view.after == s.view.after && s'.view.previous == s.view.previous && s'.ids == s.ids
      && s'.view.loading && s'.loads != [] && IsCurrent(s', s'.loads[|s'.loads| - 1])
      && s'.loads[|s'.loads| - 1].after == s.view.after
  {
    StayingKeepsPlace(Next(s), between);
  }

  // ----- what is shown, asked for and given up

  lemma {:induction false} RunAppend(events: seq<Event>, e: Event)
    ensures Run(events + [e]) == Step(Run(events), e)
  {
    assert (events + [e])[..|events|] == events;
  }

  /** In every run at most twenty creators are shown, and none while a page loads. */
  lemma {:induction false} AtMostTwentyShown(events: seq<Event>)
    ensures var v := Run(events).view; |v.page.creators| <= 20 && (v.loading ==> v.page.creators == [])
  {
    RunFresh(events);
    if Run(events).view.page.creators != [] && Run(events).enabled && !Run(events).view.loading {
      var k := ShownIsCurrent(events);
    }
  }

  /**
   The reply to the load under way, in every run: a page of at most twenty creators is shown
   just as it came; anything else, a larger page or a failure, only says that loading failed.
   */
  lemma {:induction false} HowRepliesShow(events: seq<Event>, load: nat, reply: Reply)
    requires var s := Run(events);
      s.view.loading && load < |s.loads| && s.loads[load].sequence == s.sequence && s.loads[load].reply.None?
    ensures var s, s' := Run(events), Run(events + [Replied(load, reply)]);
      && !s'.view.loading && s'.view.after == s.view.after && s'.view.previous == s.view.previous
      && (if reply.Loaded? && |reply.page.creators| <= 20 then s'.view.page == reply.page && !s'.view.failed
          else s'.view.page == s.view.page && s'.view.page.creators == [] && s'.view.failed)
  {
    RunFresh(events);
    RunAppend(events, Replied(load, reply));
  }

  /** A new load for these ids after this cursor is the latest one, and nothing is shown until it answers. */
  predicate Loads(s: State, s': State, after: Cursor, previous: seq<Cursor>) {
    && s'.sequence == s.sequence + 1 && s'.enabled && s'.ids == s.ids
    && s'.view.after == after && s'.view.previous == previous && s'.view.loading && !s'.view.failed
    && s'.view.page.creators == [] && s'.view.page.nextCursor.None?
    && s'.loads == s.loads + [Load(s.sequence + 1, s.ids, after, None)]
  }

  /**
   Moving through the pages, in every run: next loads what follows the cursor of the page
   shown and remembers this page's; previous loads the last one remembered; first loads the
   start and forgets the rest; refresh loads the same place. A feed that is off, and next,
   previous or first while a page loads, do nothing.
   */
  lemma {:induction false} HowReadersMove(events: seq<Event>)
    ensures var s := Run(events);
      var idle, cursor := s.enabled && !s.view.loading, s.view.page.nextCursor;
      && (if idle && cursor.Some? && |cursor.value| > 0
          then Loads(s, Run(events + [NextAsked]), cursor.value, s.view.previous + [s.view.after])
          else Run(events + [NextAsked]) == s)
      && (if idle && |s.view.previous| > 0
          then Loads(s, Run(events + [PreviousAsked]), s.view.previous[|s.view.previous| - 1], s.view.previous[..|s.view.previous| - 1])
          else Run(events + [PreviousAsked]) == s)
      && (if idle then Loads(s, Run(events + [FirstAsked]), "", []) else Run(events + [FirstAsked]) == s)
      && (if s.enabled then Loads(s, Run(events + [RefreshAsked]), s.view.after, s.view.previous)
          else Run(events + [RefreshAsked]) == s)
  {
    RunAppend(events, NextAsked);
    RunAppend(events, PreviousAsked);
    RunAppend(events, FirstAsked);
    RunAppend(events, RefreshAsked);
  }

  /**
   Setting the same creators and the same switch again keeps everything; any other setting, and
   disposing of the feed, shows nothing and outdates every load so far.
   */
  lemma {:induction false} HowContextChanges(events: seq<Event>, ids: seq<string>, enabled: bool, k: nat)
    requires k < |Run(events).loads|
    ensures var s, s', gone := Run(events), Run(events + [ContextSet(ids, enabled)]), Run(events + [Disposed]);
      && (if s.ids == ids && s.enabled == enabled then s' == s
          else
            && s'.ids == ids && s'.enabled == enabled && s'.view.page == Page([], None, |ids|, 0)
            && s'.view.after == "" && s'.view.previous == [] && !s'.view.loading && !s'.view.failed
            && s'.loads == s.loads && s'.loads[k].sequence < s'.sequence)
      && !gone.enabled && gone.view.page.creators == [] && !gone.view.loading
      && gone.loads == s.loads && gone.loads[k].sequence < gone.sequence
  {
    RunFresh(events);
    RunAppend(events, ContextSet(ids, enabled));
    RunAppend(events, Disposed);
  }
}
