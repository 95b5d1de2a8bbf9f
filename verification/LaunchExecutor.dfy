/**
 Executing a launch plan: every step is reviewed, signed, journaled as broadcasting, sent at
 most once, and reconciled. The wallet, the RPC and the journal's storage are adversarial:
 each may refuse, lie about the message, fail or time out at every point.
 */
module LaunchExecutor {
  import opened Wrappers
  import opened LaunchJournal

  datatype WalletReply =
    | Refused
    | Signed(signature: string, wellFormed: bool, sameMessage: bool, validSignatures: bool, fits: bool)

  /**
   Everything the surroundings decide during one step, in order. `readsAsRejection` is about
   the text of whatever error ends the step before its broadcast.
   */
  datatype Surroundings = Surroundings(
    readyFirst: bool, blockhash: bool, currentFirst: bool, storesAwaiting: bool,
    wallet: WalletReply, currentAgain: bool, readyAgain: bool, storesBroadcasting: bool,
    sent: bool, sameSignature: bool, storesSubmitted: bool,
    confirmation: Option<bool>, status: Option<bool>, storesVerdict: bool, storesLast: bool,
    readsAsRejection: bool)

  datatype Action = Journaled(e: Entry) | Sent(step: nat, signature: string)

  predicate Acceptable(w: WalletReply) {
    w.Signed? && w.wellFormed && w.sameMessage && w.validSignatures && w.fits
  }

  /** What is finally known about a sent step: the confirmation, else the finalized status. */
  function Verdict(x: Surroundings): Option<bool> {
    if x.confirmation.Some? then x.confirmation else x.status
  }

  function Note(stored: bool, state: JournalState, step: nat, signature: Option<string>): seq<Action> {
    if stored then [Journaled(Entry(state, step, signature))] else []
  }

  predicate Awaits(x: Surroundings) {
    x.readyFirst && x.blockhash && x.currentFirst && x.storesAwaiting
  }

  function SignatureOf(x: Surroundings): Option<string> {
    if Awaits(x) && Acceptable(x.wallet) && x.currentAgain then Some(x.wallet.signature) else None
  }

  /** Reaches the send: everything before it went well and the broadcasting event was stored. */
  predicate Reaches(x: Surroundings) {
    && x.readyFirst && x.blockhash && x.currentFirst && x.storesAwaiting
    && Acceptable(x.wallet) && x.currentAgain && x.readyAgain && x.storesBroadcasting
  }

  function Unsent(x: Surroundings): JournalState {
    if x.readsAsRejection then Cancelled else Failed
  }

  function AfterSend(step: nat, x: Surroundings): seq<Action>
    requires x.wallet.Signed?
  {
    var s := Some(x.wallet.signature);
    var unknown := Note(x.storesLast, Unknown, step, s);
    if !x.sent || !x.sameSignature || !x.storesSubmitted then unknown
    else
      Note(true, Submitted, step, s) + (
        if Verdict(x).None? || !x.storesVerdict then unknown
        else Note(true, if Verdict(x).value then Failed else Confirmed, step, s))
  }

  /** Everything a step does, in order. */
  function StepLog(step: nat, x: Surroundings): seq<Action> {
    Note(Awaits(x), AwaitingApproval, step, None) + (
      if Reaches(x) then
        [Journaled(Entry(Broadcasting, step, Some(x.wallet.signature))), Sent(step, x.wallet.signature)]
        + AfterSend(step, x)
      else Note(x.storesLast, Unsent(x), step, SignatureOf(x)))
  }

  /** The next step starts only then. */
  predicate Advances(x: Surroundings) {
    Reaches(x) && x.sent && x.sameSignature && x.storesSubmitted && Verdict(x) == Some(false) && x.storesVerdict
  }

  function PlanLog(steps: seq<Surroundings>, i: nat): seq<Action>
    requires i <= |steps|
    decreases |steps| - i
  {
    if i == |steps| then []
    else StepLog(i, steps[i]) + (if Advances(steps[i]) then PlanLog(steps, i + 1) else [])
  }

  /** Everything a plan does. */
  function WholeLog(steps: seq<Surroundings>): seq<Action> {
    PlanLog(steps, 0)
  }

  /** The journal after a log. */
  function Replay(rows: seq<Row>, id: string, log: seq<Action>): seq<Row> {
    if log == [] then rows
    else
      var before := Replay(rows, id, log[..|log| - 1]);
      if log[|log| - 1].Journaled? then Recorded(before, id, log[|log| - 1].e) else before
  }

  // ----- the executor; `log` is what it hands to the journal and the network, in order

  /** Reports an event; the journal may refuse to store it, which reads as an exception. */
  method OnEvent(log: seq<Action>, state: JournalState, step: nat, signature: Option<string>, storageOk: bool)
    returns (log': seq<Action>, accepted: bool)
    ensures accepted == storageOk
    ensures log' == log + Note(storageOk, state, step, signature)
  {
    accepted := storageOk;
    log' := if storageOk then log + [Journaled(Entry(state, step, signature))] else log;
  }

  /** The part of a step after its transaction is out: never a second send. */
  method Settle(step: nat, x: Surroundings) returns (log: seq<Action>, advanced: bool)
    requires Reaches(x)
    ensures advanced == Advances(x) && log == AfterSend(step, x)
  {
    var signature := Some(x.wallet.signature);
    log, advanced := [], false;
    var ok := x.sent && x.sameSignature;
    if ok {
      log, ok := OnEvent(log, Submitted, step, signature, x.storesSubmitted);
    }
    if ok {
      var verdict := x.confirmation;
      if verdict.None? {
        verdict := x.status;
      }
      ok := verdict.Some?;
      if ok {
        log, ok := OnEvent(log, if verdict.value then Failed else Confirmed, step, signature, x.storesVerdict);
        advanced := ok && !verdict.value;
      }
    }
    if !ok {
      log, ok := OnEvent(log, Unknown, step, signature, x.storesLast);
    }
  }

  method ExecuteStep(step: nat, x: Surroundings) returns (log: seq<Action>, advanced: bool)
    ensures advanced == Advances(x) && log == StepLog(step, x)
  {
    log, advanced := [], false;
    var signature := None;
    var ok := x.readyFirst && x.blockhash && x.currentFirst;
    if ok {
      log, ok := OnEvent(log, AwaitingApproval, step, None, x.storesAwaiting);
    }
    if ok && x.currentAgain && Acceptable(x.wallet) {
      signature := Some(x.wallet.signature);
      if x.readyAgain {
        var stored;
        log, stored := OnEvent(log, Broadcasting, step, signature, x.storesBroadcasting);
        if stored {
          log := log + [Sent(step, x.wallet.signature)];
          var rest;
          rest, advanced := Settle(step, x);
          assert log == Note(Awaits(x), AwaitingApproval, step, None)
            + [Journaled(Entry(Broadcasting, step, signature)), Sent(step, x.wallet.signature)];
          log := log + rest;
          assert log == StepLog(step, x);
          return;
        }
      }
    }
    log, ok := OnEvent(log, if x.readsAsRejection then Cancelled else Failed, step, signature, x.storesLast);
  }

  /** One more step of the plan, added to the log. */
  method Continue(steps: seq<Surroundings>, i: nat, log: seq<Action>) returns (log': seq<Action>, advanced: bool)
    requires i < |steps| && Ahead(log, steps, i)
    ensures advanced == Advances(steps[i])
    ensures if advanced then Ahead(log', steps, i + 1) else log' == WholeLog(steps)
  {
    var here;
    here, advanced := ExecuteStep(i, steps[i]);
    PlanUnfolds(log, steps, i, here);
    log' := log + here;
  }

  method ExecuteLaunchPlan(steps: seq<Surroundings>) returns (log: seq<Action>, completed: bool)
    ensures log == WholeLog(steps)
    ensures completed <==> forall i :: 0 <= i < |steps| ==> Advances(steps[i])
  {
    log := [];
    PlanStarts(steps);
    for i := 0 to |steps|
      invariant Ahead(log, steps, i)
      invariant forall j :: 0 <= j < i ==> Advances(steps[j])
    {
      var advanced;
      log, advanced := Continue(steps, i, log);
      if !advanced {
        return log, false;
      }
    }
    PlanEnds(log, steps);
    completed := true;
  }

  lemma PlanStarts(steps: seq<Surroundings>)
    ensures Ahead([], steps, 0)
  {
  }

  lemma PlanEnds(done: seq<Action>, steps: seq<Surroundings>)
    requires Ahead(done, steps, |steps|)
    ensures done == WholeLog(steps)
  {
  }

  /** What the plan has done before step `i`, with what it does from there, is all it does. */
  predicate Ahead(done: seq<Action>, steps: seq<Surroundings>, i: nat)
    requires i <= |steps|
  {
    WholeLog(steps) == done + PlanLog(steps, i)
  }

  lemma {:induction false} PlanUnfolds(done: seq<Action>, steps: seq<Surroundings>, i: nat, here: seq<Action>)
    requires i < |steps| && Ahead(done, steps, i) && here == StepLog(i, steps[i])
    ensures if Advances(steps[i]) then Ahead(done + here, steps, i + 1) else WholeLog(steps) == done + here
  {
    PlanGoesOn(steps, i);
    Reassociate(done, here, if Advances(steps[i]) then PlanLog(steps, i + 1) else []);
  }

  /** What a plan does from step `i`: the step, and the rest of the plan if the step advances. */
  lemma {:induction false} PlanGoesOn(steps: seq<Surroundings>, i: nat)
    requires i < |steps|
    ensures PlanLog(steps, i) == StepLog(i, steps[i]) + (if Advances(steps[i]) then PlanLog(steps, i + 1) else [])
  {
  }

  lemma Reassociate(a: seq<Action>, b: seq<Action>, c: seq<Action>)
    ensures a + (b + c) == (a + b) + c
    ensures a + b + [] == a + b
  {
  }

  // ----- send once

  predicate SentIn(log: seq<Action>, step: nat) {
    exists k :: 0 <= k < |log| && log[k].Sent? && log[k].step == step
  }

  /** All actions of a log are about steps from `lo` on. */
  predicate From(log: seq<Action>, lo: nat) {
    forall k :: 0 <= k < |log| ==> lo <= (if log[k].Sent? then log[k].step else log[k].e.step)
  }

  /** Every send is of the reviewed message and follows its own accepted broadcasting event directly. */
  predicate SendsAreJournaled(log: seq<Action>, steps: seq<Surroundings>) {
    forall k :: 0 <= k < |log| && log[k].Sent? ==>
      && log[k].step < |steps| && Acceptable(steps[log[k].step].wallet)
      && steps[log[k].step].wallet.signature == log[k].signature
      && 0 < k && log[k - 1] == Journaled(Entry(Broadcasting, log[k].step, Some(log[k].signature)))
  }

  /** No step is sent twice. */
  predicate SendsOnce(log: seq<Action>) {
    forall j, k :: 0 <= j < k < |log| && log[j].Sent? && log[k].Sent? ==> log[j].step != log[k].step
  }

  /** A step that was sent is journaled neither cancelled nor, unless it failed on chain, failed. */
  predicate SentNeverCancelled(log: seq<Action>, steps: seq<Surroundings>) {
    forall k :: 0 <= k < |log| && log[k].Journaled? && SentIn(log, log[k].e.step) && log[k].e.step < |steps| ==>
      && log[k].e.state != Cancelled
      && (log[k].e.state == Failed ==> Verdict(steps[log[k].e.step]) == Some(true))
  }

  predicate GoodLog(log: seq<Action>, steps: seq<Surroundings>) {
    SendsAreJournaled(log, steps) && SendsOnce(log) && SentNeverCancelled(log, steps)
  }

  function StepOf(a: Action): nat {
    if a.Sent? then a.step else a.e.step
  }

  lemma AfterSendShape(step: nat, x: Surroundings)
    requires Reaches(x)
    ensures |AfterSend(step, x)| <= 2
    ensures forall k :: 0 <= k < |AfterSend(step, x)| ==> var a := AfterSend(step, x)[k];
      && a.Journaled? && a.e.step == step && a.e.state in {Submitted, Unknown, Failed, Confirmed}
      && (a.e.state == Failed ==> Verdict(x) == Some(true))
    ensures Advances(x) ==> |AfterSend(step, x)| == 2 && AfterSend(step, x)[1].e.state == Confirmed
  {
  }

  /** A step's log: possibly an awaiting event; then either broadcasting, the send and its outcome, or the refusal. */
  lemma StepShape(step: nat, x: Surroundings)
    ensures |StepLog(step, x)| <= 5
    ensures Reaches(x) ==>
      StepLog(step, x) == [Journaled(Entry(AwaitingApproval, step, None)),
                           Journaled(Entry(Broadcasting, step, Some(x.wallet.signature))),
                           Sent(step, x.wallet.signature)] + AfterSend(step, x)
    ensures !Reaches(x) ==> forall k :: 0 <= k < |StepLog(step, x)| ==> StepLog(step, x)[k].Journaled?
    ensures forall k :: 0 <= k < |StepLog(step, x)| ==> StepOf(StepLog(step, x)[k]) == step
  {
    if Reaches(x) {
      AfterSendShape(step, x);
    }
  }

  lemma StepIsGood(steps: seq<Surroundings>, i: nat)
    requires i < |steps|
    ensures GoodLog(StepLog(i, steps[i]), steps)
  {
    var log := StepLog(i, steps[i]);
    StepShape(i, steps[i]);
    if Reaches(steps[i]) {
      AfterSendShape(i, steps[i]);
      assert log[2] == Sent(i, steps[i].wallet.signature);
      assert forall k :: 3 <= k < |log| ==> log[k] == AfterSend(i, steps[i])[k - 3];
      assert forall k :: 0 <= k < |log| && log[k].Sent? ==> k == 2;
    }
  }

  lemma AppendJournaled(a: seq<Action>, b: seq<Action>, steps: seq<Surroundings>)
    requires SendsAreJournaled(a, steps) && SendsAreJournaled(b, steps)
    ensures SendsAreJournaled(a + b, steps)
  {
    var log := a + b;
    forall k | 0 <= k < |log| && log[k].Sent? ensures
      && log[k].step < |steps| && Acceptable(steps[log[k].step].wallet)
      && steps[log[k].step].wallet.signature == log[k].signature
      && 0 < k && log[k - 1] == Journaled(Entry(Broadcasting, log[k].step, Some(log[k].signature)))
    {
      if k < |a| {
        assert log[k] == a[k] && log[k - 1] == a[k - 1];
      } else {
        assert log[k] == b[k - |a|] && log[k - 1] == b[k - |a| - 1];
      }
    }
  }

  lemma AppendSends(a: seq<Action>, b: seq<Action>, i: nat)
    requires From(b, i + 1) && forall k :: 0 <= k < |a| ==> StepOf(a[k]) == i
    ensures From(a + b, i)
    ensures SendsOnce(a) && SendsOnce(b) ==> SendsOnce(a + b)
    ensures forall step :: SentIn(a + b, step) ==> if step == i then SentIn(a, step) else SentIn(b, step)
  {
    var log := a + b;
    assert forall k :: 0 <= k < |log| ==> log[k] == if k < |a| then a[k] else b[k - |a|];
    forall step | SentIn(log, step) ensures if step == i then SentIn(a, step) else SentIn(b, step) {
      var j :| 0 <= j < |log| && log[j].Sent? && log[j].step == step;
      if j < |a| { assert a[j].Sent? && StepOf(a[j]) == i; } else { assert b[j - |a|].Sent?; }
    }
  }

  lemma AppendGood(a: seq<Action>, b: seq<Action>, steps: seq<Surroundings>, i: nat)
    requires GoodLog(a, steps) && GoodLog(b, steps) && From(b, i + 1)
    requires forall k :: 0 <= k < |a| ==> StepOf(a[k]) == i
    ensures GoodLog(a + b, steps) && From(a + b, i)
  {
    AppendJournaled(a, b, steps);
    AppendSends(a, b, i);
    var log := a + b;
    forall k | 0 <= k < |log| && log[k].Journaled? && SentIn(log, log[k].e.step) && log[k].e.step < |steps|
      ensures log[k].e.state != Cancelled && (log[k].e.state == Failed ==> Verdict(steps[log[k].e.step]) == Some(true))
    {
      if k < |a| {
        assert log[k] == a[k] && StepOf(a[k]) == i;
      } else {
        assert log[k] == b[k - |a|];
      }
    }
  }

  /**
   Over a whole plan, for every wallet, RPC and storage behaviour: each step is sent at most
   once, only as reviewed and directly after its accepted broadcasting event; a sent step is
   never journaled cancelled, and failed only if it failed on chain.
   */
  lemma {:induction false} PlanSendsOnce(steps: seq<Surroundings>, i: nat)
    requires i <= |steps|
    ensures GoodLog(PlanLog(steps, i), steps) && From(PlanLog(steps, i), i)
    decreases |steps| - i
  {
    if i < |steps| {
      var rest := [];
      if Advances(steps[i]) {
        PlanSendsOnce(steps, i + 1);
        rest := PlanLog(steps, i + 1);
      }
      StepIsGood(steps, i);
      OwnStep(i, steps[i]);
      PlanGoesOn(steps, i);
      AppendGood(StepLog(i, steps[i]), rest, steps, i);
    }
  }

  lemma OwnStep(step: nat, x: Surroundings)
    ensures forall k :: 0 <= k < |StepLog(step, x)| ==> StepOf(StepLog(step, x)[k]) == step
  {
    StepShape(step, x);
  }

  // ----- the same in the surroundings' own terms

  /** Everything that must go well before a step is sent. */
  predicate SentFields(x: Surroundings) {
    && x.readyFirst && x.blockhash && x.currentFirst && x.storesAwaiting
    && x.wallet.Signed? && x.wallet.wellFormed && x.wallet.sameMessage && x.wallet.validSignatures && x.wallet.fits
    && x.currentAgain && x.readyAgain && x.storesBroadcasting
  }

  /** Sent, accepted, and known to be finalized with `failed`: by its confirmation, or failing that its status. */
  predicate KnownFields(x: Surroundings, failed: bool) {
    && SentFields(x) && x.sent && x.sameSignature && x.storesSubmitted && x.storesVerdict
    && (x.confirmation == Some(failed) || (x.confirmation.None? && x.status == Some(failed)))
  }

  predicate JournaledAs(log: seq<Action>, state: JournalState) {
    exists k :: 0 <= k < |log| && log[k].Journaled? && log[k].e.state == state
  }

  lemma JournaledEither(a: seq<Action>, b: seq<Action>, state: JournalState)
    ensures JournaledAs(a + b, state) <==> JournaledAs(a, state) || JournaledAs(b, state)
  {
    if k :| 0 <= k < |a| && a[k].Journaled? && a[k].e.state == state {
      assert (a + b)[k] == a[k];
    }
    if k :| 0 <= k < |b| && b[k].Journaled? && b[k].e.state == state {
      assert (a + b)[|a| + k] == b[k];
    }
  }

  lemma NoteJournals(stored: bool, noted: JournalState, step: nat, signature: Option<string>, state: JournalState)
    ensures JournaledAs(Note(stored, noted, step, signature), state) <==> stored && state == noted
  {
    if stored {
      assert Note(stored, noted, step, signature)[0].e.state == noted;
    }
  }

  lemma AfterSendOutcome(step: nat, x: Surroundings, state: JournalState)
    requires Reaches(x)
    ensures JournaledAs(AfterSend(step, x), state) <==> match state
      case Submitted => x.sent && x.sameSignature && x.storesSubmitted
      case Confirmed => KnownFields(x, false)
      case Failed => KnownFields(x, true)
      case Unknown => x.storesLast && !KnownFields(x, false) && !KnownFields(x, true)
      case _ => false
  {
    var s := Some(x.wallet.signature);
    var known := if Verdict(x) == Some(true) then Failed else Confirmed;
    NoteJournals(x.storesLast, Unknown, step, s, state);
    NoteJournals(true, Submitted, step, s, state);
    NoteJournals(true, known, step, s, state);
    JournaledEither(Note(true, Submitted, step, s), Note(x.storesLast, Unknown, step, s), state);
    JournaledEither(Note(true, Submitted, step, s), Note(true, known, step, s), state);
  }

  /** Which outcome a step journals, for every combination of what can go wrong. */
  lemma StepOutcome(step: nat, x: Surroundings, state: JournalState)
    ensures JournaledAs(StepLog(step, x), state) <==> match state
      case AwaitingApproval => x.readyFirst && x.blockhash && x.currentFirst && x.storesAwaiting
      case Broadcasting => SentFields(x)
      case Submitted => SentFields(x) && x.sent && x.sameSignature && x.storesSubmitted
      case Confirmed => KnownFields(x, false)
      case Cancelled => !SentFields(x) && x.storesLast && x.readsAsRejection
      case Failed => KnownFields(x, true) || (!SentFields(x) && x.storesLast && !x.readsAsRejection)
      case Unknown => SentFields(x) && x.storesLast && !KnownFields(x, false) && !KnownFields(x, true)
      case _ => false
  {
    var first := Note(Awaits(x), AwaitingApproval, step, None);
    NoteJournals(Awaits(x), AwaitingApproval, step, None, state);
    if Reaches(x) {
      var pair := [Journaled(Entry(Broadcasting, step, Some(x.wallet.signature))), Sent(step, x.wallet.signature)];
      assert pair[0].Journaled? && pair[0].e.state == Broadcasting;
      AfterSendOutcome(step, x, state);
      JournaledEither(pair, AfterSend(step, x), state);
      JournaledEither(first, pair + AfterSend(step, x), state);
    } else {
      var last := Note(x.storesLast, Unsent(x), step, SignatureOf(x));
      NoteJournals(x.storesLast, Unsent(x), step, SignatureOf(x), state);
      JournaledEither(first, last, state);
    }
  }

  lemma SentByFields(step: nat, x: Surroundings)
    ensures SentIn(StepLog(step, x), step) <==> SentFields(x)
  {
    StepShape(step, x);
    if Reaches(x) {
      assert StepLog(step, x)[2] == Sent(step, x.wallet.signature);
    }
  }

  lemma SentEither(a: seq<Action>, b: seq<Action>, base: nat, step: nat)
    requires From(b, base + 1) && forall k :: 0 <= k < |a| ==> StepOf(a[k]) == base
    ensures SentIn(a + b, step) <==> if step == base then SentIn(a, step) else SentIn(b, step)
  {
    AppendSends(a, b, base);
    if k :| 0 <= k < |a| && a[k].Sent? && a[k].step == step {
      assert (a + b)[k] == a[k] && StepOf(a[k]) == base;
    }
    if k :| 0 <= k < |b| && b[k].Sent? && b[k].step == step {
      assert (a + b)[|a| + k] == b[k];
    }
  }

  lemma {:induction false} SentNext(steps: seq<Surroundings>, base: nat, i: nat)
    requires base <= i < |steps|
    ensures SentIn(PlanLog(steps, base), i)
       <==> if i == base then SentFields(steps[base]) else KnownFields(steps[base], false) && SentIn(PlanLog(steps, base + 1), i)
  {
    var rest := [];
    if Advances(steps[base]) {
      PlanSendsOnce(steps, base + 1);
      rest := PlanLog(steps, base + 1);
    }
    OwnStep(base, steps[base]);
    PlanGoesOn(steps, base);
    SentEither(StepLog(base, steps[base]), rest, base, i);
    SentByFields(base, steps[base]);
    AdvancesByFields(steps[base]);
  }

  lemma AdvancesByFields(x: Surroundings)
    ensures Advances(x) <==> KnownFields(x, false)
  {
  }

  predicate AllKnown(steps: seq<Surroundings>, lo: nat, hi: nat)
    requires hi <= |steps|
  {
    forall j :: lo <= j < hi ==> KnownFields(steps[j], false)
  }

  lemma {:induction false} SentFrom(steps: seq<Surroundings>, base: nat, i: nat)
    requires base <= i < |steps|
    ensures SentIn(PlanLog(steps, base), i) <==> SentFields(steps[i]) && AllKnown(steps, base, i)
    decreases i - base
  {
    SentNext(steps, base, i);
    if base < i {
      SentFrom(steps, base + 1, i);
      assert AllKnown(steps, base, i) <==> KnownFields(steps[base], false) && AllKnown(steps, base + 1, i);
    }
  }

  /**
   A step of the plan is sent if and only if the wallet returned the reviewed message, well
   formed, with valid signatures and small enough, everything else before the send went
   well, and every earlier step is known to be finalized without error.
   */
  lemma {:induction false} SentExactlyAsReviewed(steps: seq<Surroundings>, i: nat)
    requires i < |steps|
    ensures SentIn(WholeLog(steps), i)
       <==> SentFields(steps[i]) && forall j :: 0 <= j < i ==> KnownFields(steps[j], false)
  {
    SentFrom(steps, 0, i);
  }

  /** And what is sent is that wallet's transaction, directly after its stored "broadcasting" entry. */
  lemma {:induction false} WhatIsSent(steps: seq<Surroundings>, k: nat)
    requires k < |WholeLog(steps)| && WholeLog(steps)[k].Sent?
    ensures var log, step := WholeLog(steps), WholeLog(steps)[k].step;
      && step < |steps| && steps[step].wallet.Signed? && log[k].signature == steps[step].wallet.signature
      && steps[step].wallet.wellFormed && steps[step].wallet.sameMessage
      && steps[step].wallet.validSignatures && steps[step].wallet.fits
      && 0 < k && log[k - 1] == Journaled(Entry(Broadcasting, step, Some(log[k].signature)))
  {
    PlanSendsOnce(steps, 0);
    assert SentIn(WholeLog(steps), WholeLog(steps)[k].step);
    SentExactlyAsReviewed(steps, WholeLog(steps)[k].step);
  }

  /** A step does anything at all only after every earlier step was finalized without error. */
  lemma {:induction false} NextStepAfterFinalized(steps: seq<Surroundings>, i: nat, k: nat, j: nat)
    requires i <= |steps| && k < |PlanLog(steps, i)| && i <= j < StepOf(PlanLog(steps, i)[k])
    ensures j < |steps| && Advances(steps[j]) && Verdict(steps[j]) == Some(false)
    decreases |steps| - i
  {
    StepShape(i, steps[i]);
    var here := |StepLog(i, steps[i])|;
    if here <= k && i < j {
      NextStepAfterFinalized(steps, i + 1, k - here, j);
    }
  }

  // ----- recovery

  function Entries(log: seq<Action>): seq<Entry> {
    if log == [] then []
    else Entries(log[..|log| - 1]) + (if log[|log| - 1].Journaled? then [log[|log| - 1].e] else [])
  }

  lemma {:induction false} EntriesConcat(a: seq<Action>, b: seq<Action>)
    ensures Entries(a + b) == Entries(a) + Entries(b)
    decreases |b|
  {
    if b == [] {
      assert a + b == a;
    } else {
      EntriesConcat(a, b[..|b| - 1]);
      assert (a + b)[..|a + b| - 1] == a + b[..|b| - 1];
    }
  }

  lemma {:induction false} EntriesShort(log: seq<Action>)
    ensures |Entries(log)| <= |log|
  {
    if log != [] {
      EntriesShort(log[..|log| - 1]);
    }
  }

  function RowAfter(row: Row, log: seq<Action>): Row {
    if log == [] then row
    else
      var before := RowAfter(row, log[..|log| - 1]);
      if log[|log| - 1].Journaled? then Updated(before, log[|log| - 1].e) else before
  }

  lemma {:induction false} ReplayedRow(rows: seq<Row>, id: string, log: seq<Action>)
    ensures Prior(Replay(rows, id, log), id).(id := id) == RowAfter(Prior(rows, id).(id := id), log)
  {
    if log != [] {
      var before := log[..|log| - 1];
      ReplayedRow(rows, id, before);
      if log[|log| - 1].Journaled? {
        RecordedIsFound(Replay(rows, id, before), id, log[|log| - 1].e);
      }
    }
  }

  lemma LastOfLast<T>(s: seq<T>, t: seq<T>, n: nat)
    ensures Last(Last(s, n) + t, n) == Last(s + t, n)
  {
    if n < |s| {
      var cut := |s| - n;
      assert Last(s, n) + t == (s + t)[cut..];
      if |t| == 0 {
        assert s + t == s;
      }
    }
  }

  lemma {:induction false} RowEvents(row: Row, log: seq<Action>)
    requires |row.events| <= MAX_EVENTS
    ensures RowAfter(row, log).events == Last(row.events + Entries(log), MAX_EVENTS)
    ensures RowAfter(row, log).state
         == if Entries(log) == [] then row.state else Entries(log)[|Entries(log)| - 1].state
  {
    if log == [] {
      assert row.events + [] == row.events;
    } else {
      var before := log[..|log| - 1];
      RowEvents(row, before);
      if log[|log| - 1].Journaled? {
        var e := log[|log| - 1].e;
        LastOfLast(row.events + Entries(before), [e], MAX_EVENTS);
        assert row.events + Entries(before) + [e] == row.events + Entries(log);
      } else {
        assert Entries(log) == Entries(before);
      }
    }
  }

  /** The journal rules out the advice that nothing was confirmed. */
  predicate Assuring(entries: seq<Entry>) {
    && entries != []
    && (entries[|entries| - 1].state in {Broadcasting, Submitted, Unknown, Confirmed}
        || exists p :: 0 <= p < |entries| <= p + MAX_EVENTS && entries[p].state == Confirmed)
  }

  lemma {:induction false} AssuringAdvice(row: Row, log: seq<Action>)
    requires |row.events| <= MAX_EVENTS && Assuring(Entries(log))
    ensures Recovery(RowAfter(row, log)) != NoConfirmedOutcome
  {
    var entries, events := Entries(log), RowAfter(row, log).events;
    RowEvents(row, log);
    if entries[|entries| - 1].state !in {Broadcasting, Submitted, Unknown, Confirmed} {
      var p :| 0 <= p < |entries| <= p + MAX_EVENTS && entries[p].state == Confirmed;
      assert events[|events| - (|entries| - p)] == (row.events + entries)[|row.events| + p] == entries[p];
    }
  }

  predicate KnownFailed(log: seq<Action>, step: nat) {
    exists k :: 0 <= k < |log| && log[k].Journaled? && log[k].e.step == step && log[k].e.state == Failed
  }

  /** Within a step, from its send on, the last event is assuring unless the step failed on chain. */
  lemma StepPrefix(step: nat, x: Surroundings, k: nat)
    requires k <= |StepLog(step, x)|
    ensures var log := StepLog(step, x)[..k];
      SentIn(log, step) && !KnownFailed(log, step) ==> Assuring(Entries(log))
    ensures k == |StepLog(step, x)| && Advances(x) ==>
      var entries := Entries(StepLog(step, x)); entries != [] && entries[|entries| - 1].state == Confirmed
  {
    StepShape(step, x);
    var log := StepLog(step, x)[..k];
    if SentIn(log, step) && !KnownFailed(log, step) {
      AfterSendShape(step, x);
      assert StepLog(step, x)[2].Sent? && 3 <= k;
      assert forall j :: 3 <= j < k ==> log[j] == AfterSend(step, x)[j - 3];
      var front := log[..k - 1];
      if k == 3 {
        assert Entries(log) == Entries(front);
        assert log[..2][..1] == log[..1];
        assert Entries(log[..2]) == Entries(log[..1]) + [log[1].e];
      } else {
        assert Entries(log) == Entries(front) + [log[k - 1].e];
        assert log[k - 1].e.state != Failed;
      }
    }
    if k == |StepLog(step, x)| && Advances(x) {
      AfterSendShape(step, x);
      var whole := StepLog(step, x);
      assert whole[4] == AfterSend(step, x)[1];
      assert Entries(whole) == Entries(whole[..4]) + [whole[4].e];
    }
  }

  predicate EndsConfirmed(entries: seq<Entry>) {
    entries != [] && entries[|entries| - 1].state == Confirmed
  }

  lemma StillAssuring(base: seq<Entry>, more: seq<Entry>)
    requires EndsConfirmed(base) && |more| < MAX_EVENTS
    ensures Assuring(base + more)
  {
    var all := base + more;
    assert all[|base| - 1].state == Confirmed;
  }

  lemma StepEndsConfirmed(step: nat, x: Surroundings, base: seq<Entry>)
    requires Advances(x)
    ensures EndsConfirmed(base + Entries(StepLog(step, x)))
  {
    StepPrefix(step, x, |StepLog(step, x)|);
  }

  lemma {:induction false} BeyondStep(steps: seq<Surroundings>, i: nat, k: nat)
    requires i < |steps| && |StepLog(i, steps[i])| < k <= |PlanLog(steps, i)|
    ensures var here := StepLog(i, steps[i]);
      && Advances(steps[i]) && k - |here| <= |PlanLog(steps, i + 1)|
      && PlanLog(steps, i)[..k] == here + PlanLog(steps, i + 1)[..k - |here|]
  {
    PlanGoesOn(steps, i);
  }

  lemma {:induction false} Regroup(base: seq<Entry>, pre: seq<Action>, here: seq<Action>, rest: seq<Action>)
    requires pre == here + rest
    ensures base + Entries(pre) == (base + Entries(here)) + Entries(rest)
  {
    EntriesConcat(here, rest);
  }

  lemma {:induction false} WithinStep(steps: seq<Surroundings>, i: nat, k: nat, base: seq<Entry>)
    requires i < |steps| && k <= |PlanLog(steps, i)| && k <= |StepLog(i, steps[i])| && EndsConfirmed(base)
    ensures Assuring(base + Entries(PlanLog(steps, i)[..k]))
  {
    StepShape(i, steps[i]);
    EntriesShort(PlanLog(steps, i)[..k]);
    StillAssuring(base, Entries(PlanLog(steps, i)[..k]));
  }

  lemma {:induction false} AfterConfirmed(steps: seq<Surroundings>, i: nat, k: nat, base: seq<Entry>)
    requires i <= |steps| && k <= |PlanLog(steps, i)| && EndsConfirmed(base)
    ensures Assuring(base + Entries(PlanLog(steps, i)[..k]))
    decreases |steps| - i
  {
    if i == |steps| {
      StillAssuring(base, []);
    } else if k <= |StepLog(i, steps[i])| {
      WithinStep(steps, i, k, base);
    } else {
      var here := StepLog(i, steps[i]);
      BeyondStep(steps, i, k);
      StepEndsConfirmed(i, steps[i], base);
      AfterConfirmed(steps, i + 1, k - |here|, base + Entries(here));
      Regroup(base, PlanLog(steps, i)[..k], here, PlanLog(steps, i + 1)[..k - |here|]);
    }
  }

  lemma SentByStep(i: nat, x: Surroundings, k: nat, step: nat)
    requires k <= |StepLog(i, x)| && SentIn(StepLog(i, x)[..k], step)
    ensures step == i
  {
    StepShape(i, x);
    var j :| 0 <= j < k && StepLog(i, x)[j].Sent? && StepLog(i, x)[j].step == step;
    assert StepOf(StepLog(i, x)[j]) == i;
  }

  lemma {:induction false} BeyondFirst(steps: seq<Surroundings>, k: nat)
    requires steps != [] && |StepLog(0, steps[0])| < k <= |PlanLog(steps, 0)|
    ensures Assuring(Entries(PlanLog(steps, 0)[..k]))
  {
    var here := StepLog(0, steps[0]);
    BeyondStep(steps, 0, k);
    StepEndsConfirmed(0, steps[0], []);
    AfterConfirmed(steps, 1, k - |here|, [] + Entries(here));
    Regroup([], PlanLog(steps, 0)[..k], here, PlanLog(steps, 1)[..k - |here|]);
    assert [] + Entries(PlanLog(steps, 0)[..k]) == Entries(PlanLog(steps, 0)[..k]);
  }

  lemma {:induction false} PlanPrefixAssures(steps: seq<Surroundings>, k: nat, step: nat)
    requires k <= |PlanLog(steps, 0)|
    requires var log := PlanLog(steps, 0)[..k]; SentIn(log, step) && !KnownFailed(log, step)
    ensures Assuring(Entries(PlanLog(steps, 0)[..k]))
  {
    var here := StepLog(0, steps[0]);
    if k <= |here| {
      assert PlanLog(steps, 0)[..k] == here[..k];
      SentByStep(0, steps[0], k, step);
      StepPrefix(0, steps[0], k);
    } else {
      BeyondFirst(steps, k);
    }
  }

  /**
   Whenever the page dies during a plan of any length, over any earlier journal, the advice
   shown afterwards never says that no outcome was confirmed while some step was sent that
   is not known to have failed on chain.
   */
  lemma {:induction false} RecoveryNeverMisleads(rows: seq<Row>, id: string, steps: seq<Surroundings>, k: nat, step: nat)
    requires forall i :: 0 <= i < |rows| ==> |rows[i].events| <= MAX_EVENTS
    requires k <= |WholeLog(steps)|
    requires var log := WholeLog(steps)[..k]; SentIn(log, step) && !KnownFailed(log, step)
    ensures Recovery(Prior(Replay(rows, id, WholeLog(steps)[..k]), id)) != NoConfirmedOutcome
  {
    var log := PlanLog(steps, 0)[..k];
    PlanPrefixAssures(steps, k, step);
    ReplayedRow(rows, id, log);
    PriorShort(rows, id);
    AssuringAdvice(Prior(rows, id).(id := id), log);
  }

  lemma {:induction false} PriorShort(rows: seq<Row>, id: string)
    requires forall i :: 0 <= i < |rows| ==> |rows[i].events| <= MAX_EVENTS
    ensures |Prior(rows, id).events| <= MAX_EVENTS
  {
    if rows != [] {
      PriorShort(rows[1..], id);
    }
  }
}
