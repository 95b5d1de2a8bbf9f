/**
 The admin withdrawal panel: one action at a time under `busy`, one transfer at a time under
 `pending`, the pending row mirrored in session storage before the transfer is sent. Every
 segment between two awaits is one event; the chain moves on between any two of them.
 */
module AdminWithdrawals {
  import opened Wrappers
  import opened Chain

  datatype Row = Row(signature: Signature, lastValid: nat)

  /** Extra blocks the pending-transfer check waits beyond the last valid height. */
  const SLACK: nat := 32

  /** What the running action awaits; `Idle` when none runs. */
  datatype Pc =
    | Idle
    // withdrawing
    | Preparing | CheckingNetwork(planned: Option<nat>) | InWallet(planned: Option<nat>)
    | CheckingBlockhash(signature: Signature, lastValid: nat) | Sending(signature: Signature) | Polling(signature: Signature)
    // checking the pending transfer
    | CheckNetwork(row: Row) | CheckStatus(row: Row)
    | CheckHeight(row: Row, known: bool, finalized: Option<bool>)
    | CheckTransaction(row: Row, known: bool, finalized: Option<bool>, height: nat)
    // recording a receipt
    | Recording(signature: Signature) | Refreshing

  datatype Panel = Panel(busy: bool, pending: Option<Row>, stored: Option<Row>, pc: Pc)

  const Opened := Panel(false, None, None, Idle)

  datatype Reply =
    | SubmitClicked | CheckClicked | ReceiptEntered(signature: Signature)
    | Reloaded                                  // the page is gone; session storage survives
    | Failed
    | PlanReply(matches: bool, confirmed: bool, lastValid: Option<nat>)
    | NetworkReply(devnet: bool, walletReady: bool)
    | WalletReply(signature: Signature, sameMessage: bool, expires: bool)
    | BlockhashReply(valid: bool, storageOk: bool)
    | SendReply(sameSignature: bool)
    | StatusReply(known: bool, finalized: Option<bool>, expired: bool)
    | HeightReply(height: nat)
    | TransactionReply(found: Option<bool>, mentions: bool, storageOk: bool)
    | ReceiptReply(verified: bool, exact: bool, storageOk: bool)
    | Refreshed

  /** The end of `run`, whatever happened. */
  function Release(p: Panel): Panel {
    p.(busy := false, pc := Idle)
  }

  function Cleared(p: Panel): Panel {
    p.(pending := None, stored := None)
  }

  /** One segment; `current` says whether the admin session is still the one the action began in. */
  function Segment(p: Panel, reply: Reply, current: bool): (Panel, Option<Row>) {
    if reply.Reloaded? then (Panel(false, p.stored, p.stored, Idle), None)
    else match p.pc
    case Idle =>
      if p.busy || !current then (p, None)
      else match reply {
        case SubmitClicked => if p.pending.Some? then (p, None) else (p.(busy := true, pc := Preparing), None)
        case CheckClicked =>
          if p.pending.None? then (p, None) else (p.(busy := true, pc := CheckNetwork(p.pending.value)), None)
        case ReceiptEntered(signature) => (p.(busy := true, pc := Recording(signature)), None)
        case _ => (p, None)
      }
    case Preparing =>
      if !reply.PlanReply? || !current || !reply.matches || !reply.confirmed then (Release(p), None)
      else (p.(pc := CheckingNetwork(reply.lastValid)), None)
    case CheckingNetwork(lastValid) =>
      if !reply.NetworkReply? || !reply.devnet || !current || !reply.walletReady then (Release(p), None)
      else (p.(pc := InWallet(lastValid)), None)
    case InWallet(lastValid) =>
      if !reply.WalletReply? || !current || !reply.sameMessage || lastValid.None? || reply.expires then (Release(p), None)
      else (p.(pc := CheckingBlockhash(reply.signature, lastValid.value)), None)
    case CheckingBlockhash(signature, lastValid) =>
      if !reply.BlockhashReply? || !reply.valid || !current || !reply.storageOk then (Release(p), None)
      else
        var row := Row(signature, lastValid);
        (p.(stored := Some(row), pending := Some(row), pc := Sending(signature)), Some(row))
    case Sending(signature) =>
      if !reply.SendReply? || !reply.sameSignature || !current then (Release(p), None)
      else (p.(pc := Polling(signature)), None)
    case Polling(signature) =>
      if !reply.StatusReply? || reply.finalized == Some(true) then (Release(p), None)
      else if reply.finalized == Some(false) then (p.(pc := Recording(signature)), None)
      else if reply.expired || !current then (Release(p), None)
      else (p, None)
    case CheckNetwork(row) =>
      if !reply.NetworkReply? || !reply.devnet then (Release(p), None)
      else (p.(pc := CheckStatus(row)), None)
    case CheckStatus(row) =>
      if !reply.StatusReply? then (Release(p), None)
      else if reply.finalized == Some(false) then (p.(pc := Recording(row.signature)), None)
      else (p.(pc := CheckHeight(row, reply.known, reply.finalized)), None)
    case CheckHeight(row, known, finalized) =>
      if !reply.HeightReply? then (Release(p), None)
      else (p.(pc := CheckTransaction(row, known, finalized, reply.height)), None)
    case CheckTransaction(row, known, finalized, height) =>
      if !reply.TransactionReply? || !current || !reply.storageOk then (Release(p), None)
      else if finalized == Some(true) && reply.found == Some(true) && reply.mentions then (Cleared(Release(p)), None)
      else if !known && reply.found.None? && row.lastValid + SLACK < height then (Cleared(Release(p)), None)
      else (Release(p), None)
    case Recording(signature) =>
      if !reply.ReceiptReply? || !current || !reply.verified || !reply.exact then (Release(p), None)
      else if p.pending.Some? && p.pending.value.signature == signature then
        if !reply.storageOk then (Release(p), None) else (Cleared(p).(pc := Refreshing), None)
      else (p.(pc := Refreshing), None)
    case Refreshing => (Release(p), None)
  }

  class WithdrawalPanel {
    var busy: bool
    var pending: Option<Row>
    var stored: Option<Row>
    var pc: Pc

    ghost function View(): Panel
      reads this
    {
      Panel(busy, pending, stored, pc)
    }

    constructor ()
      ensures View() == Opened
    {
      busy, pending, stored, pc := false, None, None, Idle;
    }

    method Reload()
      modifies this
      ensures forall current :: (View(), None) == Segment(old(View()), Reloaded, current)
    {
      pending := stored;
      busy, pc := false, Idle;
    }

    method Save(row: Row)
      modifies this`pending, this`stored
      ensures pending == stored == Some(row)
    {
      stored := Some(row);
      pending := Some(row);
    }

    method Clear()
      modifies this`pending, this`stored
      ensures pending == stored == None
    {
      stored := None;
      pending := None;
    }

    method Begin(first: Pc)
      requires !busy
      modifies this`busy, this`pc
      ensures busy && pc == first
    {
      busy, pc := true, first;
    }

    method Done()
      modifies this`busy, this`pc
      ensures !busy && pc == Idle
    {
      busy, pc := false, Idle;
    }

    /** The three event handlers. */
    method Click(reply: Reply, current: bool)
      requires pc == Idle && (reply.SubmitClicked? || reply.CheckClicked? || reply.ReceiptEntered?)
      modifies this
      ensures (View(), None) == Segment(old(View()), reply, current)
    {
      if busy || !current {
        return;
      }
      match reply {
        case SubmitClicked =>
          if pending.None? {
            Begin(Preparing);
          }
        case CheckClicked =>
          if pending.Some? {
            Begin(CheckNetwork(pending.value));
          }
        case ReceiptEntered(signature) =>
          Begin(Recording(signature));
      }
    }

    /** Withdrawing: review, sign, save the identity, send, poll. */
    method Withdraw(reply: Reply, current: bool) returns (sent: Option<Row>)
      requires pc.Preparing? || pc.CheckingNetwork? || pc.InWallet? || pc.CheckingBlockhash? || pc.Sending? || pc.Polling?
      requires !reply.Reloaded?
      modifies this
      ensures (View(), sent) == Segment(old(View()), reply, current)
    {
      sent := None;
      match pc {
        case Preparing =>
          if reply.PlanReply? && current && reply.matches && reply.confirmed {
            pc := CheckingNetwork(reply.lastValid);
          } else {
            Done();
          }
        case CheckingNetwork(lastValid) =>
          if reply.NetworkReply? && reply.devnet && current && reply.walletReady {
            pc := InWallet(lastValid);
          } else {
            Done();
          }
        case InWallet(lastValid) =>
          if reply.WalletReply? && current && reply.sameMessage && lastValid.Some? && !reply.expires {
            pc := CheckingBlockhash(reply.signature, lastValid.value);
          } else {
            Done();
          }
        case CheckingBlockhash(signature, lastValid) =>
          if reply.BlockhashReply? && reply.valid && current && reply.storageOk {
            Save(Row(signature, lastValid));
            sent := pending;
            pc := Sending(signature);
          } else {
            Done();
          }
        case Sending(signature) =>
          if reply.SendReply? && reply.sameSignature && current {
            pc := Polling(signature);
          } else {
            Done();
          }
        case Polling(signature) =>
          if !reply.StatusReply? || reply.finalized == Some(true) {
            Done();
          } else if reply.finalized == Some(false) {
            pc := Recording(signature);
          } else if reply.expired || !current {
            Done();
          }
      }
    }

    /** Checking the pending transfer. */
    method Check(reply: Reply, current: bool)
      requires pc.CheckNetwork? || pc.CheckStatus? || pc.CheckHeight? || pc.CheckTransaction?
      requires !reply.Reloaded?
      modifies this
      ensures (View(), None) == Segment(old(View()), reply, current)
    {
      match pc {
        case CheckNetwork(row) =>
          if reply.NetworkReply? && reply.devnet {
            pc := CheckStatus(row);
          } else {
            Done();
          }
        case CheckStatus(row) =>
          if !reply.StatusReply? {
            Done();
          } else if reply.finalized == Some(false) {
            pc := Recording(row.signature);
          } else {
            pc := CheckHeight(row, reply.known, reply.finalized);
          }
        case CheckHeight(row, known, finalized) =>
          if reply.HeightReply? {
            pc := CheckTransaction(row, known, finalized, reply.height);
          } else {
            Done();
          }
        case CheckTransaction(row, known, finalized, height) =>
          Done();
          if reply.TransactionReply? && current && reply.storageOk {
            if finalized == Some(true) && reply.found == Some(true) && reply.mentions {
              Clear();
            } else if !known && reply.found.None? && height > row.lastValid + SLACK {
              Clear();
            }
          }
      }
    }

    /** Recording a finalized receipt, and the refresh after it. */
    method Record(reply: Reply, current: bool)
      requires pc.Recording? || pc.Refreshing?
      requires !reply.Reloaded?
      modifies this
      ensures (View(), None) == Segment(old(View()), reply, current)
    {
      if pc.Refreshing? {
        Done();
        return;
      }
      var signature := pc.signature;
      if !reply.ReceiptReply? || !current || !reply.verified || !reply.exact {
        Done();
        return;
      }
      if pending.Some? && pending.value.signature == signature {
        if !reply.storageOk {
          Done();
          return;
        }
        Clear();
      }
      pc := Refreshing;
    }
  }

  // ----- panel and chain together

  datatype World = World(panel: Panel, ledger: Ledger)

  /** `expiry` is the chain's own last valid height for the transfer under review. */
  datatype Event = Replied(reply: Reply, current: bool, expiry: nat) | Block(content: map<Signature, bool>)

  /** Replies are truthful about the transfer they are about; see `Chain`. With complete history nothing landed is left out. */
  predicate Truthful(w: World, e: Event, complete: bool)
    requires e.Replied?
  {
    match w.panel.pc
    case CheckingBlockhash(signature, lastValid) =>
      lastValid == e.expiry && (signature in w.ledger.expiry ==> w.ledger.expiry[signature] == e.expiry)
    case Polling(signature) =>
      e.reply.StatusReply? ==> TruthfulStatus(w.ledger, signature, e.reply.known, e.reply.finalized, complete)
    case CheckStatus(row) =>
      e.reply.StatusReply? ==> TruthfulStatus(w.ledger, row.signature, e.reply.known, e.reply.finalized, complete)
    case CheckHeight(_, _, _) => e.reply.HeightReply? ==> TruthfulHeight(w.ledger, e.reply.height)
    case CheckTransaction(row, _, _, _) =>
      e.reply.TransactionReply? ==>
        && TruthfulTransaction(w.ledger, row.signature, e.reply.found)
        && (complete && e.reply.found.None? ==> row.signature !in w.ledger.landed)
    case Recording(signature) =>
      // The server calls a receipt finalized only when its transfer has landed.
      e.reply.ReceiptReply? && e.reply.verified && e.reply.exact ==> signature in w.ledger.landed
    case _ => true
  }

  function Step(w: World, e: Event, complete: bool): World {
    match e
    case Block(content) => w.(ledger := Finalize(w.ledger, content))
    case Replied(reply, current, expiry) =>
      if !Truthful(w, e, complete) then w
      else
        var (panel, sent) := Segment(w.panel, reply, current);
        World(panel, if sent.Some? then Submit(w.ledger, sent.value.signature, expiry) else w.ledger)
  }

  function Run(events: seq<Event>, complete: bool): World {
    if events == [] then World(Opened, Genesis)
    else Step(Run(events[..|events| - 1], complete), events[|events| - 1], complete)
  }

  /** The steps of a withdrawal before its transfer is saved. */
  predicate BeforeSaving(pc: Pc) {
    pc.Preparing? || pc.CheckingNetwork? || pc.InWallet? || pc.CheckingBlockhash?
  }

  function CheckedRow(pc: Pc): Option<Row> {
    match pc
    case CheckNetwork(row) => Some(row)
    case CheckStatus(row) => Some(row)
    case CheckHeight(row, _, _) => Some(row)
    case CheckTransaction(row, _, _, _) => Some(row)
    case _ => None
  }

  /** Only the pending transfer can be live, and no new one is under review while one is pending. */
  ghost predicate Guarded(w: World) {
    && w.panel.pending == w.panel.stored
    && (w.panel.busy <==> w.panel.pc != Idle)
    && (forall s :: Live(w.ledger, s) ==> w.panel.pending.Some? && w.panel.pending.value.signature == s)
    && (w.panel.pending.Some? ==>
          && w.panel.pending.value.signature in w.ledger.expiry
          && w.panel.pending.value.lastValid == w.ledger.expiry[w.panel.pending.value.signature])
    && (BeforeSaving(w.panel.pc) ==> w.panel.pending.None?)
    && (CheckedRow(w.panel.pc).Some? ==> w.panel.pending == CheckedRow(w.panel.pc))
    && (w.panel.pc.CheckTransaction? ==> w.panel.pc.height <= w.ledger.height)
    && (forall s :: s in w.ledger.landed ==> s in w.ledger.expiry)
  }

  lemma SegmentGuarded(w: World, e: Event, complete: bool)
    requires Guarded(w) && e.Replied? && Truthful(w, e, complete) && Segment(w.panel, e.reply, e.current).1.None?
    ensures Guarded(Step(w, e, complete))
  {
  }

  lemma StepGuarded(w: World, e: Event, complete: bool)
    requires Guarded(w)
    ensures Guarded(Step(w, e, complete)) && Later(w.ledger, Step(w, e, complete).ledger)
  {
    match e {
      case Block(content) => FinalizeIsLater(w.ledger, content);
      case Replied(reply, current, expiry) =>
        var sent := Segment(w.panel, reply, current).1;
        if Truthful(w, e, complete) {
          if sent.Some? {
            SubmitIsLater(w.ledger, sent.value.signature, expiry);
          } else {
            SegmentGuarded(w, e, complete);
          }
        }
    }
  }

  lemma {:induction false} RunGuarded(events: seq<Event>, complete: bool)
    ensures Guarded(Run(events, complete))
  {
    if events != [] {
      RunGuarded(events[..|events| - 1], complete);
      StepGuarded(Run(events[..|events| - 1], complete), events[|events| - 1], complete);
    }
  }

  lemma {:induction false} RunLater(events: seq<Event>, i: nat, complete: bool)
    requires i <= |events|
    ensures Later(Run(events[..i], complete).ledger, Run(events, complete).ledger)
    decreases |events|
  {
    if i == |events| {
      assert events[..i] == events;
    } else {
      var past := events[..|events| - 1];
      RunLater(past, i, complete);
      assert past[..i] == events[..i];
      RunGuarded(past, complete);
      StepGuarded(Run(past, complete), events[|events| - 1], complete);
      LaterTransitive(Run(events[..i], complete).ledger, Run(past, complete).ledger, Run(events, complete).ledger);
    }
  }

  /**
   In every run, with reloads, session changes and reads that fail, lag or omit: at most one
   submitted transfer can still land, and from opening a review until the new transfer is
   saved, none can.
   */
  lemma {:induction false} AtMostOneLive(events: seq<Event>, complete: bool)
    ensures var w := Run(events, complete);
      && (forall s, t :: Live(w.ledger, s) && Live(w.ledger, t) ==> s == t)
      && (BeforeSaving(w.panel.pc) ==> forall s :: !Live(w.ledger, s))
  {
    RunGuarded(events, complete);
  }

  /**
   The pending transfer is dropped only when it has landed or can never land: unlanded
   when dropped at event `i`, it does not land later.
   */
  lemma {:induction false} DroppedNeverLands(events: seq<Event>, i: nat, complete: bool)
    requires i < |events|
    requires var w, w' := Run(events[..i], complete), Run(events[..i + 1], complete);
      w.panel.pending.Some? && w'.panel.pending.None?
    ensures var s := Run(events[..i], complete).panel.pending.value.signature;
      s in Run(events[..i + 1], complete).ledger.landed || s !in Run(events, complete).ledger.landed
  {
    var w, w' := Run(events[..i], complete), Run(events[..i + 1], complete);
    assert events[..i + 1][..i] == events[..i];
    RunGuarded(events[..i], complete);
    RunGuarded(events[..i + 1], complete);
    StepGuarded(w, events[i], complete);
    RunLater(events, i + 1, complete);
    var s := w.panel.pending.value.signature;
    assert s in w'.ledger.expiry && !Live(w'.ledger, s);
    if s !in w'.ledger.landed {
      ExpiredNeverLands(w'.ledger, Run(events, complete).ledger, s);
    }
  }

  /**
   With complete history the "expired without landing" drop is true: the transfer never lands
   at all. The transaction is read after the height, so a status read before it does not matter.
   */
  lemma {:induction false} ExpiredDropIsTrue(events: seq<Event>, i: nat)
    requires i < |events| && events[i].Replied? && events[i].reply.TransactionReply? && events[i].reply.found.None?
    requires var w, w' := Run(events[..i], true), Run(events[..i + 1], true);
      w.panel.pc.CheckTransaction? && w.panel.pending.Some? && w'.panel.pending.None?
    ensures Run(events[..i], true).panel.pending.value.signature !in Run(events, true).ledger.landed
  {
    var w := Run(events[..i], true);
    assert events[..i + 1][..i] == events[..i];
    RunGuarded(events[..i], true);
    assert Truthful(w, events[i], true);
    DroppedNeverLands(events, i, true);
  }

  // ----- what is sent, and what a drop means

  /**
   What it means, in any run, that the pending transfer is dropped at event `i`, always in the
   session that is still current and with storage cleared: its exact receipt was verified, or
   its transaction has failed on chain, or it was not found more than 32 blocks past its last
   valid height. Until then the pending transfer stays the one it is, reloads included.
   */
  lemma {:induction false} DropMeaning(events: seq<Event>, i: nat, complete: bool)
    requires i < |events| && Run(events[..i], complete).panel.pending.Some?
    ensures var w, w' := Run(events[..i], complete), Run(events[..i + 1], complete);
      var signature, e := w.panel.pending.value.signature, events[i];
      if w'.panel.pending.Some? then w'.panel.pending == w.panel.pending
      else
        && w'.panel.stored.None? && e.Replied? && e.current && w'.ledger == w.ledger
        && signature in w.ledger.expiry && w.ledger.expiry[signature] == w.panel.pending.value.lastValid
        && match e.reply
           case ReceiptReply(verified, exact, storageOk) =>
             verified && exact && storageOk && w.panel.pc == Recording(signature) && signature in w.ledger.landed
           case TransactionReply(found, mentions, storageOk) =>
             && storageOk
             && (if found.Some? then found.value && mentions && signature in w.ledger.landed && w.ledger.landed[signature]
                 else w.ledger.expiry[signature] + 32 < w.ledger.height)
           case _ => false
  {
    assert events[..i + 1][..i] == events[..i];
    RunGuarded(events[..i], complete);
  }

  predicate HeardAt(events: seq<Event>, k: nat, reply: Reply) {
    k < |events| && events[k].Replied? && events[k].current && events[k].reply == reply
  }

  /** The plan, the network and the signature, in this order, each in the current session. */
  predicate Reviewed(events: seq<Event>, j: nat, k: nat, n: nat, signature: Signature, lastValid: nat) {
    && j < k < n && HeardAt(events, j, PlanReply(true, true, Some(lastValid)))
    && HeardAt(events, k, NetworkReply(true, true)) && HeardAt(events, n, WalletReply(signature, true, false))
  }

  predicate Networked(events: seq<Event>, j: nat, k: nat, lastValid: Option<nat>) {
    j < k && HeardAt(events, j, PlanReply(true, true, lastValid)) && HeardAt(events, k, NetworkReply(true, true))
  }

  ghost predicate Reviewing(events: seq<Event>, pc: Pc) {
    match pc
    case CheckingNetwork(lastValid) => exists j: nat :: HeardAt(events, j, PlanReply(true, true, lastValid))
    case InWallet(lastValid) => exists j: nat, k: nat :: Networked(events, j, k, lastValid)
    case CheckingBlockhash(signature, lastValid) =>
      exists j: nat, k: nat, n: nat :: Reviewed(events, j, k, n, signature, lastValid)
    case _ => true
  }

  lemma {:induction false} ReviewingGrows(past: seq<Event>, e: Event, pc: Pc)
    requires Reviewing(past, pc)
    ensures Reviewing(past + [e], pc)
  {
    match pc {
      case CheckingNetwork(lastValid) =>
        var j: nat :| HeardAt(past, j, PlanReply(true, true, lastValid));
        assert HeardAt(past + [e], j, PlanReply(true, true, lastValid));
      case InWallet(lastValid) =>
        var j: nat, k: nat :| Networked(past, j, k, lastValid);
        assert Networked(past + [e], j, k, lastValid);
      case CheckingBlockhash(signature, lastValid) =>
        var j: nat, k: nat, n: nat :| Reviewed(past, j, k, n, signature, lastValid);
        assert Reviewed(past + [e], j, k, n, signature, lastValid);
      case _ =>
    }
  }

  /** One more reply of the review. */
  lemma {:induction false} ReviewGoesOn(past: seq<Event>, e: Event, p: Panel, pc: Pc)
    requires Reviewing(past, p.pc) && e.Replied? && Segment(p, e.reply, e.current).0.pc == pc && pc != p.pc
    ensures Reviewing(past + [e], pc)
  {
    var n := |past|;
    match pc {
      case CheckingNetwork(lastValid) =>
        assert HeardAt(past + [e], n, PlanReply(true, true, lastValid));
      case InWallet(lastValid) =>
        var j: nat :| HeardAt(past, j, PlanReply(true, true, lastValid));
        assert Networked(past + [e], j, n, lastValid);
      case CheckingBlockhash(signature, lastValid) =>
        var j: nat, k: nat :| Networked(past, j, k, Some(lastValid));
        assert Reviewed(past + [e], j, k, n, signature, lastValid);
      case _ =>
    }
  }

  lemma {:induction false} RunReviewing(events: seq<Event>, complete: bool)
    ensures Reviewing(events, Run(events, complete).panel.pc)
  {
    if events != [] {
      var past, e := events[..|events| - 1], events[|events| - 1];
      assert events == past + [e];
      RunReviewing(past, complete);
      var p, p' := Run(past, complete).panel, Run(events, complete).panel;
      ReviewingGrows(past, e, p.pc);
      if p'.pc != p.pc {
        ReviewGoesOn(past, e, p, p'.pc);
      }
    }
  }

  /**
   In every run a transfer reaches the network only as its own saved row, while nothing was
   pending, on a still valid block hash, after the plan matched and was confirmed, the network
   and wallet were checked and the wallet signed that very message: each in the current session.
   */
  lemma {:induction false} SentOnlyReviewed(events: seq<Event>, i: nat, complete: bool) returns (j: nat, k: nat, n: nat)
    requires i < |events|
    requires Run(events[..i + 1], complete).ledger.expiry != Run(events[..i], complete).ledger.expiry
    ensures var w, w' := Run(events[..i], complete), Run(events[..i + 1], complete);
      && events[i].Replied? && events[i].current && events[i].reply == BlockhashReply(true, true)
      && w.panel.pending.None? && w'.panel.pending.Some? && w'.panel.stored == w'.panel.pending
      && var row := w'.panel.pending.value;
         && w'.ledger == w.ledger.(expiry := w.ledger.expiry[row.signature := row.lastValid])
         && j < k < n < i
         && (events[j].Replied? && events[j].current && events[j].reply == PlanReply(true, true, Some(row.lastValid)))
         && (events[k].Replied? && events[k].current && events[k].reply == NetworkReply(true, true))
         && (events[n].Replied? && events[n].current && events[n].reply == WalletReply(row.signature, true, false))
  {
    var past := events[..i];
    assert events[..i + 1][..i] == past;
    RunGuarded(past, complete);
    RunReviewing(past, complete);
    var pc := Run(past, complete).panel.pc;
    assert pc.CheckingBlockhash?;
    j, k, n :| Reviewed(past, j, k, n, pc.signature, pc.lastValid);
  }

  // ----- a pending transfer whose outcome is known is settled

  function Replies(w: World, replies: seq<Reply>, expiry: nat, complete: bool): World {
    if replies == [] then w
    else Step(Replies(w, replies[..|replies| - 1], expiry, complete), Replied(replies[|replies| - 1], true, expiry), complete)
  }

  lemma {:induction false} RepliesAppend(w: World, replies: seq<Reply>, reply: Reply, expiry: nat, complete: bool)
    ensures Replies(w, replies + [reply], expiry, complete) == Step(Replies(w, replies, expiry, complete), Replied(reply, true, expiry), complete)
  {
    assert (replies + [reply])[..|replies|] == replies;
  }

  /** Asking after the pending transfer gets as far as its status. */
  lemma {:induction false} AsksStatus(w: World, ready: bool, complete: bool)
    requires Guarded(w) && w.panel.pc == Idle && w.panel.pending.Some?
    ensures Replies(w, [CheckClicked] + [NetworkReply(true, ready)], 0, complete)
      == w.(panel := w.panel.(busy := true, pc := CheckStatus(w.panel.pending.value)))
  {
    assert [] + [CheckClicked] == [CheckClicked];
    RepliesAppend(w, [], CheckClicked, 0, complete);
    RepliesAppend(w, [CheckClicked], NetworkReply(true, ready), 0, complete);
    CheckStarts(w, complete);
    NetworkPasses(Replies(w, [CheckClicked], 0, complete), w.panel.pending.value, ready, complete);
  }

  lemma CheckStarts(w: World, complete: bool)
    requires !w.panel.busy && w.panel.pc == Idle && w.panel.pending.Some?
    ensures Step(w, Replied(CheckClicked, true, 0), complete)
      == w.(panel := w.panel.(busy := true, pc := CheckNetwork(w.panel.pending.value)))
  {
  }

  lemma NetworkPasses(w: World, row: Row, ready: bool, complete: bool)
    requires w.panel.pc == CheckNetwork(row)
    ensures Step(w, Replied(NetworkReply(true, ready), true, 0), complete) == w.(panel := w.panel.(pc := CheckStatus(row)))
  {
  }

  /**
   With replies that come through, asking after the pending transfer settles it: one that
   landed well goes to its receipt and is dropped with it, one that failed is dropped, and
   one that is not on chain is dropped from 33 blocks past its last valid height.
   */
  lemma {:induction false} PendingIsSettled(w: World, ready: bool, expired: bool, complete: bool)
    requires Guarded(w) && w.panel.pc == Idle && w.panel.pending.Some?
    ensures var row, l := w.panel.pending.value, w.ledger;
      var asked := [CheckClicked] + [NetworkReply(true, ready)];
      && (row.signature in l.landed && !l.landed[row.signature] ==>
            Replies(w, asked + [StatusReply(true, Some(false), expired)] + [ReceiptReply(true, true, true)] + [Refreshed], 0, complete)
              == World(Panel(false, None, None, Idle), l))
      && (row.signature in l.landed && l.landed[row.signature] ==>
            Replies(w, asked + [StatusReply(true, Some(true), expired)] + [HeightReply(l.height)]
                       + [TransactionReply(Some(true), true, true)], 0, complete)
              == World(Panel(false, None, None, Idle), l))
      && (row.signature !in l.landed && row.lastValid + 33 <= l.height ==>
            Replies(w, asked + [StatusReply(false, None, expired)] + [HeightReply(l.height)]
                       + [TransactionReply(None, true, true)], 0, complete)
              == World(Panel(false, None, None, Idle), l))
  {
    var asked := [CheckClicked] + [NetworkReply(true, ready)];
    var row := w.panel.pending.value;
    AsksStatus(w, ready, complete);
    if row.signature in w.ledger.landed && !w.ledger.landed[row.signature] {
      RecordsReceipt(w, asked, row, expired, complete);
    } else if row.signature in w.ledger.landed {
      ReadsTransaction(w, asked, row, StatusReply(true, Some(true), expired), TransactionReply(Some(true), true, true), complete);
    } else if row.lastValid + 33 <= w.ledger.height {
      ReadsTransaction(w, asked, row, StatusReply(false, None, expired), TransactionReply(None, true, true), complete);
    }
  }

  lemma {:induction false} RecordsReceipt(w: World, asked: seq<Reply>, row: Row, expired: bool, complete: bool)
    requires w.panel.pending == Some(row) && row.signature in w.ledger.landed && !w.ledger.landed[row.signature]
    requires Replies(w, asked, 0, complete) == w.(panel := w.panel.(busy := true, pc := CheckStatus(row)))
    ensures Replies(w, asked + [StatusReply(true, Some(false), expired)] + [ReceiptReply(true, true, true)] + [Refreshed], 0, complete)
      == World(Panel(false, None, None, Idle), w.ledger)
  {
    var a := asked + [StatusReply(true, Some(false), expired)];
    RepliesAppend(w, asked, StatusReply(true, Some(false), expired), 0, complete);
    RepliesAppend(w, a, ReceiptReply(true, true, true), 0, complete);
    RepliesAppend(w, a + [ReceiptReply(true, true, true)], Refreshed, 0, complete);
  }

  lemma {:induction false} ReadsTransaction(w: World, asked: seq<Reply>, row: Row, status: Reply, last: Reply, complete: bool)
    requires status.StatusReply? && last.TransactionReply? && last.mentions && last.storageOk
    requires Replies(w, asked, 0, complete) == w.(panel := w.panel.(busy := true, pc := CheckStatus(row)))
    requires TruthfulStatus(w.ledger, row.signature, status.known, status.finalized, complete)
    requires TruthfulTransaction(w.ledger, row.signature, last.found)
    requires last.found.None? ==> row.signature !in w.ledger.landed
    requires (status.finalized == Some(true) && last.found == Some(true))
          || (status.finalized.None? && !status.known && last.found.None? && row.lastValid + 33 <= w.ledger.height)
    ensures Replies(w, asked + [status] + [HeightReply(w.ledger.height)] + [last], 0, complete)
      == World(Panel(false, None, None, Idle), w.ledger)
  {
    ReadsHeight(w, asked, row, status, complete);
    RepliesAppend(w, asked + [status] + [HeightReply(w.ledger.height)], last, 0, complete);
  }

  lemma {:induction false} ReadsHeight(w: World, asked: seq<Reply>, row: Row, status: Reply, complete: bool)
    requires status.StatusReply? && status.finalized != Some(false)
    requires Replies(w, asked, 0, complete) == w.(panel := w.panel.(busy := true, pc := CheckStatus(row)))
    requires TruthfulStatus(w.ledger, row.signature, status.known, status.finalized, complete)
    ensures Replies(w, asked + [status] + [HeightReply(w.ledger.height)], 0, complete)
      == w.(panel := w.panel.(busy := true, pc := CheckTransaction(row, status.known, status.finalized, w.ledger.height)))
  {
    RepliesAppend(w, asked, status, 0, complete);
    RepliesAppend(w, asked + [status], HeightReply(w.ledger.height), 0, complete);
  }

  /** What the transfer's own row goes out after: the click, the plan, the network, the signature, the block hash. */
  function GoodReplies(signature: Signature, lastValid: nat): seq<Reply> {
    [SubmitClicked, PlanReply(true, true, Some(lastValid)), NetworkReply(true, true),
     WalletReply(signature, true, false), BlockhashReply(true, true)]
  }

  /**
   And nothing more is asked for: with nothing pending and these replies a fresh transfer is
   saved and sent, and it is the one that may land.
   */
  lemma {:induction false} WithdrawalGoesOut(w: World, signature: Signature, lastValid: nat, complete: bool)
    requires Guarded(w) && w.panel.pc == Idle && w.panel.pending.None? && signature !in w.ledger.expiry
    ensures var row, w' := Row(signature, lastValid), Replies(w, GoodReplies(signature, lastValid), lastValid, complete);
      && w'.panel == Panel(true, Some(row), Some(row), Sending(signature))
      && w'.ledger == w.ledger.(expiry := w.ledger.expiry[signature := lastValid])
  {
    var r := GoodReplies(signature, lastValid);
    assert [] + [r[0]] == [r[0]];
    RepliesAppend(w, [], r[0], lastValid, complete);
    RepliesAppend(w, [r[0]], r[1], lastValid, complete);
    RepliesAppend(w, [r[0]] + [r[1]], r[2], lastValid, complete);
    RepliesAppend(w, [r[0]] + [r[1]] + [r[2]], r[3], lastValid, complete);
    RepliesAppend(w, [r[0]] + [r[1]] + [r[2]] + [r[3]], r[4], lastValid, complete);
    assert r == [r[0]] + [r[1]] + [r[2]] + [r[3]] + [r[4]];
  }

  /**
   Polling what was sent: success on chain goes to the receipt of that very transfer; failure,
   the end of its time or of the session ends the action; otherwise it polls again. None of
   these drops the transfer.
   */
  lemma {:induction false} HowPollingEnds(events: seq<Event>, e: Event, complete: bool)
    requires Run(events, complete).panel.pc.Polling? && e.Replied? && e.reply.StatusReply?
    requires Truthful(Run(events, complete), e, complete)
    ensures var w, w' := Run(events, complete), Run(events + [e], complete);
      && w'.panel.pending == w.panel.pending && w'.panel.stored == w.panel.stored && w'.ledger == w.ledger
      && (if e.reply.finalized == Some(false) then w'.panel.pc == Recording(w.panel.pc.signature) && w'.panel.busy
          else if e.reply.finalized == Some(true) || e.reply.expired || !e.current then w'.panel.pc == Idle && !w'.panel.busy
          else w'.panel.pc == w.panel.pc)
  {
    RunGuarded(events, complete);
    assert (events + [e])[..|events|] == events;
  }

  /** After sending, only the same signature back in the current session is polled; the row stays pending either way. */
  lemma {:induction false} HowSendingEnds(events: seq<Event>, e: Event, complete: bool)
    requires Run(events, complete).panel.pc.Sending? && e.Replied? && !e.reply.Reloaded?
    ensures var w, w' := Run(events, complete), Run(events + [e], complete);
      && w'.panel.pending == w.panel.pending && w'.panel.stored == w.panel.stored && w'.ledger == w.ledger
      && (if e.reply == SendReply(true) && e.current
          then w'.panel.pc == Polling(w.panel.pc.signature) && w'.panel.busy == w.panel.busy
          else w'.panel.pc == Idle && !w'.panel.busy)
  {
    assert (events + [e])[..|events|] == events;
  }
}
