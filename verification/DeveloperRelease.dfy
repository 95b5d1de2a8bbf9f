/**
 Releasing escrowed developer tokens: the receipt is stored before the signed transaction is
 sent, and a stored receipt is reconciled before anything new is signed. Each segment
 between two awaits is one event; the chain moves on between any two of them.
 */
module DeveloperRelease {
  import opened Wrappers
  import opened Chain

  /** `lastValid` is absent when the stored value is not a safe integer. */
  datatype Receipt = Receipt(signature: Signature, lastValid: Option<nat>)

  datatype Verdict = Pending | FailedOnChain | Expired | Released | Threw

  /** What the running call awaits. */
  datatype Pc =
    | Idle
    | AwaitGenesis
    | AwaitTransaction(r: Receipt) | AwaitHeight(r: Receipt) | AwaitStatus(r: Receipt) | AwaitAccount(r: Receipt)
    | AwaitBlockhash | AwaitWallet(lastValid: Option<nat>)
    | AwaitSend(r: Receipt) | AwaitConfirm(r: Receipt)

  datatype Client = Client(stored: Option<Receipt>, pc: Pc, verdict: Option<Verdict>)

  const Fresh := Client(None, Idle, None)

  datatype Reply =
    | Called
    | Reloaded      // the page is gone; only storage survives
    | Failed
    | GenesisReply(devnet: bool, walletReady: bool)
    | TransactionReply(found: Option<bool>, identityMatches: bool, releases: bool)
    | HeightReply(height: nat)
    | StatusReply(known: bool)
    | AccountReply(matches: bool)
    | BlockhashReply(lastValid: Option<nat>)
    | WalletReply(signature: Signature, sameMessage: bool, current: bool, storageOk: bool)
    | SendReply(sameSignature: bool)
    | ConfirmReply

  /** A call ends with a verdict; any verdict but pending or an exception drops the receipt. */
  function End(c: Client, v: Verdict): Client {
    Client(if v.Pending? || v.Threw? then c.stored else None, Idle, Some(v))
  }

  /** The receipt to hand to the network, if this segment sends one, with the client after it. */
  function Segment(c: Client, reply: Reply): (Client, Option<Receipt>) {
    if reply.Reloaded? then (c.(pc := Idle, verdict := None), None) else
    match c.pc
    case Idle => if reply.Called? then (c.(pc := AwaitGenesis, verdict := None), None) else (c, None)
    case AwaitGenesis =>
      if !reply.GenesisReply? || !reply.devnet then (End(c, Threw), None)
      else if c.stored.Some? then (c.(pc := AwaitTransaction(c.stored.value)), None)
      else if !reply.walletReady then (End(c, Threw), None)
      else (c.(pc := AwaitBlockhash), None)
    case AwaitTransaction(r) =>
      if !reply.TransactionReply? then (End(c, Threw), None)
      else if reply.found.None? then
        if r.lastValid.Some? then (c.(pc := AwaitHeight(r)), None) else (End(c, Pending), None)
      else if !reply.identityMatches then (End(c, Threw), None)
      else if reply.found.value then (End(c, FailedOnChain), None)
      else if !reply.releases then (End(c, Threw), None)
      else (c.(pc := AwaitAccount(r)), None)
    case AwaitHeight(r) =>
      if !reply.HeightReply? then (End(c, Threw), None)
      else if r.lastValid.Some? && r.lastValid.value < reply.height then (c.(pc := AwaitStatus(r)), None)
      else (End(c, Pending), None)
    case AwaitStatus(r) =>
      if !reply.StatusReply? then (End(c, Threw), None)
      else if !reply.known then (End(c, Expired), None)
      else (End(c, Pending), None)
    case AwaitAccount(r) =>
      if !reply.AccountReply? || !reply.matches then (End(c, Threw), None)
      else (End(c, Released), None)
    case AwaitBlockhash =>
      if !reply.BlockhashReply? then (End(c, Threw), None)
      else (c.(pc := AwaitWallet(reply.lastValid)), None)
    case AwaitWallet(lastValid) =>
      if !reply.WalletReply? || !reply.current || !reply.sameMessage || !reply.storageOk then (End(c, Threw), None)
      else
        var r := Receipt(reply.signature, lastValid);
        (c.(stored := Some(r), pc := AwaitSend(r)), Some(r))
    case AwaitSend(r) =>
      if reply.SendReply? && reply.sameSignature then (c.(pc := AwaitConfirm(r)), None)
      else (c.(pc := AwaitTransaction(r)), None)
    case AwaitConfirm(r) => (c.(pc := AwaitTransaction(r)), None)
  }

  class ReleaseClient {
    var stored: Option<Receipt>
    var pc: Pc
    var verdict: Option<Verdict>

    ghost function View(): Client
      reads this
    {
      Client(stored, pc, verdict)
    }

    constructor ()
      ensures View() == Fresh
    {
      stored, pc, verdict := None, Idle, None;
    }

    method Reload()
      modifies this
      ensures (View(), None) == Segment(old(View()), Reloaded)
    {
      pc, verdict := Idle, None;
    }

    method Finish(v: Verdict)
      modifies this
      ensures View() == End(old(View()), v)
    {
      if v != Pending && v != Threw {
        stored := None;
      }
      pc, verdict := Idle, Some(v);
    }

    /** Starting a release: a stored receipt comes first. */
    method Release()
      requires pc == Idle
      modifies this
      ensures (View(), None) == Segment(old(View()), Called)
    {
      pc, verdict := AwaitGenesis, None;
    }

    /** The reconciliation of a receipt, one read after the other. */
    method Verify(reply: Reply)
      requires pc.AwaitTransaction? || pc.AwaitHeight? || pc.AwaitStatus? || pc.AwaitAccount?
      requires !reply.Reloaded?
      modifies this
      ensures (View(), None) == Segment(old(View()), reply)
    {
      match pc {
        case AwaitTransaction(r) =>
          if !reply.TransactionReply? {
            Finish(Threw);
          } else if reply.found.None? {
            if r.lastValid.Some? {
              pc := AwaitHeight(r);
            } else {
              Finish(Pending);
            }
          } else if !reply.identityMatches {
            Finish(Threw);
          } else if reply.found.value {
            Finish(FailedOnChain);
          } else if !reply.releases {
            Finish(Threw);
          } else {
            pc := AwaitAccount(r);
          }
        case AwaitHeight(r) =>
          if !reply.HeightReply? {
            Finish(Threw);
          } else if r.lastValid.Some? && reply.height > r.lastValid.value {
            pc := AwaitStatus(r);
          } else {
            Finish(Pending);
          }
        case AwaitStatus(r) =>
          if !reply.StatusReply? {
            Finish(Threw);
          } else {
            Finish(if reply.known then Pending else Expired);
          }
        case AwaitAccount(r) =>
          if !reply.AccountReply? || !reply.matches {
            Finish(Threw);
          } else {
            Finish(Released);
          }
      }
    }

    /** Everything else: checks, signing, and sending what was stored first. */
    method Proceed(reply: Reply) returns (sent: Option<Receipt>)
      requires pc.AwaitGenesis? || pc.AwaitBlockhash? || pc.AwaitWallet? || pc.AwaitSend? || pc.AwaitConfirm?
      requires !reply.Reloaded?
      modifies this
      ensures (View(), sent) == Segment(old(View()), reply)
    {
      sent := None;
      match pc {
        case AwaitGenesis =>
          if !reply.GenesisReply? || !reply.devnet {
            Finish(Threw);
          } else if stored.Some? {
            pc := AwaitTransaction(stored.value);
          } else if !reply.walletReady {
            Finish(Threw);
          } else {
            pc := AwaitBlockhash;
          }
        case AwaitBlockhash =>
          if reply.BlockhashReply? {
            pc := AwaitWallet(reply.lastValid);
          } else {
            Finish(Threw);
          }
        case AwaitWallet(lastValid) =>
          if !reply.WalletReply? || !reply.current || !reply.sameMessage || !reply.storageOk {
            Finish(Threw);
          } else {
            var r := Receipt(reply.signature, lastValid);
            stored := Some(r);
            sent := Some(r);
            pc := AwaitSend(r);
          }
        case AwaitSend(r) =>
          if reply.SendReply? && reply.sameSignature {
            pc := AwaitConfirm(r);
          } else {
            pc := AwaitTransaction(r);
          }
        case AwaitConfirm(r) =>
          pc := AwaitTransaction(r);
      }
    }
  }

  // ----- client and chain together

  datatype World = World(client: Client, ledger: Ledger)

  /** `expiry` is the chain's own last valid height for what the wallet signs in this event. */
  datatype Event = Replied(reply: Reply, expiry: nat) | Block(content: map<Signature, bool>)

  /** Replies are truthful about the receipt they are about; see `Chain`. */
  predicate Truthful(w: World, e: Event, complete: bool)
    requires e.Replied?
  {
    match w.client.pc
    case AwaitTransaction(r) =>
      e.reply.TransactionReply? ==> TruthfulTransaction(w.ledger, r.signature, e.reply.found)
    case AwaitHeight(r) => e.reply.HeightReply? ==> TruthfulHeight(w.ledger, e.reply.height)
    case AwaitStatus(r) => e.reply.StatusReply? ==> TruthfulStatus(w.ledger, r.signature, e.reply.known, None, complete)
    case AwaitWallet(lastValid) =>
      && (lastValid.Some? ==> lastValid.value == e.expiry)
      && (e.reply.WalletReply? && e.reply.signature in w.ledger.expiry ==> w.ledger.expiry[e.reply.signature] == e.expiry)
    case _ => true
  }

  function Step(w: World, e: Event, complete: bool): World {
    match e
    case Block(content) => w.(ledger := Finalize(w.ledger, content))
    case Replied(reply, expiry) =>
      if !Truthful(w, e, complete) then w
      else
        var (client, sent) := Segment(w.client, reply);
        World(client, if sent.Some? then Submit(w.ledger, sent.value.signature, expiry) else w.ledger)
  }

  function Run(events: seq<Event>, complete: bool): World {
    if events == [] then World(Fresh, Genesis)
    else Step(Run(events[..|events| - 1], complete), events[|events| - 1], complete)
  }

  /** A receipt the client holds is of a submitted transaction, with the chain's own expiry. */
  predicate Known(l: Ledger, r: Receipt) {
    r.signature in l.expiry && (r.lastValid.Some? ==> r.lastValid.value == l.expiry[r.signature])
  }

  function HeldBy(pc: Pc): Option<Receipt> {
    match pc
    case AwaitTransaction(r) => Some(r)
    case AwaitHeight(r) => Some(r)
    case AwaitStatus(r) => Some(r)
    case AwaitAccount(r) => Some(r)
    case AwaitSend(r) => Some(r)
    case AwaitConfirm(r) => Some(r)
    case _ => None
  }

  /** Only the stored receipt's transaction can be live; a running reconciliation is about that receipt. */
  ghost predicate Guarded(w: World) {
    && (forall s :: Live(w.ledger, s) ==> w.client.stored.Some? && w.client.stored.value.signature == s)
    && (w.client.stored.Some? ==> Known(w.ledger, w.client.stored.value))
    && (HeldBy(w.client.pc).Some? ==> w.client.stored == HeldBy(w.client.pc))
    && (w.client.pc.AwaitBlockhash? || w.client.pc.AwaitWallet? ==> w.client.stored.None?)
    && (w.client.pc.AwaitStatus? ==> w.ledger.expiry[w.client.pc.r.signature] <= w.ledger.height)
    && (w.client.pc.AwaitAccount?
        ==> w.client.pc.r.signature in w.ledger.landed && !w.ledger.landed[w.client.pc.r.signature])
    && (w.client.pc.Idle? || w.client.verdict.None?)
    && (forall s :: s in w.ledger.landed ==> s in w.ledger.expiry)
  }

  lemma StepGuarded(w: World, e: Event, complete: bool)
    requires Guarded(w)
    ensures Guarded(Step(w, e, complete)) && Later(w.ledger, Step(w, e, complete).ledger)
  {
    match e {
      case Block(content) => FinalizeIsLater(w.ledger, content);
      case Replied(reply, expiry) =>
        var (client, sent) := Segment(w.client, reply);
        if sent.Some? {
          SubmitIsLater(w.ledger, sent.value.signature, expiry);
        }
    }
  }

  lemma {:induction false} RunGuarded(events: seq<Event>, complete: bool)
    ensures Guarded(Run(events, complete))
  {
    if events != [] {
      RunGuarded(events[..|events| - 1], complete);
      StepGuarded(Run(events[..|events| - 1], complete), events[|events| - 1], complete);
    }
  }

  lemma {:induction false} RunLater(events: seq<Event>, i: nat, complete: bool)
    requires i <= |events|
    ensures Later(Run(events[..i], complete).ledger, Run(events, complete).ledger)
    decreases |events|
  {
    if i == |events| {
      assert events[..i] == events;
    } else {
      var past := events[..|events| - 1];
      RunLater(past, i, complete);
      assert past[..i] == events[..i];
      RunGuarded(past, complete);
      StepGuarded(Run(past, complete), events[|events| - 1], complete);
      LaterTransitive(Run(events[..i], complete).ledger, Run(past, complete).ledger, Run(events, complete).ledger);
    }
  }

  /**
   In every run, with reads that fail, lag or omit: at most one submitted release can still
   land, and while the wallet is asked to sign a new one, none can.
   */
  lemma {:induction false} AtMostOneLive(events: seq<Event>, complete: bool)
    ensures var w := Run(events, complete);
      && (forall s, t :: Live(w.ledger, s) && Live(w.ledger, t) ==> s == t)
      && (w.client.pc.AwaitWallet? ==> forall s :: !Live(w.ledger, s))
  {
    RunGuarded(events, complete);
  }

  /**
   A receipt is given up only when its transaction has landed or can never land: whatever
   happens later, an unlanded transaction given up at event `i` does not land.
   */
  lemma {:induction false} GivenUpNeverLands(events: seq<Event>, i: nat, complete: bool)
    requires i < |events|
    requires var w, w' := Run(events[..i], complete), Run(events[..i + 1], complete);
      w.client.stored.Some? && w'.client.stored.None?
    ensures var s := Run(events[..i], complete).client.stored.value.signature;
      s in Run(events[..i + 1], complete).ledger.landed || s !in Run(events, complete).ledger.landed
  {
    var w, w' := Run(events[..i], complete), Run(events[..i + 1], complete);
    assert events[..i + 1][..i] == events[..i];
    RunGuarded(events[..i], complete);
    RunGuarded(events[..i + 1], complete);
    StepGuarded(w, events[i], complete);
    RunLater(events, i + 1, complete);
    var s := w.client.stored.value.signature;
    assert s in w'.ledger.expiry && !Live(w'.ledger, s);
    if s !in w'.ledger.landed {
      ExpiredNeverLands(w'.ledger, Run(events, complete).ledger, s);
    }
  }

  /** With complete signature history the expired verdict is true: the transaction never lands at all. */
  lemma {:induction false} ExpiredVerdictIsTrue(events: seq<Event>, i: nat)
    requires i < |events|
    requires Run(events[..i], true).client.pc.AwaitStatus?
    requires Run(events[..i + 1], true).client.verdict == Some(Expired)
    ensures Run(events[..i], true).client.pc.r.signature !in Run(events, true).ledger.landed
  {
    var w := Run(events[..i], true);
    assert events[..i + 1][..i] == events[..i];
    RunGuarded(events[..i], true);
    assert w.client.verdict.None?;
    RunLater(events, i, true);
    ExpiredNeverLands(w.ledger, Run(events, true).ledger, w.client.pc.r.signature);
  }

  /**
   What the answer of a call means for the chain, at whatever event of whatever run it is
   given: released and failed on chain are the finalized outcome of the stored receipt's
   transaction, expired says that its last valid height is past, and each of the three drops
   the receipt; pending and an exception keep what is stored.
   */
  lemma {:induction false} VerdictMeaning(events: seq<Event>, i: nat, complete: bool)
    requires i < |events|
    requires var w, w' := Run(events[..i], complete), Run(events[..i + 1], complete);
      !w.client.pc.Idle? && w'.client.verdict.Some?
    ensures var w, w' := Run(events[..i], complete), Run(events[..i + 1], complete);
      var stored, ledger := w.client.stored, w.ledger;
      && events[i].Replied? && w'.client.pc.Idle? && w'.ledger == ledger
      && match w'.client.verdict.value
         case Released =>
           && stored.Some? && stored.value.signature in ledger.landed && !ledger.landed[stored.value.signature]
           && events[i].reply == AccountReply(true) && w'.client.stored.None?
         case FailedOnChain =>
           && stored.Some? && stored.value.signature in ledger.landed && ledger.landed[stored.value.signature]
           && events[i].reply.TransactionReply? && events[i].reply.identityMatches && w'.client.stored.None?
         case Expired =>
           && stored.Some? && stored.value.signature in ledger.expiry
           && ledger.expiry[stored.value.signature] <= ledger.height
           && events[i].reply == StatusReply(false) && w'.client.stored.None?
         case Pending => w'.client.stored == stored && stored.Some?
         case Threw => w'.client.stored == stored
  {
    assert events[..i + 1][..i] == events[..i];
    RunGuarded(events[..i], complete);
  }

  /** The worlds after some replies, given one after the other. */
  function Replies(w: World, replies: seq<Reply>, complete: bool): World {
    if replies == [] then w
    else Step(Replies(w, replies[..|replies| - 1], complete), Replied(replies[|replies| - 1], 0), complete)
  }

  lemma {:induction false} RepliesAppend(w: World, replies: seq<Reply>, reply: Reply, complete: bool)
    ensures Replies(w, replies + [reply], complete) == Step(Replies(w, replies, complete), Replied(reply, 0), complete)
  {
    assert (replies + [reply])[..|replies|] == replies;
  }

  /** A call with something stored first asks for the stored transaction. */
  lemma {:induction false} StoredComesFirst(w: World, r: Receipt, ready: bool, complete: bool)
    requires w.client.pc.Idle? && w.client.stored == Some(r)
    ensures Replies(w, [Called] + [GenesisReply(true, ready)], complete)
      == World(Client(Some(r), AwaitTransaction(r), None), w.ledger)
  {
    assert [] + [Called] == [Called];
    RepliesAppend(w, [], Called, complete);
    RepliesAppend(w, [Called], GenesisReply(true, ready), complete);
  }

  /**
   A stored receipt whose outcome the reads show is settled by the next call, without the
   wallet: a landed release is answered with released, a failed one with failed on chain, and
   an unlanded one past its last valid height with expired.
   */
  lemma {:induction false} ReconciliationDecides(w: World, r: Receipt, matches: bool, ready: bool, complete: bool)
    requires w.client.pc.Idle? && w.client.stored == Some(r)
    ensures r.signature in w.ledger.landed && !w.ledger.landed[r.signature] ==>
      Replies(w, [Called] + [GenesisReply(true, ready)] + [TransactionReply(Some(false), true, true)] + [AccountReply(true)], complete)
        == World(Client(None, Idle, Some(Released)), w.ledger)
    ensures r.signature in w.ledger.landed && w.ledger.landed[r.signature] ==>
      Replies(w, [Called] + [GenesisReply(true, ready)] + [TransactionReply(Some(true), true, matches)], complete)
        == World(Client(None, Idle, Some(FailedOnChain)), w.ledger)
    ensures r.signature !in w.ledger.landed && r.lastValid.Some? && r.lastValid.value < w.ledger.height ==>
      Replies(w, [Called] + [GenesisReply(true, ready)] + [TransactionReply(None, true, matches)]
                 + [HeightReply(w.ledger.height)] + [StatusReply(false)], complete)
        == World(Client(None, Idle, Some(Expired)), w.ledger)
  {
    var b := [Called] + [GenesisReply(true, ready)];
    StoredComesFirst(w, r, ready, complete);
    if r.signature in w.ledger.landed {
      if w.ledger.landed[r.signature] {
        RepliesAppend(w, b, TransactionReply(Some(true), true, matches), complete);
      } else {
        RepliesAppend(w, b, TransactionReply(Some(false), true, true), complete);
        RepliesAppend(w, b + [TransactionReply(Some(false), true, true)], AccountReply(true), complete);
      }
    } else if r.lastValid.Some? && r.lastValid.value < w.ledger.height {
      var c := b + [TransactionReply(None, true, matches)];
      RepliesAppend(w, b, TransactionReply(None, true, matches), complete);
      RepliesAppend(w, c, HeightReply(w.ledger.height), complete);
      RepliesAppend(w, c + [HeightReply(w.ledger.height)], StatusReply(false), complete);
    }
  }

  predicate Heard(events: seq<Event>, k: nat, reply: Reply) {
    k < |events| && events[k].Replied? && events[k].reply == reply
  }

  /** The network and wallet were checked at `j` and the block hash read at `k`. */
  predicate Prepared(events: seq<Event>, j: nat, k: nat, lastValid: Option<nat>) {
    j < k && Heard(events, j, GenesisReply(true, true)) && Heard(events, k, BlockhashReply(lastValid))
  }

  ghost predicate Preparing(events: seq<Event>, pc: Pc) {
    && (pc.AwaitBlockhash? ==> exists j: nat :: Heard(events, j, GenesisReply(true, true)))
    && (pc.AwaitWallet? ==> exists j: nat, k: nat :: Prepared(events, j, k, pc.lastValid))
  }

  lemma PreparingGrows(past: seq<Event>, e: Event, pc: Pc)
    requires Preparing(past, pc)
    ensures Preparing(past + [e], pc)
  {
    if pc.AwaitBlockhash? {
      var j: nat :| Heard(past, j, GenesisReply(true, true));
      assert Heard(past + [e], j, GenesisReply(true, true));
    }
    if pc.AwaitWallet? {
      var j: nat, k: nat :| Prepared(past, j, k, pc.lastValid);
      assert Prepared(past + [e], j, k, pc.lastValid);
    }
  }

  lemma {:induction false} RunPrepared(events: seq<Event>, complete: bool)
    ensures Preparing(events, Run(events, complete).client.pc)
  {
    if events != [] {
      var past, e := events[..|events| - 1], events[|events| - 1];
      assert events == past + [e];
      RunPrepared(past, complete);
      var pc, pc' := Run(past, complete).client.pc, Run(events, complete).client.pc;
      PreparingGrows(past, e, pc);
      if pc' != pc && pc'.AwaitBlockhash? {
        assert Heard(events, |past|, GenesisReply(true, true));
      }
      if pc' != pc && pc'.AwaitWallet? {
        assert Heard(events, |past|, BlockhashReply(pc'.lastValid));
        var j: nat :| Heard(past, j, GenesisReply(true, true));
        assert Prepared(events, j, |past|, pc'.lastValid);
      }
    }
  }

  /**
   In every run a release reaches the network only from a wallet reply with the reviewed
   message, in the current session and with its receipt stored, while nothing else was stored,
   after the network was checked with the creator's wallet connected and a block hash was read.
   */
  lemma {:induction false} SentOnlyReviewed(events: seq<Event>, i: nat, complete: bool) returns (j: nat, k: nat)
    requires i < |events|
    requires Run(events[..i + 1], complete).ledger.expiry != Run(events[..i], complete).ledger.expiry
    ensures var w, w' := Run(events[..i], complete), Run(events[..i + 1], complete);
      && events[i].Replied? && events[i].reply.WalletReply?
      && events[i].reply.sameMessage && events[i].reply.current && events[i].reply.storageOk
      && w'.ledger == w.ledger.(expiry := w.ledger.expiry[events[i].reply.signature := events[i].expiry])
      && w.client.stored.None? && w'.client.stored.Some?
      && w'.client.stored.value.signature == events[i].reply.signature
      && j < k < i && events[j].Replied? && events[j].reply == GenesisReply(true, true)
      && events[k].Replied? && events[k].reply == BlockhashReply(w'.client.stored.value.lastValid)
  {
    var past := events[..i];
    assert events[..i + 1][..i] == past;
    RunGuarded(past, complete);
    RunPrepared(past, complete);
    assert Run(past, complete).client.pc.AwaitWallet?;
    j, k :| Prepared(past, j, k, Run(past, complete).client.pc.lastValid);
  }

  lemma {:induction false} RunAppend(events: seq<Event>, e: Event, complete: bool)
    ensures Run(events + [e], complete) == Step(Run(events, complete), e, complete)
  {
    assert (events + [e])[..|events|] == events;
  }

  function Told(reply: Reply): Event { Replied(reply, 1) }

  /** A release is signed and sent with last valid height 1. */
  function Sent(s: Signature): seq<Event> {
    [Told(Called)] + [Told(GenesisReply(true, true))] + [Told(BlockhashReply(Some(1)))]
    + [Told(WalletReply(s, true, true, true))]
  }

  /** It lands, the answer to sending it is lost, and then the reads leave it out. */
  function LandedUnseen(s: Signature): seq<Event> {
    Sent(s) + [Block(map[s := false])] + [Block(map[])] + [Told(Failed)]
    + [Told(TransactionReply(None, false, false))] + [Told(HeightReply(2))] + [Told(StatusReply(false))]
  }

  lemma {:induction false} SentState(s: Signature, complete: bool)
    ensures Run(Sent(s), complete)
      == World(Client(Some(Receipt(s, Some(1))), AwaitSend(Receipt(s, Some(1))), None), Ledger(0, map[s := 1], map[]))
  {
    var a, b := [Told(Called)], Told(GenesisReply(true, true));
    assert [] + a == a;
    RunAppend([], Told(Called), complete);
    RunAppend(a, b, complete);
    RunAppend(a + [b], Told(BlockhashReply(Some(1))), complete);
    RunAppend(a + [b] + [Told(BlockhashReply(Some(1)))], Told(WalletReply(s, true, true, true)), complete);
  }

  /** With incomplete history the verdict can be wrong: a release that has landed is called expired. */
  lemma ExpiredVerdictCanBeWrong(s: Signature)
    ensures var w := Run(LandedUnseen(s), false);
      w.client.verdict == Some(Expired) && w.client.stored.None? && s in w.ledger.landed && !w.ledger.landed[s]
  {
    SentState(s, false);
    var a := Sent(s);
    var b := a + [Block(map[s := false])];
    var c := b + [Block(map[])];
    var d := c + [Told(Failed)];
    var f := d + [Told(TransactionReply(None, false, false))];
    RunAppend(a, Block(map[s := false]), false);
    assert Run(b, false).ledger == Ledger(1, map[s := 1], map[s := false]);
    RunAppend(b, Block(map[]), false);
    assert Run(c, false).ledger == Ledger(2, map[s := 1], map[s := false]);
    RunAppend(c, Told(Failed), false);
    RunAppend(d, Told(TransactionReply(None, false, false)), false);
    RunAppend(f, Told(HeightReply(2)), false);
    RunAppend(f + [Told(HeightReply(2))], Told(StatusReply(false)), false);
  }
}
