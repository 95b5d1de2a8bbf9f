/**
 The chain as a wallet client meets it: a finalized height that only grows, transactions
 that land at most once and only up to their last valid height, and reads that may fail,
 lag or leave things out but never invent anything finalized.
 */
module Chain {
  import opened Wrappers

  type Signature = string

  /** `expiry` and `landed` are about submitted signatures; `landed` says whether it failed on chain. */
  datatype Ledger = Ledger(height: nat, expiry: map<Signature, nat>, landed: map<Signature, bool>)

  const Genesis := Ledger(0, map[], map[])

  /** May this submitted transaction still land in a later block? */
  predicate Live(l: Ledger, s: Signature) {
    s in l.expiry && s !in l.landed && l.height < l.expiry[s]
  }

  /** The next finalized block may contain any live transactions, failed or not. */
  predicate CanFinalize(l: Ledger, block: map<Signature, bool>) {
    forall s :: s in block ==> Live(l, s)
  }

  function Finalize(l: Ledger, block: map<Signature, bool>): Ledger {
    if CanFinalize(l, block) then Ledger(l.height + 1, l.expiry, l.landed + block) else l
  }

  function Submit(l: Ledger, s: Signature, lastValid: nat): Ledger {
    if s in l.expiry then l else l.(expiry := l.expiry[s := lastValid])
  }

  // ----- truthful reads

  /** A finalized transaction read: absent may be an omission; found is what landed. */
  predicate TruthfulTransaction(l: Ledger, s: Signature, found: Option<bool>) {
    found.Some? ==> s in l.landed && l.landed[s] == found.value
  }

  /** A finalized height read may lag. */
  predicate TruthfulHeight(l: Ledger, height: nat) {
    height <= l.height
  }

  /** A finalized status is what landed; with complete history, no status means not landed. */
  predicate TruthfulStatus(l: Ledger, s: Signature, known: bool, finalized: Option<bool>, complete: bool) {
    && TruthfulTransaction(l, s, finalized)
    && (finalized.Some? ==> known)
    && (complete && !known ==> s !in l.landed)
  }

  // ----- how ledgers evolve

  /** `m` is a later state of `l`. */
  predicate Later(l: Ledger, m: Ledger) {
    && l.height <= m.height
    && (forall s :: s in l.expiry ==> s in m.expiry && m.expiry[s] == l.expiry[s])
    && (forall s :: s in l.landed ==> s in m.landed && m.landed[s] == l.landed[s])
    && (forall s :: s in m.landed && s in l.expiry && s !in l.landed ==> l.height < l.expiry[s])
  }

  lemma FinalizeIsLater(l: Ledger, block: map<Signature, bool>)
    ensures Later(l, Finalize(l, block))
    ensures forall s :: Live(Finalize(l, block), s) ==> Live(l, s)
  {
  }

  lemma SubmitIsLater(l: Ledger, s: Signature, lastValid: nat)
    ensures Later(l, Submit(l, s, lastValid))
    ensures forall t :: Live(Submit(l, s, lastValid), t) ==> t == s || Live(l, t)
  {
  }

  lemma LaterTransitive(l: Ledger, m: Ledger, n: Ledger)
    requires Later(l, m) && Later(m, n)
    ensures Later(l, n)
  {
  }

  /** Past its last valid height a transaction that has not landed never does. */
  lemma ExpiredNeverLands(l: Ledger, m: Ledger, s: Signature)
    requires Later(l, m) && s in l.expiry && l.expiry[s] <= l.height && s !in l.landed
    ensures s !in m.landed && !Live(m, s)
  {
  }
}
