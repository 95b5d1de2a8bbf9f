/**
 Turning a collected creator fee into obligations, once per claim signature. Lamports are
 integers; percentages are whole numbers of millionths of a percent, a grid on which
 every published rate lies.
 */
module DistributionPolicy {
  import opened Wrappers
  import opened Arith
  import opened LargestRemainder

  const MAX_SAFE_INTEGER: nat := 0x1f_ffff_ffff_ffff
  /** One percent in millionths of a percent. */
  const PERCENT: nat := 1_000_000

  datatype Error = BadGross | BadShares | BadSplit | UnsafeGross | NotExactlyOnce | NoSignature

  /** Creator-directed percentages of the gross, in millionths of a percent. */
  datatype Shares = Shares(creatorWallet: nat, holderAirdrop: nat, solClaim: nat, xRecipientValid: bool)

  /** Weights within the 20% pool, in ten-thousandths of a percent. */
  datatype Split = Split(operations: nat, referral: seq<nat>, community: nat, buyback: nat, agency: Option<nat>)

  predicate ValidShares(s: Shares) {
    var total := s.creatorWallet + s.holderAirdrop + s.solClaim;
    && s.creatorWallet <= 80 * PERCENT && s.holderAirdrop <= 80 * PERCENT && s.solClaim <= 80 * PERCENT
    && 80 * PERCENT < total + 1000 && total < 80 * PERCENT + 1000
    && (s.solClaim == 0 || s.xRecipientValid)
  }

  predicate ValidSplit(s: Split) {
    && |s.referral| == 3
    && s.operations + s.referral[0] + s.referral[1] + s.referral[2] + s.community + s.buyback
       + (if s.agency.Some? then s.agency.value else 0) == 100 * 10_000
  }

  /** A weight of the 20% pool as a share of the gross. */
  function Effective(rate: nat): nat {
    20 * rate
  }

  function Rates(shares: Shares, split: Split): (rates: seq<nat>)
    requires ValidSplit(split)
    ensures |rates| == if split.agency.Some? then 10 else 9
  {
    [shares.creatorWallet, shares.holderAirdrop, shares.solClaim,
     Effective(split.operations), Effective(split.community), Effective(split.buyback),
     Effective(split.referral[0]), Effective(split.referral[1]), Effective(split.referral[2])]
    + (if split.agency.Some? then [Effective(split.agency.value)] else [])
  }

  datatype Level = Level(recipient: Option<string>, amount: nat)

  datatype Claim = Claim(
    gross: nat, creatorWallet: nat, holderAirdrop: nat, solClaim: nat, operations: nat,
    levels: seq<Level>, referralPayout: nat, communityBase: nat, missingReferral: nat,
    community: nat, buyback: nat, agency: nat)

  /** Everything the claim obliges anyone to be paid. */
  function Obligations(c: Claim): nat {
    c.creatorWallet + c.holderAirdrop + c.solClaim
    + c.operations + c.referralPayout + c.community + c.buyback + c.agency
  }

  function RecipientAt(recipients: seq<Option<string>>, i: nat): Option<string> {
    if i < |recipients| && recipients[i] != Some("") then recipients[i] else None
  }

  function Levels(amounts: seq<nat>, recipients: seq<Option<string>>): (levels: seq<Level>)
    requires 9 <= |amounts|
    ensures |levels| == 3
  {
    seq(3, i requires 0 <= i < 3 => Level(RecipientAt(recipients, i), amounts[6 + i]))
  }

  /** The total of the levels that do, or do not, have a recipient. */
  function LevelTotal(levels: seq<Level>, present: bool): nat {
    if levels == [] then 0
    else (if levels[0].recipient.Some? == present then levels[0].amount else 0)
         + LevelTotal(levels[1..], present)
  }

  /** The claim made of apportioned amounts. */
  function Assemble(gross: nat, amounts: seq<nat>, recipients: seq<Option<string>>): Claim
    requires 9 <= |amounts| <= 10
  {
    var levels := Levels(amounts, recipients);
    var missing := LevelTotal(levels, false);
    Claim(gross, amounts[0], amounts[1], amounts[2], amounts[3],
          levels, LevelTotal(levels, true), amounts[4], missing, amounts[4] + missing,
          amounts[5], if |amounts| == 10 then amounts[9] else 0)
  }

  lemma RatesApportionable(shares: Shares, split: Split)
    requires ValidSplit(split)
    ensures Apportionable(Rates(shares, split))
    ensures Sum(Rates(shares, split))
         == shares.creatorWallet + shares.holderAirdrop + shares.solClaim + 20 * PERCENT
  {
    var r := Rates(shares, split);
    if split.agency.Some? {
      SumOf10(r);
    } else {
      SumOf9(r);
    }
  }

  lemma {:induction false} SumOf3(s: seq<int>)
    requires |s| == 3
    ensures Sum(s) == s[0] + s[1] + s[2]
  {
    SumTake(s, 0);
    SumTake(s, 1);
    SumTake(s, 2);
    assert s[..3] == s;
  }

  lemma {:induction false} SumOf9(s: seq<int>)
    requires |s| == 9
    ensures Sum(s) == s[0] + s[1] + s[2] + s[3] + s[4] + s[5] + s[6] + s[7] + s[8]
  {
    SumSplit(s, 3);
    SumSplit(s[3..], 3);
    SumOf3(s[..3]);
    SumOf3(s[3..][..3]);
    SumOf3(s[3..][3..]);
  }

  lemma {:induction false} SumOf10(s: seq<int>)
    requires |s| == 10
    ensures Sum(s) == s[0] + s[1] + s[2] + s[3] + s[4] + s[5] + s[6] + s[7] + s[8] + s[9]
  {
    SumOf9(s[..9]);
    SumTake(s, 9);
    assert s[..10] == s;
  }

  datatype Request = Request(
    signature: string, gross: int, shares: Shares, split: Split, recipients: seq<Option<string>>)

  /** What a claim request comes to, before the final guard. */
  function Calculate(r: Request): (c: Result<Claim, Error>)
  {
    if r.gross < 0 then Err(BadGross)
    else if !ValidShares(r.shares) then Err(BadShares)
    else if !ValidSplit(r.split) then Err(BadSplit)
    else if MAX_SAFE_INTEGER < r.gross then Err(UnsafeGross)
    else
      RatesApportionable(r.shares, r.split);
      LeftoverReachesOnlyRemainders(r.gross, Rates(r.shares, r.split));
      Ok(Assemble(r.gross, Allocation(r.gross, Rates(r.shares, r.split)), r.recipients))
  }

  lemma {:induction false} LevelsSplit(levels: seq<Level>)
    requires |levels| == 3
    ensures LevelTotal(levels, true) + LevelTotal(levels, false)
         == levels[0].amount + levels[1].amount + levels[2].amount
  {
    var tail := levels[1..];
    var last := tail[1..];
    assert last[1..] == [];
    assert LevelTotal(last, true) + LevelTotal(last, false) == levels[2].amount;
    assert LevelTotal(tail, true) + LevelTotal(tail, false) == levels[1].amount + levels[2].amount;
  }

  /** Every claimed lamport is obliged exactly once, whoever the referral recipients are. */
  lemma EveryLamportOnce(r: Request)
    requires Calculate(r).Ok?
    ensures Obligations(Calculate(r).value) == r.gross == Calculate(r).value.gross
  {
    var rates := Rates(r.shares, r.split);
    RatesApportionable(r.shares, r.split);
    AllocationIsFair(r.gross, rates);
    var amounts := Allocation(r.gross, rates);
    LevelsSplit(Levels(amounts, r.recipients));
    if |amounts| == 10 {
      SumOf10(amounts);
    } else {
      SumOf9(amounts);
    }
  }

  /**
   A referral level without recipient moves into the community reserve and nowhere else:
   changing the recipients changes only who the levels name, the referral payout and,
   lamport for lamport, the community total.
   */
  lemma MissingReferralsMoveOnlyToCommunity(r: Request, recipients: seq<Option<string>>)
    requires Calculate(r).Ok?
    ensures Calculate(r.(recipients := recipients)).Ok?
    ensures var c, d := Calculate(r).value, Calculate(r.(recipients := recipients)).value;
      && d == c.(levels := d.levels, referralPayout := d.referralPayout,
                 missingReferral := d.missingReferral, community := d.community)
      && c.community + c.referralPayout == d.community + d.referralPayout
      && c.community == c.communityBase + c.missingReferral
      && |c.levels| == |d.levels| == 3
      && (forall i :: 0 <= i < 3 ==> c.levels[i].amount == d.levels[i].amount)
  {
    var rates := Rates(r.shares, r.split);
    RatesApportionable(r.shares, r.split);
    LeftoverReachesOnlyRemainders(r.gross, rates);
    var amounts := Allocation(r.gross, rates);
    LevelsSplit(Levels(amounts, r.recipients));
    LevelsSplit(Levels(amounts, recipients));
  }

  // ----- the claim in the request's own numbers

  /** Exactly which requests are accepted, and which error the others get. */
  lemma AcceptedRequests(r: Request)
    ensures var s, p := r.shares, r.split;
      var sharesOk := && s.creatorWallet <= 80_000_000 && s.holderAirdrop <= 80_000_000 && s.solClaim <= 80_000_000
        && 79_999_000 < s.creatorWallet + s.holderAirdrop + s.solClaim < 80_001_000 && (s.solClaim == 0 || s.xRecipientValid);
      var splitOk := && |p.referral| == 3
        && p.operations + p.referral[0] + p.referral[1] + p.referral[2] + p.community + p.buyback
           + (if p.agency.Some? then p.agency.value else 0) == 1_000_000;
      if r.gross < 0 then Calculate(r) == Err(BadGross)
      else if !sharesOk then Calculate(r) == Err(BadShares)
      else if !splitOk then Calculate(r) == Err(BadSplit)
      else if 9_007_199_254_740_991 < r.gross then Calculate(r) == Err(UnsafeGross)
      else Calculate(r).Ok?
  {
  }

  /** The amount is the floor of `gross * rate / total`, or its ceiling. */
  predicate FairShare(amount: int, gross: int, rate: int, total: int)
    requires 0 < total
  {
    amount == gross * rate / total || (amount == gross * rate / total + 1 && gross * rate % total != 0)
  }

  lemma {:induction false} FairAt(r: Request, i: nat)
    requires Calculate(r).Ok? && i < |Rates(r.shares, r.split)|
    ensures Apportionable(Rates(r.shares, r.split))
    ensures 0 <= Leftover(r.gross, Rates(r.shares, r.split)) <= |Rates(r.shares, r.split)|
    ensures FairShare(Allocation(r.gross, Rates(r.shares, r.split))[i], r.gross, Rates(r.shares, r.split)[i],
      r.shares.creatorWallet + r.shares.holderAirdrop + r.shares.solClaim + 20_000_000)
  {
    RatesApportionable(r.shares, r.split);
    LeftoverReachesOnlyRemainders(r.gross, Rates(r.shares, r.split));
    AllocationShape(r.gross, Rates(r.shares, r.split), i);
  }

  /**
   Every destination of an accepted claim gets the floor or the ceiling of the gross times
   its own percentage, over the total of all percentages. Weights of the 20% pool count
   twenty times, being in ten-thousandths of a fifth.
   */
  lemma {:induction false} EachDestinationItsShare(r: Request)
    requires Calculate(r).Ok?
    ensures var c, s, p := Calculate(r).value, r.shares, r.split;
      var total := s.creatorWallet + s.holderAirdrop + s.solClaim + 20_000_000;
      && FairShare(c.creatorWallet, r.gross, s.creatorWallet, total)
      && FairShare(c.holderAirdrop, r.gross, s.holderAirdrop, total)
      && FairShare(c.solClaim, r.gross, s.solClaim, total)
      && FairShare(c.operations, r.gross, 20 * p.operations, total)
      && FairShare(c.communityBase, r.gross, 20 * p.community, total)
      && FairShare(c.buyback, r.gross, 20 * p.buyback, total)
      && |c.levels| == |p.referral| == 3
      && (forall i :: 0 <= i < 3 ==> FairShare(c.levels[i].amount, r.gross, 20 * p.referral[i], total))
      && (if p.agency.Some? then FairShare(c.agency, r.gross, 20 * p.agency.value, total) else c.agency == 0)
  {
    var n := |Rates(r.shares, r.split)|;
    forall i | 0 <= i < n
      ensures Apportionable(Rates(r.shares, r.split))
      ensures 0 <= Leftover(r.gross, Rates(r.shares, r.split)) <= n
      ensures FairShare(Allocation(r.gross, Rates(r.shares, r.split))[i], r.gross, Rates(r.shares, r.split)[i],
        r.shares.creatorWallet + r.shares.holderAirdrop + r.shares.solClaim + 20_000_000)
    {
      FairAt(r, i);
    }
  }

  /** Which referral levels are paid out, and which go to the community. */
  lemma {:induction false} ReferralsByRecipient(r: Request)
    requires Calculate(r).Ok?
    ensures var c := Calculate(r).value;
      && |c.levels| == 3
      && (forall i :: 0 <= i < 3 ==>
            c.levels[i].recipient == if i < |r.recipients| && r.recipients[i] != Some("") then r.recipients[i] else None)
      && (var paid := seq(3, i requires 0 <= i < 3 => if c.levels[i].recipient.Some? then c.levels[i].amount else 0);
          c.referralPayout == paid[0] + paid[1] + paid[2])
      && (var missing := seq(3, i requires 0 <= i < 3 => if c.levels[i].recipient.None? then c.levels[i].amount else 0);
          c.missingReferral == missing[0] + missing[1] + missing[2])
      && c.community == c.communityBase + c.missingReferral
  {
    TotalOfThree(Calculate(r).value.levels, true);
    TotalOfThree(Calculate(r).value.levels, false);
  }

  lemma {:induction false} TotalOfThree(levels: seq<Level>, present: bool)
    requires |levels| == 3
    ensures LevelTotal(levels, present)
         == (if levels[0].recipient.Some? == present then levels[0].amount else 0)
          + (if levels[1].recipient.Some? == present then levels[1].amount else 0)
          + (if levels[2].recipient.Some? == present then levels[2].amount else 0)
  {
    var tail := levels[1..];
    var last := tail[1..];
    assert last[1..] == [];
    assert LevelTotal(last, present) == if levels[2].recipient.Some? == present then levels[2].amount else 0;
  }

  /** The source's calculation, with its final guard; the guard never fires. */
  method CalculateCreatorFeeClaim(r: Request) returns (c: Result<Claim, Error>)
    ensures c == Calculate(r)
    ensures c != Err(NotExactlyOnce)
  {
    if r.gross < 0 {
      return Err(BadGross);
    }
    if !ValidShares(r.shares) {
      return Err(BadShares);
    }
    if !ValidSplit(r.split) {
      return Err(BadSplit);
    }
    if MAX_SAFE_INTEGER < r.gross {
      return Err(UnsafeGross);
    }
    RatesApportionable(r.shares, r.split);
    var amounts := AllocateLamports(r.gross, Rates(r.shares, r.split));
    var claim := Assemble(r.gross, amounts, r.recipients);
    EveryLamportOnce(r);
    if Obligations(claim) != r.gross {
      return Err(NotExactlyOnce);
    }
    c := Ok(claim);
  }

  // ----- settlement histories

  /** A settle call as the ledger sees it: its signature and what its calculation comes to. */
  datatype Call = Call(signature: string, outcome: Result<Claim, Error>)

  function CallOf(r: Request): Call {
    Call(r.signature, Calculate(r))
  }

  /** One settle call: the ledger after it and the reply. */
  function Settle(settled: map<string, Claim>, call: Call): (map<string, Claim>, Result<Claim, Error>) {
    if call.signature == "" then (settled, Err(NoSignature))
    else if call.signature in settled then (settled, Ok(settled[call.signature]))
    else if call.outcome.Ok? then (settled[call.signature := call.outcome.value], call.outcome)
    else (settled, call.outcome)
  }

  class ClaimLedger {
    var settled: map<string, Claim>

    constructor ()
      ensures settled == map[]
    {
      settled := map[];
    }

    method SettleCreatorFeeClaim(r: Request) returns (reply: Result<Claim, Error>)
      modifies this
      ensures (settled, reply) == Settle(old(settled), CallOf(r))
    {
      if r.signature == "" {
        return Err(NoSignature);
      }
      if r.signature in settled {
        return Ok(settled[r.signature]);
      }
      reply := CalculateCreatorFeeClaim(r);
      if reply.Ok? {
        settled := settled[r.signature := reply.value];
      }
    }
  }

  /** The ledger after a history of calls. */
  function Run(history: seq<Call>): map<string, Claim> {
    if history == [] then map[]
    else Settle(Run(history[..|history| - 1]), history[|history| - 1]).0
  }

  predicate Settles(call: Call) {
    call.signature != "" && call.outcome.Ok?
  }

  /** The calls that created a settlement: the first good one for each signature. */
  function Creating(history: seq<Call>): (calls: seq<Call>)
    ensures forall i :: 0 <= i < |calls| ==> Settles(calls[i])
  {
    if history == [] then []
    else
      var past, call := history[..|history| - 1], history[|history| - 1];
      Creating(past) + (if Settles(call) && call.signature !in Run(past) then [call] else [])
  }

  /** `i` is the first good call for `signature`. */
  predicate FirstGood(history: seq<Call>, signature: string, i: nat) {
    && i < |history| && history[i].signature == signature && Settles(history[i])
    && forall j :: 0 <= j < i && history[j].signature == signature ==> !Settles(history[j])
  }

  /** A signature is settled exactly when it has a first good call, with that call's result. */
  lemma {:induction false} SettledOnceWithFirstResult(history: seq<Call>, signature: string)
    ensures signature in Run(history) <==> exists i: nat :: FirstGood(history, signature, i)
    ensures forall i: nat :: FirstGood(history, signature, i)
              ==> signature in Run(history) && Run(history)[signature] == history[i].outcome.value
  {
    if history != [] {
      var n := |history| - 1;
      var past, call := history[..n], history[n];
      SettledOnceWithFirstResult(past, signature);
      forall i: nat | FirstGood(past, signature, i) ensures FirstGood(history, signature, i) {
        assert forall j :: 0 <= j <= i ==> history[j] == past[j];
      }
      forall i: nat | FirstGood(history, signature, i) ensures i == n || FirstGood(past, signature, i) {
        if i < n { assert forall j :: 0 <= j <= i ==> history[j] == past[j]; }
      }
      if call.signature == signature && Settles(call) && signature !in Run(past) {
        forall j | 0 <= j < n && history[j].signature == signature ensures !Settles(history[j]) {
          NoGoodCall(past, signature, j);
        }
        assert FirstGood(history, signature, n);
      }
      assert FirstGood(history, signature, n) ==> forall i: nat :: !FirstGood(past, signature, i);
    }
  }

  /** Without a first good call there is no good call at all. */
  lemma {:induction false} NoGoodCall(history: seq<Call>, signature: string, j: nat)
    requires j < |history| && history[j].signature == signature
    requires forall i: nat :: !FirstGood(history, signature, i)
    ensures !Settles(history[j])
  {
    forall k | 0 <= k < j && history[k].signature == signature ensures !Settles(history[k]) {
      NoGoodCall(history, signature, k);
    }
    assert !FirstGood(history, signature, j);
  }

  predicate Created(calls: seq<Call>, signature: string) {
    exists i :: 0 <= i < |calls| && calls[i].signature == signature
  }

  lemma CreatedAppend(calls: seq<Call>, call: Call, s: string)
    ensures Created(calls + [call], s) <==> Created(calls, s) || call.signature == s
  {
    if Created(calls, s) {
      var i :| 0 <= i < |calls| && calls[i].signature == s;
      assert (calls + [call])[i].signature == s;
    }
    assert (calls + [call])[|calls|] == call;
  }

  /** The settled signatures are those of the creating calls, each of which is new. */
  lemma {:induction false} CreatedOnce(history: seq<Call>)
    ensures forall s :: s in Run(history) <==> Created(Creating(history), s)
    ensures forall i, j :: 0 <= i < j < |Creating(history)|
              ==> Creating(history)[i].signature != Creating(history)[j].signature
  {
    if history != [] {
      var past, call := history[..|history| - 1], history[|history| - 1];
      CreatedOnce(past);
      var before := Creating(past);
      assert Creating(history) == if Settles(call) && call.signature !in Run(past) then before + [call] else before;
      if Settles(call) && call.signature !in Run(past) {
        forall i | 0 <= i < |before| ensures before[i].signature != call.signature {
          assert Created(before, before[i].signature);
        }
        forall s ensures s in Run(history) <==> Created(before + [call], s) {
          CreatedAppend(before, call, s);
        }
      }
    }
  }

  function Grosses(calls: seq<Call>): seq<int>
    requires forall i :: 0 <= i < |calls| ==> Settles(calls[i])
  {
    seq(|calls|, i requires 0 <= i < |calls| && Settles(calls[i]) => calls[i].outcome.value.gross)
  }

  function Owed(settled: map<string, Claim>, calls: seq<Call>): seq<int>
    requires forall i :: 0 <= i < |calls| ==> calls[i].signature in settled
  {
    seq(|calls|, i requires 0 <= i < |calls| => Obligations(settled[calls[i].signature]))
  }

  predicate Conserving(call: Call) {
    call.outcome.Ok? ==> Obligations(call.outcome.value) == call.outcome.value.gross
  }

  lemma {:induction false} CreatedSettled(history: seq<Call>)
    ensures forall i :: 0 <= i < |Creating(history)| ==> Creating(history)[i].signature in Run(history)
  {
    CreatedOnce(history);
    forall i | 0 <= i < |Creating(history)| ensures Creating(history)[i].signature in Run(history) {
      assert Created(Creating(history), Creating(history)[i].signature);
    }
  }

  lemma OwedAppend(settled: map<string, Claim>, calls: seq<Call>, call: Call)
    requires Settles(call) && call.signature !in settled && Conserving(call)
    requires forall i :: 0 <= i < |calls| ==> calls[i].signature in settled && Settles(calls[i])
    ensures var settled' := settled[call.signature := call.outcome.value];
      && (forall i :: 0 <= i < |calls + [call]| ==> (calls + [call])[i].signature in settled')
      && (forall i :: 0 <= i < |calls + [call]| ==> Settles((calls + [call])[i]))
      && Sum(Owed(settled', calls + [call])) - Sum(Grosses(calls + [call]))
         == Sum(Owed(settled, calls)) - Sum(Grosses(calls))
  {
    var settled', gross := settled[call.signature := call.outcome.value], call.outcome.value.gross;
    assert Owed(settled', calls + [call]) == Owed(settled, calls) + [gross];
    assert Grosses(calls + [call]) == Grosses(calls) + [gross];
    SumAppend(Owed(settled, calls), gross);
    SumAppend(Grosses(calls), gross);
  }

  lemma {:induction false} CallsConserve(history: seq<Call>)
    requires forall i :: 0 <= i < |history| ==> Conserving(history[i])
    requires forall i :: 0 <= i < |Creating(history)| ==> Creating(history)[i].signature in Run(history)
    ensures Sum(Owed(Run(history), Creating(history))) == Sum(Grosses(Creating(history)))
  {
    if history != [] {
      var past, call := history[..|history| - 1], history[|history| - 1];
      CreatedSettled(past);
      CallsConserve(past);
      if Settles(call) && call.signature !in Run(past) {
        OwedAppend(Run(past), Creating(past), call);
      } else {
        assert Creating(history) == Creating(past);
      }
    }
  }

  function Calls(requests: seq<Request>): (calls: seq<Call>)
    ensures |calls| == |requests|
  {
    seq(|requests|, i requires 0 <= i < |requests| => CallOf(requests[i]))
  }

  /**
   Over any history of requests, with repeats: what is owed under the settled signatures,
   each counted once, is the gross of those signatures, lamport for lamport.
   */
  lemma HistoryConserves(requests: seq<Request>)
    ensures var history := Calls(requests);
      && (forall s :: s in Run(history) <==> Created(Creating(history), s))
      && (forall i :: 0 <= i < |Creating(history)| ==> Creating(history)[i].signature in Run(history))
      && (forall i, j :: 0 <= i < j < |Creating(history)|
            ==> Creating(history)[i].signature != Creating(history)[j].signature)
      && Sum(Owed(Run(history), Creating(history))) == Sum(Grosses(Creating(history)))
  {
    forall i | 0 <= i < |requests| ensures Conserving(CallOf(requests[i])) {
      if Calculate(requests[i]).Ok? {
        EveryLamportOnce(requests[i]);
      }
    }
    CreatedSettled(Calls(requests));
    CallsConserve(Calls(requests));
    CreatedOnce(Calls(requests));
  }

  /** Repeating a call for a settled signature answers the recorded result and changes nothing. */
  lemma {:induction false} RepeatAnswersFirstResult(history: seq<Call>, call: Call, i: nat)
    requires FirstGood(history, call.signature, i)
    ensures Settle(Run(history), call) == (Run(history), history[i].outcome)
  {
    SettledOnceWithFirstResult(history, call.signature);
  }
}
