/**
 The on-chain agency policy account of a launched coin: how the client recomputes the
 category, agent and directed-share targets, and when it accepts the stored ledger.
 */
module AgencyRouter {
  import opened Wrappers
  import opened Arith
  import opened Bytes
  import opened CumulativeFloor

  const GROSS_UNITS: nat := 10_000_000
  const CREATOR_UNITS: nat := 8_000_000
  const PROTOCOL_UNITS: nat := 2_000_000
  const POLICY_DISCRIMINATOR: seq<Byte> := [0x42, 0x30, 0x60, 0x90, 0xe0, 0xe9, 0x71, 0x9a]

  predicate IsDefaultAddress(address: Bytes32) {
    forall i :: 0 <= i < 32 ==> address[i] == 0
  }

  datatype Error = BadCategories | BadSelection | OutsideU64 | Layout | Identity | Ledger

  // ----- targets

  predicate ValidUnits(units: seq<int>) {
    |units| == 7 && (forall i :: 0 <= i < 7 ==> 0 <= units[i]) && Sum(units) == PROTOCOL_UNITS
  }

  /** The eight weights: the fixed creator share in front of the seven protocol categories. */
  function AllUnits(units: seq<int>): (all: seq<nat>)
    requires ValidUnits(units)
    ensures |all| == 8
  {
    [CREATOR_UNITS] + seq(7, i requires 0 <= i < 7 => units[i])
  }

  lemma AllUnitsTotal(units: seq<int>)
    requires ValidUnits(units)
    ensures Prefix(AllUnits(units), 8) == GROSS_UNITS
  {
    var all := AllUnits(units);
    assert all[0] == CREATOR_UNITS;
    for k := 1 to 8
      invariant Prefix(all, k) == CREATOR_UNITS + Sum(units[..k - 1])
    {
      SumTake(units, k - 1);
    }
    assert units[..7] == units;
  }

  function CategoryTargets(total: int, units: seq<int>): (r: Result<seq<int>, Error>)
  {
    if !ValidUnits(units) then Err(BadCategories)
    else if total < 0 || U64_LIMIT <= total then Err(OutsideU64)
    else Ok(Targets(total, AllUnits(units), GROSS_UNITS))
  }

  method AgencyCategoryTargets(total: int, units: seq<int>) returns (r: Result<seq<int>, Error>)
    ensures r == CategoryTargets(total, units)
  {
    if !ValidUnits(units) {
      return Err(BadCategories);
    }
    if total < 0 || U64_LIMIT <= total {
      return Err(OutsideU64);
    }
    var shares := RunningTargets(total, AllUnits(units), GROSS_UNITS);
    r := Ok(shares);
  }

  function Bit(mask: nat, n: nat): (b: nat)
    ensures b <= 1
  {
    if n == 0 then mask % 2 else Bit(mask / 2, n - 1)
  }

  predicate SubMask(a: nat, b: nat) {
    forall n :: 0 <= n < 8 ==> Bit(a, n) <= Bit(b, n)
  }

  /** One unit for every selected agent, none for the others. */
  function AgentUnits(mask: nat): (units: seq<nat>)
    ensures |units| == 3
  {
    [Bit(mask, 0), Bit(mask, 1), Bit(mask, 2)]
  }

  function AgentCount(mask: nat): nat {
    Bit(mask, 0) + Bit(mask, 1) + Bit(mask, 2)
  }

  lemma AgentUnitsTotal(mask: nat)
    ensures Prefix(AgentUnits(mask), 3) == AgentCount(mask)
  {
    var u := AgentUnits(mask);
    assert Prefix(u, 1) == u[0];
    assert Prefix(u, 2) == u[0] + u[1];
  }

  function AgentTargets(total: int, mask: int): (r: Result<seq<int>, Error>) {
    if mask < 0 || 7 < mask then Err(BadSelection)
    else if total < 0 || U64_LIMIT <= total then Err(OutsideU64)
    else if AgentCount(mask) == 0 then Ok([0, 0, 0])
    else Ok(Targets(total, AgentUnits(mask), AgentCount(mask)))
  }

  /** The running ordinal and boundary before agent `n`. */
  predicate Running(total: nat, mask: nat, n: nat, ordinal: nat, prior: int)
    requires n <= 3 && AgentCount(mask) != 0
  {
    ordinal == Prefix(AgentUnits(mask), n) && prior == Boundary(total, AgentUnits(mask), AgentCount(mask), n)
  }

  /** An unselected agent leaves ordinal and boundary where they were; a selected one moves both on. */
  lemma AgentStep(total: nat, mask: nat, n: nat, ordinal: nat, prior: int)
    requires n < 3 && AgentCount(mask) != 0 && Running(total, mask, n, ordinal, prior)
    ensures var target, boundary := Targets(total, AgentUnits(mask), AgentCount(mask))[n], total * (ordinal + 1) / AgentCount(mask);
      if Bit(mask, n) == 1 then Running(total, mask, n + 1, ordinal + 1, boundary) && target == boundary - prior
      else Running(total, mask, n + 1, ordinal, prior) && target == 0
  {
    assert AgentUnits(mask)[n] == Bit(mask, n);
  }

  lemma StartsRunning(total: nat, mask: nat)
    requires AgentCount(mask) != 0
    ensures Running(total, mask, 0, 0, 0)
  {
  }

  /** What one agent receives, with the ordinal and boundary after it. */
  method NextAgent(total: nat, mask: nat, n: nat, ordinal: nat, prior: int)
    returns (ordinal': nat, prior': int, share: int)
    requires n < 3 && AgentCount(mask) != 0 && Running(total, mask, n, ordinal, prior)
    ensures Running(total, mask, n + 1, ordinal', prior') && share == Targets(total, AgentUnits(mask), AgentCount(mask))[n]
  {
    AgentStep(total, mask, n, ordinal, prior);
    ordinal', prior', share := ordinal, prior, 0;
    if Bit(mask, n) == 1 {
      ordinal' := ordinal + 1;
      prior' := total * ordinal' / AgentCount(mask);
      share := prior' - prior;
    }
  }

  method AgencyAgentTargets(total: int, mask: int) returns (r: Result<seq<int>, Error>)
    ensures r == AgentTargets(total, mask)
  {
    if mask < 0 || 7 < mask {
      return Err(BadSelection);
    }
    if total < 0 || U64_LIMIT <= total {
      return Err(OutsideU64);
    }
    if AgentCount(mask) == 0 {
      return Ok([0, 0, 0]);
    }
    ghost var goal := Targets(total, AgentUnits(mask), AgentCount(mask));
    var ordinal, prior, shares := 0, 0, [];
    StartsRunning(total, mask);
    for n := 0 to 3
      invariant Running(total, mask, n, ordinal, prior)
      invariant shares == goal[..n]
    {
      var share;
      ordinal, prior, share := NextAgent(total, mask, n, ordinal, prior);
      shares := shares + [share];
    }
    assert goal[..3] == goal;
    r := Ok(shares);
  }

  /** The agents' parts add up to the agency share, or are all zero for an empty selection. */
  lemma AgentTargetsConserve(total: int, mask: int)
    requires AgentTargets(total, mask).Ok?
    ensures var t := AgentTargets(total, mask).value;
            |t| == 3 && Sum(t) == (if AgentCount(mask) == 0 then 0 else total)
  {
    AgentUnitsTotal(mask);
    if AgentCount(mask) == 0 {
      assert Sum([0, 0, 0]) == 0 by { assert [0, 0, 0][1..] == [0, 0] && [0, 0][1..] == [0]; }
    } else {
      Conserved(total, AgentUnits(mask), AgentCount(mask));
    }
  }

  /** Because at most three agents share equally, growth never takes a lamport back from any. */
  lemma AgentTargetsNeverShrink(total: nat, total': nat, mask: int)
    requires total <= total' < U64_LIMIT && 0 <= mask <= 7
    ensures AgentTargets(total, mask).Ok? && AgentTargets(total', mask).Ok?
    ensures var t, t' := AgentTargets(total, mask).value, AgentTargets(total', mask).value;
            |t| == |t'| == 3 && forall n :: 0 <= n < 3 ==> t[n] <= t'[n]
  {
    AgentUnitsTotal(mask);
    if AgentCount(mask) != 0 {
      forall n | 0 <= n < 3
        ensures Share(total, AgentUnits(mask), AgentCount(mask), n)
             <= Share(total', AgentUnits(mask), AgentCount(mask), n)
      {
        EqualPartsNeverShrink(total, total', AgentUnits(mask), AgentCount(mask), n);
      }
    }
  }

  // ----- the stored policy

  datatype Policy = Policy(
    protocolUnits: seq<nat>, settled: nat, paid: seq<nat>, withdrawn: seq<nat>,
    directedUnits: seq<nat>, directedReleased: seq<nat>, selectedMask: nat,
    agentSpent: seq<nat>, completedMask: nat, lastPromotionAt: int,
    promotionSequence: nat, promotionRecipient: Bytes32, configRevision: nat)

  datatype Account = Account(owner: Bytes32, executable: bool, data: seq<Byte>)

  datatype Expected = Expected(
    program: Bytes32, mint: Bytes32, creator: Bytes32, authority: Bytes32, bump: Byte,
    protocolUnits: Option<seq<nat>>, directedUnits: Option<seq<nat>>, selectedMask: Option<nat>)

  function U64s(data: seq<Byte>, offset: nat, n: nat): (s: seq<nat>)
    requires offset + 8 * n <= |data|
    ensures |s| == n && forall i :: 0 <= i < n ==> s[i] < U64_LIMIT
  {
    if n == 0 then [] else U64s(data, offset, n - 1) + [U64At(data, offset + 8 * (n - 1))]
  }

  function U32s(data: seq<Byte>, offset: nat, n: nat): (s: seq<nat>)
    requires offset + 4 * n <= |data|
    ensures |s| == n
  {
    if n == 0 then [] else U32s(data, offset, n - 1) + [U32At(data, offset + 4 * (n - 1))]
  }

  function Read(data: seq<Byte>): (p: Policy)
    requires 383 <= |data|
    ensures |p.protocolUnits| == 7 && |p.paid| == |p.withdrawn| == 8
    ensures |p.directedUnits| == |p.directedReleased| == |p.agentSpent| == 3
    ensures p.settled < U64_LIMIT && forall i :: 0 <= i < 8 ==> p.paid[i] < U64_LIMIT
  {
    Policy(U32s(data, 104, 7), U64At(data, 132), U64s(data, 140, 8), U64s(data, 204, 8),
           U32s(data, 268, 3), U64s(data, 280, 3), data[304], U64s(data, 305, 3), data[329],
           I64At(data, 330), U32At(data, 338), data[342..374], U64At(data, 374))
  }

  predicate Shape(p: Policy) {
    && |p.protocolUnits| == 7 && |p.paid| == |p.withdrawn| == 8
    && |p.directedUnits| == |p.directedReleased| == |p.agentSpent| == 3
  }

  function DirectedTargets(p: Policy): seq<int>
    requires Shape(p)
  {
    Targets(p.paid[0], p.directedUnits, CREATOR_UNITS)
  }

  predicate Within(amounts: seq<int>, limits: seq<int>)
    requires |amounts| == |limits|
  {
    forall i :: 0 <= i < |amounts| ==> amounts[i] <= limits[i]
  }

  /** The money conditions of the decoder. */
  predicate MoneyAgrees(p: Policy)
    requires Shape(p)
  {
    && CategoryTargets(p.settled, p.protocolUnits) == Ok(p.paid)
    && AgentTargets(p.paid[7], p.selectedMask).Ok?
    && Sum(p.directedUnits) == CREATOR_UNITS
    && Within(p.withdrawn, p.paid)
    && Within(p.directedReleased, DirectedTargets(p))
    && Sum(p.directedReleased) == p.withdrawn[0]
    && Within(p.agentSpent, AgentTargets(p.paid[7], p.selectedMask).value)
    && Sum(p.agentSpent) == p.withdrawn[7]
  }

  /** The activity conditions of the decoder: masks, promotion counter and revision. */
  predicate ActivityAgrees(p: Policy)
    requires Shape(p)
  {
    && SubMask(p.completedMask, p.selectedMask)
    && Bit(p.completedMask, 0) == 0
    && 0 <= p.lastPromotionAt && 1 <= p.configRevision
    && !IsDefaultAddress(p.promotionRecipient)
    && (p.promotionSequence == 0 <==> p.lastPromotionAt == 0)
    && (0 < p.promotionSequence ==> Bit(p.selectedMask, 0) == 1 && p.agentSpent[0] != 0)
    && (Bit(p.completedMask, 1) == 1 <==> 0 < p.agentSpent[1])
    && (Bit(p.completedMask, 2) == 1 <==> 0 < p.agentSpent[2])
  }

  predicate MatchesExpected(p: Policy, e: Expected) {
    && (e.protocolUnits.Some? ==> e.protocolUnits.value == p.protocolUnits)
    && (e.directedUnits.Some? ==> e.directedUnits.value == p.directedUnits)
    && (e.selectedMask.Some? ==> e.selectedMask.value == p.selectedMask)
  }

  predicate LayoutAgrees(a: Account, e: Expected) {
    && a.owner == e.program && !a.executable
    && (|a.data| == 383 || |a.data| == 423)
    && a.data[..8] == POLICY_DISCRIMINATOR
  }

  predicate IdentityAgrees(a: Account, e: Expected)
    requires LayoutAgrees(a, e)
  {
    && a.data[8..40] == e.mint && a.data[40..72] == e.creator
    && a.data[72..104] == e.authority && a.data[382] == e.bump
  }

  predicate Accepts(a: Account, e: Expected) {
    && LayoutAgrees(a, e) && IdentityAgrees(a, e)
    && MoneyAgrees(Read(a.data)) && ActivityAgrees(Read(a.data)) && MatchesExpected(Read(a.data), e)
  }

  method Exceeds(amounts: seq<int>, limits: seq<int>) returns (some: bool)
    requires |amounts| == |limits|
    ensures some <==> !Within(amounts, limits)
  {
    for i := 0 to |amounts|
      invariant forall j :: 0 <= j < i ==> amounts[j] <= limits[j]
    {
      if limits[i] < amounts[i] {
        return true;
      }
    }
    some := false;
  }

  method Total(amounts: seq<int>) returns (total: int)
    ensures total == Sum(amounts)
  {
    total := 0;
    for i := 0 to |amounts|
      invariant total == Sum(amounts[..i])
    {
      SumTake(amounts, i);
      total := total + amounts[i];
    }
    assert amounts[..|amounts|] == amounts;
  }

  method DecodeAgencyPolicyV3(a: Account, e: Expected) returns (r: Result<Policy, Error>)
    ensures r.Ok? <==> Accepts(a, e)
    ensures r.Ok? ==> r.value == Read(a.data)
    ensures !LayoutAgrees(a, e) ==> r == Err(Layout)
    ensures LayoutAgrees(a, e) && !IdentityAgrees(a, e) ==> r == Err(Identity)
  {
    if !LayoutAgrees(a, e) {
      return Err(Layout);
    }
    if !IdentityAgrees(a, e) {
      return Err(Identity);
    }
    var p := Read(a.data);
    var targets := AgencyCategoryTargets(p.settled, p.protocolUnits);
    if targets.Err? {
      return Err(targets.error);
    }
    var agentTargets := AgencyAgentTargets(p.paid[7], p.selectedMask);
    if agentTargets.Err? {
      return Err(agentTargets.error);
    }
    var directedTargets := RunningTargets(p.paid[0], p.directedUnits, CREATOR_UNITS);
    var directedUnits := Total(p.directedUnits);
    var released := Total(p.directedReleased);
    var spent := Total(p.agentSpent);
    var overWithdrawn := Exceeds(p.withdrawn, p.paid);
    var overReleased := Exceeds(p.directedReleased, directedTargets);
    var overSpent := Exceeds(p.agentSpent, agentTargets.value);
    if !MatchesExpected(p, e) || directedUnits != CREATOR_UNITS || p.paid != targets.value
      || overWithdrawn || overReleased || released != p.withdrawn[0]
      || overSpent || spent != p.withdrawn[7] || !ActivityAgrees(p) {
      return Err(Ledger);
    }
    r := Ok(p);
  }

  // ----- what an accepted ledger guarantees

  lemma {:induction false} PrefixIsSum(units: seq<nat>, k: nat)
    requires k <= |units|
    ensures Prefix(units, k) == Sum(units[..k])
  {
    if k != 0 {
      PrefixIsSum(units, k - 1);
      SumTake(units, k - 1);
    }
  }

  lemma DirectedTotal(p: Policy)
    requires Shape(p) && Sum(p.directedUnits) == CREATOR_UNITS
    ensures Prefix(p.directedUnits, 3) == CREATOR_UNITS
  {
    PrefixIsSum(p.directedUnits, 3);
    assert p.directedUnits[..3] == p.directedUnits;
  }

  /** Accepted ledgers conserve money at all three levels. */
  lemma AcceptedLedgerConserves(a: Account, e: Expected)
    requires Accepts(a, e)
    ensures var p := Read(a.data);
      && Sum(p.paid) == p.settled
      && (forall i :: 0 <= i < 8 ==> p.withdrawn[i] <= p.paid[i])
      && Sum(p.withdrawn) <= p.settled
      && Sum(DirectedTargets(p)) == p.paid[0]
      && Sum(p.directedReleased) == p.withdrawn[0] <= p.paid[0]
      && (AgentCount(p.selectedMask) != 0 ==>
            Sum(AgentTargets(p.paid[7], p.selectedMask).value) == p.paid[7])
      && (AgentCount(p.selectedMask) == 0 ==>
            p.withdrawn[7] == 0 && p.completedMask == 0 && p.promotionSequence == 0
            && forall n :: 0 <= n < 3 ==> p.agentSpent[n] == 0)
  {
    var p := Read(a.data);
    AllUnitsTotal(p.protocolUnits);
    Conserved(p.settled, AllUnits(p.protocolUnits), GROSS_UNITS);
    SumMono(p.withdrawn, p.paid);
    DirectedTotal(p);
    Conserved(p.paid[0], p.directedUnits, CREATOR_UNITS);
    AgentTargetsConserve(p.paid[7], p.selectedMask);
    if AgentCount(p.selectedMask) == 0 {
      NothingSpent(p);
    }
  }

  lemma NothingSpent(p: Policy)
    requires Shape(p) && AgentCount(p.selectedMask) == 0 && p.completedMask < 256
    requires AgentTargets(p.paid[7], p.selectedMask).Ok? && Within(p.agentSpent, AgentTargets(p.paid[7], p.selectedMask).value)
    requires Sum(p.agentSpent) == p.withdrawn[7] && ActivityAgrees(p)
    ensures p.withdrawn[7] == 0 && p.completedMask == 0 && p.promotionSequence == 0
    ensures forall n :: 0 <= n < 3 ==> p.agentSpent[n] == 0
  {
    assert p.agentSpent == [0, 0, 0];
    OnlyFirst(p.agentSpent);
    NoBits(p.selectedMask, p.completedMask);
  }

  lemma NoBits(selected: nat, completed: nat)
    requires selected <= 7 && completed < 256 && AgentCount(selected) == 0 && SubMask(completed, selected)
    ensures completed == 0
  {
    assert selected == 0;
    forall n | 0 <= n < 8 ensures Bit(completed, n) == 0 {
      ZeroBit(n);
    }
    BitsDetermine(completed, 8);
  }

  lemma {:induction false} ZeroBit(n: nat)
    ensures Bit(0, n) == 0
  {
    if n != 0 {
      ZeroBit(n - 1);
    }
  }

  function Pow2(n: nat): nat {
    if n == 0 then 1 else 2 * Pow2(n - 1)
  }

  lemma {:induction false} BitsDetermine(mask: nat, width: nat)
    requires mask < Pow2(width)
    requires forall n :: 0 <= n < width ==> Bit(mask, n) == 0
    ensures mask == 0
  {
    if width != 0 {
      forall n | 0 <= n < width - 1 ensures Bit(mask / 2, n) == 0 {
        assert Bit(mask, n + 1) == 0;
      }
      BitsDetermine(mask / 2, width - 1);
      assert Bit(mask, 0) == 0;
    }
  }

  /** The ledger after further settlement: paid counters follow the new total, nothing else moves. */
  function Settled(p: Policy, total: nat): Policy
    requires Shape(p) && CategoryTargets(total, p.protocolUnits).Ok?
  {
    var paid := CategoryTargets(total, p.protocolUnits).value;
    p.(settled := total, paid := Naturals(paid))
  }

  function Naturals(s: seq<int>): (n: seq<nat>)
    ensures |n| == |s|
    ensures (forall i :: 0 <= i < |s| ==> 0 <= s[i]) ==> n == s
  {
    seq(|s|, i requires 0 <= i < |s| => if s[i] < 0 then 0 else s[i])
  }

  lemma PaidIsTargets(p: Policy, total: nat)
    requires Shape(p) && ValidUnits(p.protocolUnits) && total < U64_LIMIT
    ensures CategoryTargets(total, p.protocolUnits) == Ok(Settled(p, total).paid)
    ensures Settled(p, total).paid == Targets(total, AllUnits(p.protocolUnits), GROSS_UNITS)
    ensures Shape(Settled(p, total)) && Sum(Settled(p, total).paid) == total
    ensures forall i :: 0 <= i < 8 ==> Settled(p, total).paid[i] <= total
  {
    var all := AllUnits(p.protocolUnits);
    forall i | 0 <= i < 8 ensures 0 <= Share(total, all, GROSS_UNITS, i) {
      WithinOne(total, all, GROSS_UNITS, i);
    }
    AllUnitsTotal(p.protocolUnits);
    Conserved(total, all, GROSS_UNITS);
    SumNonNegative(Settled(p, total).paid);
  }

  /**
   Exactly when an accepted ledger is still accepted after further settlement. Agent
   spending, the creator and agency categories and the outer directed shares can
   never be the obstacle: only the six inner categories and the inner directed share.
   */
  lemma GrowthAcceptance(p: Policy, total: nat)
    requires Shape(p) && MoneyAgrees(p) && ActivityAgrees(p)
    requires p.settled <= total < U64_LIMIT
    ensures CategoryTargets(total, p.protocolUnits).Ok?
    ensures var p' := Settled(p, total);
      Shape(p') && ActivityAgrees(p')
      && (MoneyAgrees(p') <==>
            && (forall i :: 1 <= i <= 6 ==> p.withdrawn[i] <= p'.paid[i])
            && p.directedReleased[1] <= DirectedTargets(p')[1])
  {
    PaidIsTargets(p, total);
    OuterGrowth(p, total);
    var p' := Settled(p, total);
    assert Within(p.withdrawn, p'.paid) <==> forall i :: 1 <= i <= 6 ==> p.withdrawn[i] <= p'.paid[i];
    ThreeWithin(p.directedReleased, DirectedTargets(p), DirectedTargets(p'));
    WithinTransitive(p.agentSpent, AgentTargets(p.paid[7], p.selectedMask).value, AgentTargets(p'.paid[7], p.selectedMask).value);
  }

  lemma ThreeWithin(amounts: seq<int>, earlier: seq<int>, limits: seq<int>)
    requires |amounts| == |earlier| == |limits| == 3 && Within(amounts, earlier) && earlier[0] <= limits[0] && earlier[2] <= limits[2]
    ensures Within(amounts, limits) <==> amounts[1] <= limits[1]
  {
  }

  lemma WithinTransitive(a: seq<int>, b: seq<int>, c: seq<int>)
    requires |a| == |b| == |c| && Within(a, b) && Within(b, c)
    ensures Within(a, c)
  {
  }

  /** Growth takes nothing back from the creator, the agents and the outer directed shares. */
  lemma OuterGrowth(p: Policy, total: nat)
    requires Shape(p) && MoneyAgrees(p) && p.settled <= total < U64_LIMIT
    ensures CategoryTargets(total, p.protocolUnits).Ok?
    ensures var p' := Settled(p, total);
      && Shape(p') && AgentTargets(p'.paid[7], p.selectedMask).Ok?
      && p.paid[0] <= p'.paid[0] && p.paid[7] <= p'.paid[7]
      && DirectedTargets(p)[0] <= DirectedTargets(p')[0] && DirectedTargets(p)[2] <= DirectedTargets(p')[2]
      && Within(AgentTargets(p.paid[7], p.selectedMask).value, AgentTargets(p'.paid[7], p.selectedMask).value)
  {
    PaidIsTargets(p, p.settled);
    PaidIsTargets(p, total);
    var all, p' := AllUnits(p.protocolUnits), Settled(p, total);
    AllUnitsTotal(p.protocolUnits);
    FirstNeverShrinks(p.settled, total, all, GROSS_UNITS, 0);
    LastNeverShrinks(p.settled, total, all, GROSS_UNITS, 7);
    AgentTargetsNeverShrink(p.paid[7], p'.paid[7], p.selectedMask);
    OuterDirectedGrowth(p, p');
  }

  lemma OuterDirectedGrowth(p: Policy, p': Policy)
    requires Shape(p) && Shape(p') && p.paid[0] <= p'.paid[0] && p'.directedUnits == p.directedUnits
    requires Sum(p.directedUnits) == CREATOR_UNITS
    ensures DirectedTargets(p)[0] <= DirectedTargets(p')[0] && DirectedTargets(p)[2] <= DirectedTargets(p')[2]
  {
    DirectedTotal(p);
    FirstNeverShrinks(p.paid[0], p'.paid[0], p.directedUnits, CREATOR_UNITS, 0);
    LastNeverShrinks(p.paid[0], p'.paid[0], p.directedUnits, CREATOR_UNITS, 2);
  }

  /** A position whose whole target is released and loses a lamport of it by growth. */
  predicate Overdrawn(released: nat, total: nat, growth: nat, units: seq<nat>, denom: nat, i: nat)
    requires 0 < denom && i < |units|
  {
    released == Share(total, units, denom, i) && Carries(total, growth, units, denom, i)
  }

  lemma OverdrawnIs(released: nat, total: nat, total': nat, units: seq<nat>, denom: nat, i: nat)
    requires 0 < denom && i < |units| && total <= total' && released <= Share(total, units, denom, i)
    ensures Share(total', units, denom, i) < released <==> Overdrawn(released, total, total' - total, units, denom, i)
  {
    DropAtMostOne(total, total', units, denom, i);
    ShrinksExactlyOnCarry(total, total' - total, units, denom, i);
  }

  /**
   Growth refuses an accepted ledger if and only if it finds an inner category, or the inner
   directed share, that is released in full and whose boundary carries. The conditions are
   about the old ledger and the growth alone.
   */
  lemma RefusedExactlyOnCarry(p: Policy, total: nat)
    requires Shape(p) && MoneyAgrees(p) && ActivityAgrees(p)
    requires p.settled <= total < U64_LIMIT
    ensures ValidUnits(p.protocolUnits) && CategoryTargets(total, p.protocolUnits).Ok?
    ensures var all := AllUnits(p.protocolUnits);
      var creator := Boundary(total, all, GROSS_UNITS, 1);
      && p.paid[0] <= creator
      && (!MoneyAgrees(Settled(p, total)) <==>
            || (exists i :: 1 <= i <= 6 && Overdrawn(p.withdrawn[i], p.settled, total - p.settled, all, GROSS_UNITS, i))
            || Overdrawn(p.directedReleased[1], p.paid[0], creator - p.paid[0], p.directedUnits, CREATOR_UNITS, 1))
  {
    GrowthAcceptance(p, total);
    PaidIsTargets(p, p.settled);
    PaidIsTargets(p, total);
    var all, p' := AllUnits(p.protocolUnits), Settled(p, total);
    forall i | 1 <= i <= 6
      ensures p'.paid[i] < p.withdrawn[i] <==> Overdrawn(p.withdrawn[i], p.settled, total - p.settled, all, GROSS_UNITS, i)
    {
      OverdrawnIs(p.withdrawn[i], p.settled, total, all, GROSS_UNITS, i);
    }
    FirstIsBoundary(p.settled, all, GROSS_UNITS);
    FirstIsBoundary(total, all, GROSS_UNITS);
    BoundaryMono(p.settled, total, all, GROSS_UNITS, 1);
    OverdrawnIs(p.directedReleased[1], p.paid[0], p'.paid[0], p.directedUnits, CREATOR_UNITS, 1);
  }

  lemma FirstIsBoundary(total: nat, units: seq<nat>, denom: nat)
    requires 0 < denom && 0 < |units|
    ensures Share(total, units, denom, 0) == Boundary(total, units, denom, 1)
  {
  }

  /** Leaving one lamport in every inner position keeps the ledger acceptable for any growth. */
  lemma HeadroomSurvivesGrowth(p: Policy, total: nat)
    requires Shape(p) && MoneyAgrees(p) && ActivityAgrees(p)
    requires p.settled <= total < U64_LIMIT
    requires forall i :: 1 <= i <= 6 ==> p.withdrawn[i] < p.paid[i]
    requires p.directedReleased[1] < DirectedTargets(p)[1]
    ensures CategoryTargets(total, p.protocolUnits).Ok?
    ensures Shape(Settled(p, total)) && MoneyAgrees(Settled(p, total)) && ActivityAgrees(Settled(p, total))
  {
    GrowthAcceptance(p, total);
    PaidIsTargets(p, p.settled);
    PaidIsTargets(p, total);
    var all, p' := AllUnits(p.protocolUnits), Settled(p, total);
    AllUnitsTotal(p.protocolUnits);
    forall i | 1 <= i <= 6 ensures p.paid[i] <= p'.paid[i] + 1 {
      DropAtMostOne(p.settled, total, all, GROSS_UNITS, i);
    }
    FirstNeverShrinks(p.settled, total, all, GROSS_UNITS, 0);
    DropAtMostOne(p.paid[0], p'.paid[0], p.directedUnits, CREATOR_UNITS, 1);
  }

  /** The published category weights, in ten-millionths of the gross. */
  function Published(): seq<int> { [800_000, 60_000, 25_000, 15_000, 400_000, 500_000, 200_000] }

  lemma PublishedIsValid()
    ensures ValidUnits(Published())
  {
    var units := Published();
    assert units[1..] == [60_000, 25_000, 15_000, 400_000, 500_000, 200_000];
    assert units[2..] == [25_000, 15_000, 400_000, 500_000, 200_000];
    assert units[3..] == [15_000, 400_000, 500_000, 200_000];
    assert Sum([400_000, 500_000, 200_000]) == 1_100_000 by {
      assert [400_000, 500_000, 200_000][1..] == [500_000, 200_000];
      assert [500_000, 200_000][1..] == [200_000];
    }
    assert units[3..][1..] == [400_000, 500_000, 200_000];
  }

  lemma {:induction false} PublishedPrefixes(all: seq<nat>)
    requires ValidUnits(Published()) && all == AllUnits(Published())
    ensures Prefix(all, 0) == 0 && Prefix(all, 1) == 8_000_000 && Prefix(all, 2) == 8_800_000
    ensures Prefix(all, 3) == 8_860_000 && Prefix(all, 4) == 8_885_000 && Prefix(all, 5) == 8_900_000
    ensures Prefix(all, 6) == 9_300_000 && Prefix(all, 7) == 9_800_000 && Prefix(all, 8) == 10_000_000
  {
  }

  /** The targets of a total under the published weights, written out. */
  predicate PublishedShares(total: nat, t: seq<int>) {
    && |t| == 8
    && t[0] == total * 8_000_000 / GROSS_UNITS
    && t[1] == total * 8_800_000 / GROSS_UNITS - total * 8_000_000 / GROSS_UNITS
    && t[2] == total * 8_860_000 / GROSS_UNITS - total * 8_800_000 / GROSS_UNITS
    && t[3] == total * 8_885_000 / GROSS_UNITS - total * 8_860_000 / GROSS_UNITS
    && t[4] == total * 8_900_000 / GROSS_UNITS - total * 8_885_000 / GROSS_UNITS
    && t[5] == total * 9_300_000 / GROSS_UNITS - total * 8_900_000 / GROSS_UNITS
    && t[6] == total * 9_800_000 / GROSS_UNITS - total * 9_300_000 / GROSS_UNITS
    && t[7] == total * 10_000_000 / GROSS_UNITS - total * 9_800_000 / GROSS_UNITS
  }

  lemma PublishedTargets(total: nat)
    requires total < U64_LIMIT
    ensures CategoryTargets(total, Published()).Ok? && PublishedShares(total, CategoryTargets(total, Published()).value)
  {
    PublishedIsValid();
    var all := AllUnits(Published());
    PublishedPrefixes(all);
    forall i | 0 <= i < 8
      ensures Targets(total, all, GROSS_UNITS)[i]
           == total * Prefix(all, i + 1) / GROSS_UNITS - total * Prefix(all, i) / GROSS_UNITS
    {
    }
  }

  lemma SharesOfEight(t: seq<int>)
    requires PublishedShares(8, t)
    ensures t == [6, 1, 0, 0, 0, 0, 0, 1]
  {
  }

  lemma SharesOfNine(t: seq<int>)
    requires PublishedShares(9, t)
    ensures t == [7, 0, 0, 0, 1, 0, 0, 1]
  {
  }

  /**
   A fully withdrawn inner category can make a once accepted ledger unacceptable: under
   the published weights the operations target falls from one lamport to none when the
   settled total grows from 8 to 9.
   */
  lemma InnerTargetCanFall()
    ensures CategoryTargets(8, Published()) == Ok([6, 1, 0, 0, 0, 0, 0, 1])
    ensures CategoryTargets(9, Published()) == Ok([7, 0, 0, 0, 1, 0, 0, 1])
  {
    PublishedTargets(8);
    PublishedTargets(9);
    SharesOfEight(CategoryTargets(8, Published()).value);
    SharesOfNine(CategoryTargets(9, Published()).value);
  }

  /** One operations lamport settled and withdrawn, nobody selected, everything directed to the creator. */
  predicate OneOperationsLamportWithdrawn(p: Policy) {
    && Shape(p) && p.protocolUnits == Published() && p.settled == 8
    && p.paid == [6, 1, 0, 0, 0, 0, 0, 1] && p.withdrawn == [0, 1, 0, 0, 0, 0, 0, 0]
    && p.directedUnits == [8_000_000, 0, 0] && p.directedReleased == p.agentSpent == [0, 0, 0]
    && p.selectedMask == p.completedMask == 0 && p.lastPromotionAt == p.promotionSequence == 0
    && p.configRevision == 1
  }

  lemma NothingDirected(p: Policy)
    requires OneOperationsLamportWithdrawn(p)
    ensures Sum(p.directedUnits) == CREATOR_UNITS && Sum(p.directedReleased) == 0
    ensures Within(p.directedReleased, DirectedTargets(p))
  {
    OnlyFirst(p.directedUnits);
    OnlyFirst(p.directedReleased);
    forall i | 0 <= i < 3 ensures 0 <= DirectedTargets(p)[i] {
      WithinOne(p.paid[0], p.directedUnits, CREATOR_UNITS, i);
    }
  }

  lemma {:induction false} OnlyFirst(s: seq<int>)
    requires |s| == 3 && s[1] == s[2] == 0
    ensures Sum(s) == s[0]
  {
    var rest := s[1..];
    assert Sum(rest) == rest[0] + Sum(rest[1..]) == 0 + Sum([0]);
  }

  lemma {:induction false} NobodySelected(mask: nat, total: nat)
    requires mask == 0 && total < U64_LIMIT
    ensures AgentTargets(total, mask) == Ok([0, 0, 0])
    ensures forall n :: 0 <= n < 8 ==> Bit(mask, n) == 0
  {
    forall n | 0 <= n < 8 ensures Bit(mask, n) == 0 { ZeroBit(n); }
  }

  lemma MeetsCategories(p: Policy)
    requires OneOperationsLamportWithdrawn(p)
    ensures CategoryTargets(p.settled, p.protocolUnits) == Ok(p.paid)
  {
    InnerTargetCanFall();
  }

  lemma MeetsMoney(p: Policy)
    requires OneOperationsLamportWithdrawn(p)
    ensures MoneyAgrees(p)
  {
    MeetsCategories(p);
    NothingDirected(p);
    NobodySelected(p.selectedMask, p.paid[7]);
    OnlyFirst(p.agentSpent);
  }

  lemma MeetsActivity(p: Policy)
    requires OneOperationsLamportWithdrawn(p) && !IsDefaultAddress(p.promotionRecipient)
    ensures ActivityAgrees(p)
  {
    NobodySelected(p.selectedMask, p.paid[7]);
  }

  /**
   The decoder's conditions can fail by growth alone: this ledger meets them with its one
   operations lamport withdrawn, and no longer does when a ninth lamport is settled.
   */
  lemma AcceptedThenRefused(p: Policy)
    requires OneOperationsLamportWithdrawn(p) && !IsDefaultAddress(p.promotionRecipient)
    ensures MoneyAgrees(p) && ActivityAgrees(p)
    ensures CategoryTargets(9, p.protocolUnits).Ok?
    ensures ActivityAgrees(Settled(p, 9)) && !MoneyAgrees(Settled(p, 9))
  {
    MeetsMoney(p);
    MeetsActivity(p);
    NinthLamport(p);
    MissesMoney(p, Settled(p, 9));
  }

  lemma {:induction false} NinthLamport(p: Policy)
    requires OneOperationsLamportWithdrawn(p)
    ensures CategoryTargets(9, p.protocolUnits).Ok? && Settled(p, 9).paid[1] == 0
  {
    InnerTargetCanFall();
  }

  lemma {:induction false} MissesMoney(p: Policy, p': Policy)
    requires Shape(p') && p.withdrawn == [0, 1, 0, 0, 0, 0, 0, 0] && p'.withdrawn == p.withdrawn && p'.paid[1] == 0
    ensures !MoneyAgrees(p')
  {
    assert p'.withdrawn[1] > p'.paid[1];
  }
}
