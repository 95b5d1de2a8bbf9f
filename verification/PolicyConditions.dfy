/**
 The decoder's acceptance of an agency policy account written out in the fields it decodes:
 cumulative weights, single shares and bits in plain arithmetic, without the target
 functions and mask predicates the decoder is modelled with.
 */
module PolicyConditions {
  import opened Wrappers
  import opened Arith
  import opened Bytes
  import opened CumulativeFloor
  import opened AgencyRouter
  import MintRouter

  // ----- the conditions, field by field

  /** What the weights before each of the eight categories add up to, and all of them. */
  function CumulativeUnits(u: seq<nat>): (w: seq<nat>)
    requires |u| == 7
    ensures |w| == 9
  {
    [0, 8_000_000, 8_000_000 + u[0], 8_000_000 + u[0] + u[1], 8_000_000 + u[0] + u[1] + u[2],
     8_000_000 + u[0] + u[1] + u[2] + u[3], 8_000_000 + u[0] + u[1] + u[2] + u[3] + u[4],
     8_000_000 + u[0] + u[1] + u[2] + u[3] + u[4] + u[5],
     8_000_000 + u[0] + u[1] + u[2] + u[3] + u[4] + u[5] + u[6]]
  }

  function PartBetween(total: nat, lower: nat, upper: nat): int {
    total * upper / 10_000_000 - total * lower / 10_000_000
  }

  /** Every category is paid up to its cumulative weight, and no more is withdrawn than paid. */
  predicate CategoryFields(p: Policy)
    requires Shape(p)
  {
    var w := CumulativeUnits(p.protocolUnits);
    && w[8] == 10_000_000 && p.settled < 0x1_0000_0000_0000_0000
    && (forall i :: 0 <= i < 8 ==> p.paid[i] == PartBetween(p.settled, w[i], w[i + 1]))
    && (forall i :: 0 <= i < 8 ==> p.withdrawn[i] <= p.paid[i])
  }

  /** The creator's part among its three directed shares. */
  predicate DirectedFields(p: Policy)
    requires Shape(p)
  {
    var d, r, paid := p.directedUnits, p.directedReleased, p.paid[0];
    && d[0] + d[1] + d[2] == 8_000_000
    && r[0] <= paid * d[0] / 8_000_000
    && r[1] <= paid * (d[0] + d[1]) / 8_000_000 - paid * d[0] / 8_000_000
    && r[2] <= paid - paid * (d[0] + d[1]) / 8_000_000
    && r[0] + r[1] + r[2] == p.withdrawn[0]
  }

  /** The agency's part in equal parts among the selected agents, rounded at each boundary. */
  predicate AgentFields(p: Policy)
    requires Shape(p)
  {
    && p.selectedMask < 8 && p.paid[7] < 0x1_0000_0000_0000_0000
    && AgentLimits(p.selectedMask, p.paid[7], p.agentSpent)
    && p.agentSpent[0] + p.agentSpent[1] + p.agentSpent[2] == p.withdrawn[7]
  }

  predicate AgentLimits(mask: nat, paid: nat, spent: seq<nat>)
    requires |spent| == 3
  {
    var b0, b1, b2 := mask % 2, mask / 2 % 2, mask / 4 % 2;
    var count := b0 + b1 + b2;
    && (if b0 == 1 then spent[0] <= paid / count else spent[0] == 0)
    && (if b1 == 1 then spent[1] <= paid * (b0 + 1) / count - paid * b0 / count else spent[1] == 0)
    && (if b2 == 1 then spent[2] <= paid - paid * (b0 + b1) / count else spent[2] == 0)
  }

  /** Completed jobs, promotions and the revision. */
  predicate ActivityFields(p: Policy)
    requires Shape(p)
  {
    && p.completedMask < 8 && p.completedMask % 2 == 0
    && (p.completedMask / 2 % 2 == 1 <==> p.agentSpent[1] != 0)
    && (p.completedMask / 4 % 2 == 1 <==> p.agentSpent[2] != 0)
    && (p.completedMask / 2 % 2 == 1 ==> p.selectedMask / 2 % 2 == 1)
    && (p.completedMask / 4 % 2 == 1 ==> p.selectedMask / 4 % 2 == 1)
    && (if p.promotionSequence == 0 then p.lastPromotionAt == 0
        else 0 < p.lastPromotionAt && p.selectedMask % 2 == 1 && 0 < p.agentSpent[0])
    && 0 < p.configRevision
    && exists i :: 0 <= i < 32 && p.promotionRecipient[i] != 0
  }

  /** The account is the right kind of account of the right coin. */
  predicate AccountFields(a: Account, e: Expected) {
    && a.owner == e.program && !a.executable && |a.data| in {383, 423}
    && a.data[..8] == [0x42, 0x30, 0x60, 0x90, 0xe0, 0xe9, 0x71, 0x9a]
    && a.data[8..40] == e.mint && a.data[40..72] == e.creator && a.data[72..104] == e.authority
    && a.data[382] == e.bump
  }

  // ----- they are the decoder's

  lemma {:induction false} SumOfThree(s: seq<int>)
    requires |s| == 3
    ensures Sum(s) == s[0] + s[1] + s[2]
  {
    var t := s[1..];
    assert Sum(t) == t[0] + Sum(t[1..]) && Sum(t[1..]) == s[2] + Sum(t[1..][1..]);
  }

  lemma {:induction false} SumOfSeven(s: seq<int>)
    requires |s| == 7
    ensures Sum(s) == s[0] + s[1] + s[2] + s[3] + s[4] + s[5] + s[6]
  {
    var t := s[4..];
    SumOfThree(t);
    SumTake(s, 0);
    SumTake(s, 1);
    SumTake(s, 2);
    SumTake(s, 3);
    SumSplit(s, 4);
    assert s[..0] == [];
  }

  lemma {:induction false} CumulativeIsPrefix(u: seq<nat>, k: nat)
    requires ValidUnits(u) && k <= 8
    ensures Prefix(AllUnits(u), k) == CumulativeUnits(u)[k]
  {
    if k != 0 {
      CumulativeIsPrefix(u, k - 1);
      assert AllUnits(u)[k - 1] == if k == 1 then 8_000_000 else u[k - 2];
    }
  }

  lemma CategoryShare(total: nat, u: seq<nat>, i: nat)
    requires ValidUnits(u) && i < 8
    ensures Targets(total, AllUnits(u), GROSS_UNITS)[i] == PartBetween(total, CumulativeUnits(u)[i], CumulativeUnits(u)[i + 1])
  {
    CumulativeIsPrefix(u, i);
    CumulativeIsPrefix(u, i + 1);
  }

  lemma CategoriesWrittenOut(p: Policy)
    requires Shape(p)
    ensures CategoryFields(p) <==>
      CategoryTargets(p.settled, p.protocolUnits) == Ok(p.paid) && Within(p.withdrawn, p.paid)
  {
    SumOfSeven(p.protocolUnits);
    if ValidUnits(p.protocolUnits) {
      var targets := Targets(p.settled, AllUnits(p.protocolUnits), GROSS_UNITS);
      forall i | 0 <= i < 8
        ensures targets[i] == PartBetween(p.settled, CumulativeUnits(p.protocolUnits)[i], CumulativeUnits(p.protocolUnits)[i + 1])
      {
        CategoryShare(p.settled, p.protocolUnits, i);
      }
      if CategoryFields(p) {
        var w := CumulativeUnits(p.protocolUnits);
        forall i | 0 <= i < 8 ensures targets[i] == p.paid[i] {
          assert p.paid[i] == PartBetween(p.settled, w[i], w[i + 1]);
          assert targets[i] == PartBetween(p.settled, w[i], w[i + 1]);
        }
        assert targets == p.paid;
      }
    }
  }

  lemma {:induction false} ThreePrefixes(units: seq<nat>)
    requires |units| == 3
    ensures Prefix(units, 0) == 0 && Prefix(units, 1) == units[0] && Prefix(units, 2) == units[0] + units[1]
    ensures Prefix(units, 3) == units[0] + units[1] + units[2]
  {
    assert Prefix(units, 1) == Prefix(units, 0) + units[0];
    assert Prefix(units, 2) == Prefix(units, 1) + units[1];
  }

  lemma WholeBoundary(total: nat, denom: nat)
    requires 0 < denom
    ensures total * denom / denom == total
  {
    DivIs(total * denom, denom, total);
  }

  lemma DirectedWrittenOut(p: Policy)
    requires Shape(p)
    ensures DirectedFields(p) <==>
      && Sum(p.directedUnits) == CREATOR_UNITS && Within(p.directedReleased, DirectedTargets(p))
      && Sum(p.directedReleased) == p.withdrawn[0]
  {
    SumOfThree(p.directedUnits);
    SumOfThree(p.directedReleased);
    ThreePrefixes(p.directedUnits);
    WholeBoundary(p.paid[0], 8_000_000);
  }

  lemma {:induction false} ThreeBits(mask: nat)
    ensures Bit(mask, 0) == mask % 2 && Bit(mask, 1) == mask / 2 % 2 && Bit(mask, 2) == mask / 4 % 2
  {
    assert mask / 2 / 2 == mask / 4;
    assert Bit(mask, 1) == Bit(mask / 2, 0);
    assert Bit(mask, 2) == Bit(mask / 2, 1) == Bit(mask / 2 / 2, 0);
  }

  lemma {:induction false} AgentShares(mask: nat, total: nat)
    requires AgentCount(mask) != 0
    ensures var t, c := Targets(total, AgentUnits(mask), AgentCount(mask)), AgentCount(mask);
      var b0, b1, b2 := Bit(mask, 0), Bit(mask, 1), Bit(mask, 2);
      && t[0] == (if b0 == 1 then total / c else 0)
      && t[1] == (if b1 == 1 then total * (b0 + 1) / c - total * b0 / c else 0)
      && t[2] == (if b2 == 1 then total - total * (b0 + b1) / c else 0)
  {
    ThreePrefixes(AgentUnits(mask));
    WholeBoundary(total, AgentCount(mask));
  }

  lemma LimitsWithin(spent: seq<nat>, limits: seq<int>)
    requires |spent| == |limits| == 3
    ensures Within(spent, limits) <==> spent[0] <= limits[0] && spent[1] <= limits[1] && spent[2] <= limits[2]
  {
  }

  lemma {:induction false} AgentLimitsAreTargets(mask: nat, paid: nat, spent: seq<nat>)
    requires |spent| == 3 && mask < 8 && paid < U64_LIMIT
    ensures AgentTargets(paid, mask).Ok? && (Within(spent, AgentTargets(paid, mask).value) <==> AgentLimits(mask, paid, spent))
  {
    ThreeBits(mask);
    if AgentCount(mask) == 0 {
      LimitsWithin(spent, [0, 0, 0]);
    } else {
      AgentShares(mask, paid);
      LimitsWithin(spent, Targets(paid, AgentUnits(mask), AgentCount(mask)));
      LimitsByShares(mask, paid, spent, Targets(paid, AgentUnits(mask), AgentCount(mask)));
    }
  }

  lemma {:induction false} LimitsByShares(mask: nat, paid: nat, spent: seq<nat>, t: seq<int>)
    requires |spent| == |t| == 3 && AgentCount(mask) != 0
    requires var b0, b1, b2 := mask % 2, mask / 2 % 2, mask / 4 % 2;
      var c := b0 + b1 + b2;
      && c != 0
      && t[0] == (if b0 == 1 then paid / c else 0)
      && t[1] == (if b1 == 1 then paid * (b0 + 1) / c - paid * b0 / c else 0)
      && t[2] == (if b2 == 1 then paid - paid * (b0 + b1) / c else 0)
    ensures AgentLimits(mask, paid, spent) <==> spent[0] <= t[0] && spent[1] <= t[1] && spent[2] <= t[2]
  {
  }

  lemma AgentsWrittenOut(p: Policy)
    requires Shape(p)
    ensures AgentFields(p) <==>
      && AgentTargets(p.paid[7], p.selectedMask).Ok?
      && Within(p.agentSpent, AgentTargets(p.paid[7], p.selectedMask).value)
      && Sum(p.agentSpent) == p.withdrawn[7]
  {
    SumOfThree(p.agentSpent);
    if p.selectedMask < 8 && p.paid[7] < U64_LIMIT {
      AgentLimitsAreTargets(p.selectedMask, p.paid[7], p.agentSpent);
    }
  }

  lemma {:induction false} BitAboveThree(mask: nat, n: nat)
    requires 3 <= n
    ensures Bit(mask, n) == Bit(mask / 8, n - 3)
  {
    assert mask / 2 / 2 / 2 == mask / 8;
    assert Bit(mask, n) == Bit(mask / 2, n - 1) == Bit(mask / 2 / 2, n - 2) == Bit(mask / 2 / 2 / 2, n - 3);
  }

  predicate NoHighBits(mask: nat) {
    forall n :: 3 <= n < 8 ==> Bit(mask, n) == 0
  }

  lemma {:induction false} HighBits(mask: nat)
    requires mask < 256
    ensures mask < 8 <==> NoHighBits(mask)
  {
    if mask < 8 {
      forall n | 3 <= n < 8 ensures Bit(mask, n) == 0 {
        BitAboveThree(mask, n);
        ZeroBit(n - 3);
        assert mask / 8 == 0;
      }
    } else if NoHighBits(mask) {
      forall n | 0 <= n < 5 ensures Bit(mask / 8, n) == 0 {
        BitAboveThree(mask, n + 3);
        assert Bit(mask, n + 3) == 0;
      }
      assert Pow2(5) == 32;
      BitsDetermine(mask / 8, 5);
    }
  }

  lemma {:induction false} SubMaskWrittenOut(a: nat, b: nat)
    requires a < 256 && b < 8
    ensures SubMask(a, b) <==> a < 8 && a % 2 <= b % 2 && a / 2 % 2 <= b / 2 % 2 && a / 4 % 2 <= b / 4 % 2
  {
    ThreeBits(a);
    ThreeBits(b);
    HighBits(a);
    HighBits(b);
    if SubMask(a, b) {
      assert NoHighBits(a) by {
        forall n | 3 <= n < 8 ensures Bit(a, n) == 0 {
          assert Bit(b, n) == 0;
        }
      }
    } else if a < 8 {
      var n :| 0 <= n < 8 && Bit(a, n) > Bit(b, n);
      assert n < 3;
    }
  }

  lemma {:induction false} ActivityWrittenOut(p: Policy)
    requires Shape(p) && p.selectedMask < 8 && p.completedMask < 256
    ensures ActivityAgrees(p) <==> ActivityFields(p)
  {
    ThreeBits(p.selectedMask);
    ThreeBits(p.completedMask);
    SubMaskWrittenOut(p.completedMask, p.selectedMask);
    assert IsDefaultAddress(p.promotionRecipient) <==> !exists i :: 0 <= i < 32 && p.promotionRecipient[i] != 0;
  }

  /**
   Exactly which accounts the decoder accepts, in the fields as decoded: the right account of
   the right coin, money paid, directed and spent within plain cumulative shares, activity that
   agrees with it, and the rates and selection the caller expects, where it does.
   */
  lemma AcceptsWrittenOut(a: Account, e: Expected)
    ensures Accepts(a, e) <==>
      && AccountFields(a, e)
      && var p := Read(a.data);
         && CategoryFields(p) && DirectedFields(p) && AgentFields(p) && ActivityFields(p)
         && (e.protocolUnits.None? || e.protocolUnits.value == p.protocolUnits)
         && (e.directedUnits.None? || e.directedUnits.value == p.directedUnits)
         && (e.selectedMask.None? || e.selectedMask.value == p.selectedMask)
  {
    if LayoutAgrees(a, e) {
      var p := Read(a.data);
      CategoriesWrittenOut(p);
      DirectedWrittenOut(p);
      AgentsWrittenOut(p);
      if p.selectedMask < 8 {
        ActivityWrittenOut(p);
      }
    }
  }

  // ----- the protected ledger

  /**
   Exactly which protected ledgers verify: the six rates and the seven paid counters total what
   they must, nothing is over-withdrawn, and the creator's part obeys the same directed shares.
   */
  lemma ProtectedWrittenOut(l: MintRouter.Ledger)
    requires MintRouter.Shape(l)
    ensures MintRouter.LedgerAgrees(l) <==>
      && var u, p, w, d, r := l.protocolUnits, l.paid, l.withdrawn, l.directedUnits, l.directedReleased;
         && u[0] + u[1] + u[2] + u[3] + u[4] + u[5] == 2_000_000
         && p[0] + p[1] + p[2] + p[3] + p[4] + p[5] + p[6] == l.settled
         && w[0] <= p[0] && w[1] <= p[1] && w[2] <= p[2] && w[3] <= p[3] && w[4] <= p[4] && w[5] <= p[5] && w[6] <= p[6]
         && d[0] + d[1] + d[2] == 8_000_000
         && r[0] <= p[0] * d[0] / 8_000_000
         && r[1] <= p[0] * (d[0] + d[1]) / 8_000_000 - p[0] * d[0] / 8_000_000
         && r[2] <= p[0] - p[0] * (d[0] + d[1]) / 8_000_000
         && r[0] + r[1] + r[2] == w[0]
  {
    SumOfSix(l.protocolUnits);
    SumOfSeven(l.paid);
    SumOfThree(l.directedUnits);
    SumOfThree(l.directedReleased);
    ThreePrefixes(l.directedUnits);
    WholeBoundary(l.paid[0], 8_000_000);
    SevenWithin(l.withdrawn, l.paid);
    LimitsWithin(l.directedReleased, Targets(l.paid[0], l.directedUnits, CREATOR_UNITS));
  }

  lemma {:induction false} SumOfSix(s: seq<int>)
    requires |s| == 6
    ensures Sum(s) == s[0] + s[1] + s[2] + s[3] + s[4] + s[5]
  {
    SumOfThree(s[..3]);
    SumOfThree(s[3..]);
    SumSplit(s, 3);
  }

  lemma SevenWithin(amounts: seq<int>, limits: seq<int>)
    requires |amounts| == |limits| == 7
    ensures Within(amounts, limits) <==>
      && amounts[0] <= limits[0] && amounts[1] <= limits[1] && amounts[2] <= limits[2] && amounts[3] <= limits[3]
      && amounts[4] <= limits[4] && amounts[5] <= limits[5] && amounts[6] <= limits[6]
  {
  }
}
