/**
 Splitting an exact amount by differences of cumulative floors: the boundary after
 k categories is `total * (units of the first k) / denom`, and a category receives
 the difference of its two boundaries.
 */
module CumulativeFloor {
  import opened Arith

  function Prefix(units: seq<nat>, k: nat): nat
    requires k <= |units|
  {
    if k == 0 then 0 else Prefix(units, k - 1) + units[k - 1]
  }

  function Boundary(total: nat, units: seq<nat>, denom: nat, k: nat): nat
    requires 0 < denom && k <= |units|
  {
    total * Prefix(units, k) / denom
  }

  function Share(total: nat, units: seq<nat>, denom: nat, i: nat): int
    requires 0 < denom && i < |units|
  {
    Boundary(total, units, denom, i + 1) - Boundary(total, units, denom, i)
  }

  function Targets(total: nat, units: seq<nat>, denom: nat): (shares: seq<int>)
    requires 0 < denom
  {
    seq(|units|, i requires 0 <= i < |units| => Share(total, units, denom, i))
  }

  /** The running form: one pass with a cumulative weight and the prior boundary. */
  method RunningTargets(total: nat, units: seq<nat>, denom: nat) returns (shares: seq<int>)
    requires 0 < denom
    ensures shares == Targets(total, units, denom)
  {
    shares := [];
    var cumulative, prior := 0, 0;
    for i := 0 to |units|
      invariant cumulative == Prefix(units, i) && prior == Boundary(total, units, denom, i)
      invariant shares == Targets(total, units, denom)[..i]
    {
      cumulative := cumulative + units[i];
      var boundary := total * cumulative / denom;
      shares := shares + [boundary - prior];
      prior := boundary;
    }
  }

  /** The protected verifier's form: every share re-adds the weights of its slice. */
  method SliceTargets(total: nat, units: seq<nat>, denom: nat) returns (shares: seq<int>)
    requires 0 < denom
    ensures shares == Targets(total, units, denom)
  {
    shares := [];
    for i := 0 to |units|
      invariant shares == Targets(total, units, denom)[..i]
    {
      var cumulative := 0;
      for j := 0 to i + 1
        invariant cumulative == Prefix(units, j)
      {
        cumulative := cumulative + units[j];
      }
      var preceding := cumulative - units[i];
      shares := shares + [total * cumulative / denom - total * preceding / denom];
    }
  }

  lemma {:induction false} PrefixMono(units: seq<nat>, j: nat, k: nat)
    requires j <= k <= |units|
    ensures Prefix(units, j) <= Prefix(units, k)
    decreases k - j
  {
    if j < k {
      PrefixMono(units, j, k - 1);
    }
  }

  /** As the total grows no boundary moves back. */
  lemma BoundaryMono(total: nat, total': nat, units: seq<nat>, denom: nat, k: nat)
    requires 0 < denom && k <= |units| && total <= total'
    ensures Boundary(total, units, denom, k) <= Boundary(total', units, denom, k)
  {
    MulMono(total, total', Prefix(units, k));
    DivMono(total * Prefix(units, k), total' * Prefix(units, k), denom);
  }

  /** The shares telescope: the first k of them add up to the k-th boundary. */
  lemma {:induction false} PartialSum(total: nat, units: seq<nat>, denom: nat, k: nat)
    requires 0 < denom && k <= |units|
    ensures Sum(Targets(total, units, denom)[..k]) == Boundary(total, units, denom, k)
  {
    if k == 0 {
      assert Boundary(total, units, denom, 0) == 0;
    } else {
      PartialSum(total, units, denom, k - 1);
      SumTake(Targets(total, units, denom), k - 1);
    }
  }

  /** Nothing is lost and nothing invented: the shares add up to the whole amount. */
  lemma {:induction false} Conserved(total: nat, units: seq<nat>, denom: nat)
    requires 0 < denom && Prefix(units, |units|) == denom
    ensures Sum(Targets(total, units, denom)) == total
  {
    PartialSum(total, units, denom, |units|);
    assert Targets(total, units, denom)[..|units|] == Targets(total, units, denom);
    DivMultiple(total, denom);
  }

  /** Every share is within one lamport of its exact fraction, strictly on both sides. */
  lemma WithinOne(total: nat, units: seq<nat>, denom: nat, i: nat)
    requires 0 < denom && i < |units|
    ensures Share(total, units, denom, i) * denom < total * units[i] + denom
    ensures total * units[i] < Share(total, units, denom, i) * denom + denom
    ensures 0 <= Share(total, units, denom, i)
    ensures Share(total, units, denom, i) in {total * units[i] / denom, total * units[i] / denom + 1}
  {
    var x, y := total * Prefix(units, i), total * units[i];
    assert total * Prefix(units, i + 1) == x + y;
    DivSumExact(x, y, denom);
    var carry := if x % denom + y % denom >= denom then 1 else 0;
    var q := y / denom;
    assert Share(total, units, denom, i) == q + carry;
    assert (q + carry) * denom == q * denom + carry * denom;
    assert y == q * denom + y % denom;
  }

  /** Units given to a boundary by `growth` further lamports: whole units plus a carry. */
  function Advance(total: nat, growth: nat, weight: nat, denom: nat): nat
    requires 0 < denom
  {
    growth * weight / denom
      + (if total * weight % denom + growth * weight % denom >= denom then 1 else 0)
  }

  lemma {:induction false} BoundaryAdvance(total: nat, growth: nat, units: seq<nat>, denom: nat, k: nat)
    requires 0 < denom && k <= |units|
    ensures Boundary(total + growth, units, denom, k)
         == Boundary(total, units, denom, k) + Advance(total, growth, Prefix(units, k), denom)
  {
    var w := Prefix(units, k);
    assert (total + growth) * w == total * w + growth * w;
    DivSumExact(total * w, growth * w, denom);
  }

  /** A share never falls by more than one lamport, however large the growth. */
  lemma DropAtMostOne(total: nat, total': nat, units: seq<nat>, denom: nat, i: nat)
    requires 0 < denom && i < |units| && total <= total'
    ensures Share(total, units, denom, i) - 1 <= Share(total', units, denom, i)
  {
    var g := total' - total;
    BoundaryAdvance(total, g, units, denom, i);
    BoundaryAdvance(total, g, units, denom, i + 1);
    MulMono(Prefix(units, i), Prefix(units, i + 1), g);
    DivMono(g * Prefix(units, i), g * Prefix(units, i + 1), denom);
  }

  /** A share with nothing before it, in particular the first, never shrinks. */
  lemma {:induction false} FirstNeverShrinks(total: nat, total': nat, units: seq<nat>, denom: nat, i: nat)
    requires 0 < denom && i < |units| && total <= total'
    requires Prefix(units, i) == 0
    ensures Share(total, units, denom, i) <= Share(total', units, denom, i)
  {
    BoundaryMono(total, total', units, denom, i + 1);
    DivIs(0, denom, 0);
  }

  /** A share with nothing after it, in particular the last, never shrinks. */
  lemma {:induction false} LastNeverShrinks(total: nat, total': nat, units: seq<nat>, denom: nat, i: nat)
    requires 0 < denom && i < |units| && total <= total'
    requires Prefix(units, i + 1) == denom
    ensures Share(total, units, denom, i) <= Share(total', units, denom, i)
  {
    var g, w := total' - total, Prefix(units, i);
    BoundaryAdvance(total, g, units, denom, i);
    DivMultiple(total, denom);
    DivMultiple(total', denom);
    if g == 0 {
    } else {
      // The lower boundary advances by at most g because its weight is at most denom.
      MulMono(w, denom, total');
      assert total' * w == total * w + g * w;
      MulMono(w, denom, g);
      assert total' * w <= total * w + g * denom;
      DivMono(total' * w, total * w + g * denom, denom);
      assert (total * w + g * denom) / denom == total * w / denom + g by {
        DivSumExact(total * w, g * denom, denom);
        DivMultiple(g, denom);
        assert g * denom % denom == 0 by { DivBounds(g * denom, denom); }
      }
    }
  }

  /** Both boundaries of a share advance by the same number of whole lamports, and only the lower one carries. */
  predicate Carries(total: nat, growth: nat, units: seq<nat>, denom: nat, i: nat)
    requires 0 < denom && i < |units|
  {
    var lo, hi := Prefix(units, i), Prefix(units, i + 1);
    && growth * lo / denom == growth * hi / denom
    && denom <= total * lo % denom + growth * lo % denom
    && total * hi % denom + growth * hi % denom < denom
  }

  /**
   Exactly when growth takes a lamport away from a share: both boundaries advance by
   the same number of whole lamports, the lower one carries and the upper one does not.
   */
  lemma ShrinksExactlyOnCarry(total: nat, growth: nat, units: seq<nat>, denom: nat, i: nat)
    requires 0 < denom && i < |units|
    ensures Share(total + growth, units, denom, i) < Share(total, units, denom, i)
       <==> Carries(total, growth, units, denom, i)
  {
    var lo, hi := Prefix(units, i), Prefix(units, i + 1);
    BoundaryAdvance(total, growth, units, denom, i);
    BoundaryAdvance(total, growth, units, denom, i + 1);
    MulMono(lo, hi, growth);
    DivMono(growth * lo, growth * hi, denom);
  }

  /** Splitting among at most three equal parts never takes anything back. */
  lemma {:induction false} EqualPartsNeverShrink(total: nat, total': nat, units: seq<nat>, denom: nat, i: nat)
    requires i < |units| && total <= total'
    requires forall j :: 0 <= j < |units| ==> units[j] <= 1
    requires 0 < denom <= 3 && Prefix(units, |units|) == denom
    ensures Share(total, units, denom, i) <= Share(total', units, denom, i)
  {
    var lo := Prefix(units, i);
    PrefixMono(units, i + 1, |units|);
    if units[i] == 0 {
      assert Prefix(units, i + 1) == lo;
    } else if lo == 0 {
      FirstNeverShrinks(total, total', units, denom, i);
    } else if lo + 1 == denom {
      LastNeverShrinks(total, total', units, denom, i);
    } else {
      assert lo == 1 && denom == 3;
      assert Share(total, units, denom, i) == total * 2 / 3 - total * 1 / 3;
      assert Share(total', units, denom, i) == total' * 2 / 3 - total' * 1 / 3;
      SecondOfThree(total);
      SecondOfThree(total');
    }
  }

  lemma SecondOfThree(total: nat)
    ensures total * 2 / 3 - total * 1 / 3 == (total + 1) / 3
  {
  }

  /**
   The settlement step. Amounts released under the old targets exceed the new
   targets by at most one lamport, and only strictly between the first and the last.
   */
  lemma {:induction false} SettlementStep(total: nat, total': nat, units: seq<nat>, denom: nat, released: seq<int>)
    requires 0 < denom && total <= total' && Prefix(units, |units|) == denom
    requires |released| == |units|
    requires forall i :: 0 <= i < |units| ==> released[i] <= Targets(total, units, denom)[i]
    ensures forall i :: 0 <= i < |units| ==> released[i] <= Targets(total', units, denom)[i] + 1
    ensures forall i :: 0 <= i < |units| && Targets(total', units, denom)[i] < released[i]
              ==> 0 < i < |units| - 1
                  && released[i] == Targets(total, units, denom)[i] == Targets(total', units, denom)[i] + 1
  {
    forall i | 0 <= i < |units|
      ensures Targets(total, units, denom)[i] <= Targets(total', units, denom)[i] + 1
      ensures i == 0 || i == |units| - 1
        ==> Targets(total, units, denom)[i] <= Targets(total', units, denom)[i]
    {
      DropAtMostOne(total, total', units, denom, i);
      if i == 0 {
        FirstNeverShrinks(total, total', units, denom, i);
      }
      if i == |units| - 1 {
        LastNeverShrinks(total, total', units, denom, i);
      }
    }
  }
}
