/**
 Largest-remainder apportionment of a lamport amount over non-negative rates: everyone
 gets the floor of the exact share, and the lamports left over go one each to the largest
 remainders (ties to the larger rate, then to the earlier recipient).
 */
module LargestRemainder {
  import opened Arith

  predicate Apportionable(weights: seq<nat>) {
    0 < Sum(weights)
  }

  function Floor(gross: nat, weights: seq<nat>, i: nat): nat
    requires Apportionable(weights) && i < |weights|
  {
    gross * weights[i] / Sum(weights)
  }

  function FractionalPart(gross: nat, weights: seq<nat>, i: nat): nat
    requires Apportionable(weights) && i < |weights|
  {
    gross * weights[i] % Sum(weights)
  }

  function Floors(gross: nat, weights: seq<nat>): (s: seq<nat>)
    requires Apportionable(weights)
    ensures |s| == |weights|
  {
    seq(|weights|, i requires 0 <= i < |weights| => Floor(gross, weights, i))
  }

  function Remainders(gross: nat, weights: seq<nat>): (s: seq<nat>)
    requires Apportionable(weights)
    ensures |s| == |weights|
  {
    seq(|weights|, i requires 0 <= i < |weights| => FractionalPart(gross, weights, i))
  }

  // ----- ranking, for any table of remainders

  /** The comparator of the leftover order: does `i` come before `j`? */
  predicate Before(rems: seq<nat>, weights: seq<nat>, i: nat, j: nat)
    requires |rems| == |weights| && i < |weights| && j < |weights|
  {
    rems[j] < rems[i]
    || (rems[i] == rems[j] && (weights[j] < weights[i] || (weights[i] == weights[j] && i < j)))
  }

  predicate Indices(order: seq<nat>, n: nat) {
    forall k :: 0 <= k < |order| ==> order[k] < n
  }

  /** Places index `i` in front of the first element it precedes. */
  function Insert(rems: seq<nat>, weights: seq<nat>, order: seq<nat>, i: nat): (r: seq<nat>)
    requires |rems| == |weights| && i < |weights| && Indices(order, |weights|)
    ensures |r| == |order| + 1 && Indices(r, |weights|)
  {
    if order == [] then [i]
    else if Before(rems, weights, i, order[0]) then [i] + order
    else [order[0]] + Insert(rems, weights, order[1..], i)
  }

  lemma {:induction false} InsertContains(rems: seq<nat>, weights: seq<nat>, order: seq<nat>, i: nat, x: nat)
    requires |rems| == |weights| && i < |weights| && Indices(order, |weights|)
    ensures x in Insert(rems, weights, order, i) <==> x == i || x in order
  {
    if order != [] {
      InsertContains(rems, weights, order[1..], i, x);
      assert order == [order[0]] + order[1..];
    }
  }

  /** The first `n` recipients in the order in which leftover lamports are handed out. */
  function Ranked(rems: seq<nat>, weights: seq<nat>, n: nat): (r: seq<nat>)
    requires |rems| == |weights| && n <= |weights|
    ensures |r| == n && Indices(r, |weights|)
  {
    if n == 0 then [] else Insert(rems, weights, Ranked(rems, weights, n - 1), n - 1)
  }

  /** Every recipient is ranked. */
  lemma {:induction false} RankedContains(rems: seq<nat>, weights: seq<nat>, n: nat, x: nat)
    requires |rems| == |weights| && n <= |weights|
    ensures x in Ranked(rems, weights, n) <==> x < n
  {
    if n != 0 {
      RankedContains(rems, weights, n - 1, x);
      InsertContains(rems, weights, Ranked(rems, weights, n - 1), n - 1, x);
    }
  }

  predicate Sorted(rems: seq<nat>, weights: seq<nat>, order: seq<nat>)
    requires |rems| == |weights| && Indices(order, |weights|)
  {
    forall a, b :: 0 <= a < b < |order| ==> Before(rems, weights, order[a], order[b])
  }

  lemma {:induction false} InsertSorted(rems: seq<nat>, weights: seq<nat>, order: seq<nat>, i: nat)
    requires |rems| == |weights| && i < |weights| && Indices(order, |weights|)
    requires Sorted(rems, weights, order) && i !in order
    ensures Sorted(rems, weights, Insert(rems, weights, order, i))
  {
    if order != [] && !Before(rems, weights, i, order[0]) {
      InsertSorted(rems, weights, order[1..], i);
      var rest := Insert(rems, weights, order[1..], i);
      forall b | 0 <= b < |rest| ensures Before(rems, weights, order[0], rest[b]) {
        InsertContains(rems, weights, order[1..], i, rest[b]);
      }
    }
  }

  lemma {:induction false} RankedSorted(rems: seq<nat>, weights: seq<nat>, n: nat)
    requires |rems| == |weights| && n <= |weights|
    ensures Sorted(rems, weights, Ranked(rems, weights, n))
  {
    if n != 0 {
      var order := Ranked(rems, weights, n - 1);
      RankedSorted(rems, weights, n - 1);
      assert n - 1 !in order by { RankedContains(rems, weights, n - 1, n - 1); }
      InsertSorted(rems, weights, order, n - 1);
      assert Ranked(rems, weights, n) == Insert(rems, weights, order, n - 1);
    }
  }

  function Leftover(gross: nat, weights: seq<nat>): int
    requires Apportionable(weights)
  {
    gross - Sum(Floors(gross, weights))
  }

  function Ranking(gross: nat, weights: seq<nat>): (order: seq<nat>)
    requires Apportionable(weights)
    ensures |order| == |weights| && Indices(order, |weights|)
  {
    Ranked(Remainders(gross, weights), weights, |weights|)
  }

  /** One lamport more for every recipient named in `winners`, in turn. */
  function Bump(amounts: seq<nat>, winners: seq<nat>): (r: seq<nat>)
    requires Indices(winners, |amounts|)
    ensures |r| == |amounts|
  {
    if winners == [] then amounts
    else
      var before := Bump(amounts, winners[..|winners| - 1]);
      var w := winners[|winners| - 1];
      before[w := before[w] + 1]
  }

  /** The apportionment. */
  function Allocation(gross: nat, weights: seq<nat>): (amounts: seq<nat>)
    requires Apportionable(weights) && 0 <= Leftover(gross, weights) <= |weights|
    ensures |amounts| == |weights|
  {
    Bump(Floors(gross, weights), Winners(gross, weights))
  }

  function Pick(values: seq<nat>, order: seq<nat>): (s: seq<nat>)
    requires Indices(order, |values|)
    ensures |s| == |order|
  {
    seq(|order|, k requires 0 <= k < |order| => values[order[k]])
  }

  lemma {:induction false} InsertSum(rems: seq<nat>, weights: seq<nat>, order: seq<nat>, i: nat)
    requires |rems| == |weights| && i < |weights| && Indices(order, |weights|)
    ensures Sum(Pick(rems, Insert(rems, weights, order, i))) == Sum(Pick(rems, order)) + rems[i]
  {
    var inserted := Insert(rems, weights, order, i);
    assert Pick(rems, inserted)[1..] == Pick(rems, inserted[1..]);
    if order != [] {
      assert Pick(rems, order)[1..] == Pick(rems, order[1..]);
      if Before(rems, weights, i, order[0]) {
        assert inserted[1..] == order;
      } else {
        InsertSum(rems, weights, order[1..], i);
        assert inserted[1..] == Insert(rems, weights, order[1..], i);
      }
    }
  }

  /** The ranked values add up to what the table adds up to. */
  lemma {:induction false} RankedSum(rems: seq<nat>, weights: seq<nat>, n: nat)
    requires |rems| == |weights| && n <= |weights|
    ensures Sum(Pick(rems, Ranked(rems, weights, n))) == Sum(rems[..n])
  {
    if n != 0 {
      RankedSum(rems, weights, n - 1);
      InsertSum(rems, weights, Ranked(rems, weights, n - 1), n - 1);
      SumTake(rems, n - 1);
    }
  }

  lemma Distribute(a: int, b: int, c: int)
    ensures (a + b) * c == a * c + b * c == c * (a + b)
  {
  }

  /** Termwise quotients and remainders add up to a quotient and a remainder of the sum. */
  lemma {:induction false} SumDivided(quots: seq<int>, rems: seq<int>, terms: seq<int>, d: int, g: int)
    requires |quots| == |rems| == |terms|
    requires forall i :: 0 <= i < |terms| ==> quots[i] * d + rems[i] == g * terms[i]
    ensures Sum(quots) * d + Sum(rems) == g * Sum(terms)
    ensures Sum(terms) == d ==> Sum(rems) == (g - Sum(quots)) * d
  {
    if terms != [] {
      SumDivided(quots[1..], rems[1..], terms[1..], d, g);
      AddDivided(quots[0], rems[0], terms[0], Sum(quots[1..]), Sum(rems[1..]), Sum(terms[1..]), d, g);
    }
    LeftOver(Sum(quots), Sum(rems), d, g);
  }

  lemma AddDivided(q: int, r: int, t: int, quots: int, rems: int, terms: int, d: int, g: int)
    requires q * d + r == g * t && quots * d + rems == g * terms
    ensures (q + quots) * d + (r + rems) == g * (t + terms)
  {
    Distribute(q, quots, d);
    Distribute(t, terms, g);
  }

  lemma LeftOver(quots: int, rems: int, d: int, g: int)
    ensures quots * d + rems == g * d ==> rems == (g - quots) * d
  {
    Distribute(g, -quots, d);
  }

  /** The remainders add up to the leftover lamports, scaled by the rate total. */
  lemma {:induction false} RemaindersTotal(gross: nat, weights: seq<nat>)
    requires Apportionable(weights)
    ensures Sum(Remainders(gross, weights)) == Leftover(gross, weights) * Sum(weights)
  {
    var quots, rems, d := Floors(gross, weights), Remainders(gross, weights), Sum(weights);
    forall i | 0 <= i < |weights| ensures quots[i] * d + rems[i] == gross * weights[i] {
      QuotientRemainder(gross * weights[i], d);
    }
    SumDivided(quots, rems, weights, d, gross);
  }

  lemma QuotientRemainder(a: int, d: int)
    requires 0 < d
    ensures a / d * d + a % d == a
  {
  }

  lemma {:induction false} SumBelow(s: seq<int>, bound: nat)
    requires forall i :: 0 <= i < |s| ==> 0 <= s[i] < bound
    ensures 0 <= Sum(s) <= |s| * bound && (s != [] ==> Sum(s) < |s| * bound)
  {
    if s != [] {
      SumBelow(s[1..], bound);
      assert |s| * bound == |s[1..]| * bound + bound;
    }
  }

  /** A table adding up to `left` times a bound on its entries: `left` is below the length. */
  lemma {:induction false} LeftoverBelowLength(rems: seq<nat>, left: int, bound: nat)
    requires rems != [] && forall i :: 0 <= i < |rems| ==> rems[i] < bound
    requires Sum(rems) == left * bound
    ensures 0 <= left < |rems|
  {
    SumBelow(rems, bound);
    Cancel(0, left, bound);
    Cancel(left, |rems|, bound);
  }

  /** ... and only positive entries are ranked before position `left`. */
  lemma {:induction false} WinnerPositive(rems: seq<nat>, weights: seq<nat>, left: int, bound: nat, k: nat)
    requires |rems| == |weights| && k < |rems| && k < left
    requires forall i :: 0 <= i < |rems| ==> rems[i] < bound
    requires Sum(rems) == left * bound
    ensures 0 < rems[Ranked(rems, weights, |weights|)[k]]
  {
    if rems[Ranked(rems, weights, |weights|)[k]] == 0 {
      ZeroTail(rems, weights, k, bound);
      RankedSum(rems, weights, |weights|);
      assert rems[..|rems|] == rems;
      Cancel(left, k, bound);
    }
  }

  lemma {:induction false} RankedDescending(rems: seq<nat>, weights: seq<nat>, k: nat, m: nat)
    requires |rems| == |weights| && k <= m < |rems|
    ensures rems[Ranked(rems, weights, |weights|)[m]] <= rems[Ranked(rems, weights, |weights|)[k]]
  {
    RankedSorted(rems, weights, |weights|);
    SortedDescending(rems, weights, Ranked(rems, weights, |weights|), k, m);
  }

  lemma SortedDescending(rems: seq<nat>, weights: seq<nat>, order: seq<nat>, k: nat, m: nat)
    requires |rems| == |weights| && Indices(order, |weights|) && Sorted(rems, weights, order)
    requires k <= m < |order|
    ensures rems[order[m]] <= rems[order[k]]
  {
    assert k < m ==> Before(rems, weights, order[k], order[m]);
  }

  /** Once a ranked value is zero all later ones are, so the sum is at most `k` times the bound. */
  lemma {:induction false} ZeroTail(rems: seq<nat>, weights: seq<nat>, k: nat, bound: nat)
    requires |rems| == |weights| && k < |rems|
    requires forall i :: 0 <= i < |rems| ==> rems[i] < bound
    requires rems[Ranked(rems, weights, |weights|)[k]] == 0
    ensures Sum(Pick(rems, Ranked(rems, weights, |weights|))) <= k * bound
  {
    var picked := Pick(rems, Ranked(rems, weights, |weights|));
    forall m | k <= m < |picked| ensures picked[m] == 0 {
      RankedDescending(rems, weights, k, m);
    }
    SumOfZeroTail(picked, k, bound);
  }

  lemma {:induction false} SumOfZeroTail(s: seq<int>, k: nat, bound: nat)
    requires k <= |s| && forall i :: 0 <= i < |s| ==> 0 <= s[i] < bound
    requires forall i :: k <= i < |s| ==> s[i] == 0
    ensures Sum(s) <= k * bound
  {
    SumSplit(s, k);
    AllZero(s[k..]);
    SumBelow(s[..k], bound);
  }

  lemma Cancel(x: int, y: int, bound: nat)
    requires 0 < bound
    ensures x * bound <= y * bound ==> x <= y
    ensures x * bound < y * bound ==> x < y
  {
    if y < x {
      Distribute(x, -y, bound);
      MulMono(1, x - y, bound);
    }
  }

  /**
   The leftover loop never runs past the list, and every recipient it reaches has a
   positive remainder.
   */
  lemma LeftoverReachesOnlyRemainders(gross: nat, weights: seq<nat>)
    requires Apportionable(weights)
    ensures 0 <= Leftover(gross, weights) < |weights|
    ensures forall k :: 0 <= k < Leftover(gross, weights)
              ==> 0 < FractionalPart(gross, weights, Ranking(gross, weights)[k])
  {
    RemaindersTotal(gross, weights);
    var rems, left := Remainders(gross, weights), Leftover(gross, weights);
    LeftoverBelowLength(rems, left, Sum(weights));
    forall k | 0 <= k < left ensures 0 < rems[Ranking(gross, weights)[k]] {
      WinnerPositive(rems, weights, left, Sum(weights), k);
    }
  }

  lemma {:induction false} AllZero(s: seq<int>)
    requires forall i :: 0 <= i < |s| ==> s[i] == 0
    ensures Sum(s) == 0
  {
    if s != [] {
      AllZero(s[1..]);
    }
  }

  predicate Distinct(s: seq<nat>) {
    forall a, b :: 0 <= a < b < |s| ==> s[a] != s[b]
  }

  lemma {:induction false} BumpTotal(amounts: seq<nat>, winners: seq<nat>)
    requires Indices(winners, |amounts|)
    ensures Sum(Bump(amounts, winners)) == Sum(amounts) + |winners|
  {
    if winners != [] {
      var front, w := winners[..|winners| - 1], winners[|winners| - 1];
      BumpTotal(amounts, front);
      var before := Bump(amounts, front);
      SumUpdate(before, w, before[w] + 1);
    }
  }

  lemma {:induction false} BumpAt(amounts: seq<nat>, winners: seq<nat>, i: nat)
    requires Indices(winners, |amounts|) && Distinct(winners) && i < |amounts|
    ensures Bump(amounts, winners)[i] == amounts[i] + (if i in winners then 1 else 0)
  {
    if winners != [] {
      var front, w := winners[..|winners| - 1], winners[|winners| - 1];
      BumpAt(amounts, front, i);
      assert i in winners <==> i in front || i == w;
      assert w !in front;
    }
  }

  lemma {:induction false} RankedDistinct(rems: seq<nat>, weights: seq<nat>)
    requires |rems| == |weights|
    ensures Distinct(Ranked(rems, weights, |weights|))
    ensures forall i :: 0 <= i < |weights| ==> i in Ranked(rems, weights, |weights|)
  {
    var order := Ranked(rems, weights, |weights|);
    RankedSorted(rems, weights, |weights|);
    forall a, b | 0 <= a < b < |order| ensures order[a] != order[b] {
      assert Before(rems, weights, order[a], order[b]);
    }
    forall i | 0 <= i < |weights| ensures i in order {
      RankedContains(rems, weights, |weights|, i);
    }
  }

  /** With a remainder at least as large and a larger rate, `i` wins whenever `j` does. */
  lemma {:induction false} LargerWinsFirst(rems: seq<nat>, weights: seq<nat>, left: nat, i: nat, j: nat)
    requires |rems| == |weights| && i < |weights| && j < |weights| && left <= |weights|
    requires rems[j] <= rems[i] && weights[j] < weights[i]
    requires j in Ranked(rems, weights, |weights|)[..left]
    ensures i in Ranked(rems, weights, |weights|)[..left]
  {
    var order := Ranked(rems, weights, |weights|);
    RankedDistinct(rems, weights);
    RankedSorted(rems, weights, |weights|);
    var b :| 0 <= b < left && order[b] == j;
    assert i in order;
    var a :| 0 <= a < |order| && order[a] == i;
    if b < a { assert false; }
    assert order[..left][a] == i;
  }

  function Winners(gross: nat, weights: seq<nat>): (winners: seq<nat>)
    requires Apportionable(weights) && 0 <= Leftover(gross, weights) <= |weights|
    ensures Indices(winners, |weights|)
  {
    Ranking(gross, weights)[..Leftover(gross, weights)]
  }

  lemma AllocationAt(gross: nat, weights: seq<nat>, i: nat)
    requires Apportionable(weights) && i < |weights|
    requires 0 <= Leftover(gross, weights) <= |weights|
    ensures Allocation(gross, weights)[i]
         == Floor(gross, weights, i) + (if i in Winners(gross, weights) then 1 else 0)
  {
    RankedDistinct(Remainders(gross, weights), weights);
    BumpAt(Floors(gross, weights), Winners(gross, weights), i);
  }

  /**
   Who gets a leftover lamport: if `i` does and `j` does not, then `i` has the larger
   fractional part, or the same and the larger rate, or the same and comes first.
   */
  lemma {:induction false} LeftoverOrder(gross: nat, weights: seq<nat>, i: nat, j: nat)
    requires Apportionable(weights) && i < |weights| && j < |weights|
    requires 0 <= Leftover(gross, weights) <= |weights|
    requires gross * weights[i] / Sum(weights) < Allocation(gross, weights)[i]
    requires Allocation(gross, weights)[j] == gross * weights[j] / Sum(weights)
    ensures var fi, fj := gross * weights[i] % Sum(weights), gross * weights[j] % Sum(weights);
      fj < fi || (fi == fj && (weights[j] < weights[i] || (weights[i] == weights[j] && i < j)))
  {
    AllocationAt(gross, weights, i);
    AllocationAt(gross, weights, j);
    var rems, order, left := Remainders(gross, weights), Ranking(gross, weights), Leftover(gross, weights);
    RankedSorted(rems, weights, |weights|);
    RankedContains(rems, weights, |weights|, j);
    var a :| 0 <= a < left && order[a] == i;
    var b :| 0 <= b < |order| && order[b] == j;
    forall x | 0 <= x < left ensures order[x] != j {
      assert order[x] in order[..left];
    }
    assert Before(rems, weights, order[a], order[b]);
  }

  lemma WinnerHasRemainder(gross: nat, weights: seq<nat>, i: nat)
    requires Apportionable(weights) && i < |weights|
    requires 0 <= Leftover(gross, weights) <= |weights| && i in Winners(gross, weights)
    ensures 0 < FractionalPart(gross, weights, i)
  {
    LeftoverReachesOnlyRemainders(gross, weights);
    var k :| 0 <= k < Leftover(gross, weights) && Ranking(gross, weights)[k] == i;
  }

  lemma LargerShare(gross: nat, weights: seq<nat>, i: nat, j: nat)
    requires Apportionable(weights) && i < |weights| && j < |weights| && weights[j] < weights[i]
    ensures Floor(gross, weights, j) <= Floor(gross, weights, i)
    ensures Floor(gross, weights, j) < Floor(gross, weights, i)
         || FractionalPart(gross, weights, j) <= FractionalPart(gross, weights, i)
  {
    MulMono(weights[j], weights[i], gross);
    DivMono(gross * weights[j], gross * weights[i], Sum(weights));
  }

  lemma LargerRateFirst(gross: nat, weights: seq<nat>, i: nat, j: nat)
    requires Apportionable(weights) && i < |weights| && j < |weights| && weights[j] < weights[i]
    requires 0 <= Leftover(gross, weights) <= |weights|
    ensures Allocation(gross, weights)[j] <= Allocation(gross, weights)[i]
  {
    AllocationAt(gross, weights, i);
    AllocationAt(gross, weights, j);
    LargerShare(gross, weights, i, j);
    if Floor(gross, weights, i) == Floor(gross, weights, j) && j in Winners(gross, weights) {
      LargerWinsFirst(Remainders(gross, weights), weights, Leftover(gross, weights), i, j);
    }
  }

  lemma AllocationSum(gross: nat, weights: seq<nat>)
    requires Apportionable(weights) && 0 <= Leftover(gross, weights) <= |weights|
    ensures Sum(Allocation(gross, weights)) == gross
  {
    BumpTotal(Floors(gross, weights), Winners(gross, weights));
  }

  /** Floor or ceiling, the latter only where the share is not whole; nothing at rate zero. */
  lemma AllocationShape(gross: nat, weights: seq<nat>, i: nat)
    requires Apportionable(weights) && i < |weights|
    requires 0 <= Leftover(gross, weights) <= |weights|
    ensures Allocation(gross, weights)[i] - Floor(gross, weights, i)
         in (if 0 < FractionalPart(gross, weights, i) then {0, 1} else {0})
    ensures weights[i] == 0 ==> Allocation(gross, weights)[i] == 0
  {
    AllocationAt(gross, weights, i);
    if i in Winners(gross, weights) {
      WinnerHasRemainder(gross, weights, i);
    }
    if weights[i] == 0 {
      DivIs(gross * weights[i], Sum(weights), 0);
    }
  }

  /**
   The apportionment in full: it conserves the gross, pays the floor or the ceiling of
   every exact share (the ceiling only where the share is not whole), pays nothing at
   rate zero, and never pays a larger rate less than a smaller one.
   */
  lemma {:induction false} AllocationIsFair(gross: nat, weights: seq<nat>)
    requires 0 < Sum(weights)
    ensures 0 <= Leftover(gross, weights) < |weights|
    ensures Sum(Allocation(gross, weights)) == gross
    ensures forall i :: 0 <= i < |weights|
              ==> Allocation(gross, weights)[i] - Floor(gross, weights, i)
                  in (if 0 < FractionalPart(gross, weights, i) then {0, 1} else {0})
    ensures forall i :: 0 <= i < |weights| && weights[i] == 0 ==> Allocation(gross, weights)[i] == 0
    ensures forall i, j :: 0 <= i < |weights| && 0 <= j < |weights| && weights[j] < weights[i]
              ==> Allocation(gross, weights)[j] <= Allocation(gross, weights)[i]
  {
    LeftoverReachesOnlyRemainders(gross, weights);
    AllocationSum(gross, weights);
    forall i | 0 <= i < |weights|
      ensures Allocation(gross, weights)[i] - Floor(gross, weights, i)
           in (if 0 < FractionalPart(gross, weights, i) then {0, 1} else {0})
      ensures weights[i] == 0 ==> Allocation(gross, weights)[i] == 0
    {
      AllocationShape(gross, weights, i);
    }
    forall i, j | 0 <= i < |weights| && 0 <= j < |weights| && weights[j] < weights[i]
      ensures Allocation(gross, weights)[j] <= Allocation(gross, weights)[i]
    {
      LargerRateFirst(gross, weights, i, j);
    }
  }

  /** The source's loop: floor every share, rank the remainders, hand out what is left. */
  method AllocateLamports(gross: nat, weights: seq<nat>) returns (amounts: seq<nat>)
    requires Apportionable(weights)
    ensures 0 <= Leftover(gross, weights) < |weights|
    ensures amounts == Allocation(gross, weights)
  {
    LeftoverReachesOnlyRemainders(gross, weights);
    amounts := Floors(gross, weights);
    var order := Ranking(gross, weights);
    var remaining := gross - Sum(amounts);
    for index := 0 to remaining
      invariant |amounts| == |weights|
      invariant amounts == Bump(Floors(gross, weights), order[..index])
    {
      assert order[..index + 1][..index] == order[..index];
      amounts := amounts[order[index] := amounts[order[index]] + 1];
    }
  }
}
