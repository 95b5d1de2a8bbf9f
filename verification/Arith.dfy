/** Floor division and sums: the facts every money module rests on. */
module Arith {

  const U64_LIMIT: nat := 0x1_0000_0000_0000_0000
  const U32_LIMIT: nat := 0x1_0000_0000

  lemma MulMono(a: nat, b: nat, c: nat)
    requires a <= b
    ensures a * c <= b * c
  {
  }

  lemma CancelFactor(x: int, y: int, d: int)
    requires 0 < d && x * d < y * d + d
    ensures x <= y
  {
    if y + 1 <= x {
      assert (x - (y + 1)) * d == x * d - y * d - d;
      MulMono(0, x - (y + 1), d);
      assert false;
    }
  }

  lemma DivIs(a: int, d: int, q: int)
    requires 0 < d && q * d <= a < q * d + d
    ensures a / d == q
  {
    var r := a - q * d;
    assert a == q * d + r;
    var q' := a / d;
    var r' := a % d;
    assert a == q' * d + r';
    assert (q - q') * d == r' - r;
    if q < q' {
      assert (q' - q) * d >= d by { MulMono(1, q' - q, d); }
      assert false;
    } else if q' < q {
      assert (q - q') * d >= d by { MulMono(1, q - q', d); }
      assert false;
    }
  }

  lemma DivBounds(a: int, d: int)
    requires 0 < d
    ensures a / d * d <= a < a / d * d + d
  {
  }

  function Quotient(a: nat, d: nat): (q: nat)
    requires 0 < d
    ensures q == a / d && q * d <= a < q * d + d
  {
    DivBounds(a, d);
    CancelFactor(0, a / d, d);
    a / d
  }

  function Remainder(a: nat, d: nat): (r: nat)
    requires 0 < d
    ensures r == a % d < d && a == Quotient(a, d) * d + r
  {
    a - Quotient(a, d) * d
  }

  lemma DivMono(a: int, b: int, d: int)
    requires 0 < d && a <= b
    ensures a / d <= b / d
  {
    DivBounds(a, d);
    DivBounds(b, d);
    CancelFactor(a / d, b / d, d);
  }

  /** Floors lose at most one unit when two dividends are added. */
  lemma DivSum(a: int, b: int, d: int)
    requires 0 < d
    ensures a / d + b / d <= (a + b) / d <= a / d + b / d + 1
  {
    var q := a / d + b / d;
    assert q * d == a / d * d + b / d * d;
    var r := a % d + b % d;
    assert a + b == q * d + r;
    if r < d {
      DivIs(a + b, d, q);
    } else {
      assert (q + 1) * d == q * d + d;
      DivIs(a + b, d, q + 1);
    }
  }

  /** Which of the two bounds of `DivSum` is met is decided by the remainders. */
  lemma DivSumExact(a: int, b: int, d: int)
    requires 0 < d
    ensures (a + b) / d == a / d + b / d + (if a % d + b % d >= d then 1 else 0)
  {
    var q := a / d + b / d;
    assert q * d == a / d * d + b / d * d;
    assert a + b == q * d + (a % d + b % d);
    if a % d + b % d < d {
      DivIs(a + b, d, q);
    } else {
      assert (q + 1) * d == q * d + d;
      DivIs(a + b, d, q + 1);
    }
  }

  lemma DivMultiple(k: int, d: int)
    requires 0 < d
    ensures k * d / d == k
  {
    DivIs(k * d, d, k);
  }

  function Sum(s: seq<int>): int {
    if s == [] then 0 else s[0] + Sum(s[1..])
  }

  lemma {:induction false} SumAppend(s: seq<int>, x: int)
    ensures Sum(s + [x]) == Sum(s) + x
  {
    if s == [] {
      assert s + [x] == [x];
    } else {
      assert (s + [x])[1..] == s[1..] + [x];
      SumAppend(s[1..], x);
    }
  }

  lemma {:induction false} SumConcat(s: seq<int>, t: seq<int>)
    ensures Sum(s + t) == Sum(s) + Sum(t)
  {
    if s == [] {
      assert s + t == t;
    } else {
      assert (s + t)[1..] == s[1..] + t;
      SumConcat(s[1..], t);
    }
  }

  /** The sum of a prefix grows by the next element. */
  lemma SumTake(s: seq<int>, k: nat)
    requires k < |s|
    ensures Sum(s[..k + 1]) == Sum(s[..k]) + s[k]
  {
    assert s[..k + 1] == s[..k] + [s[k]];
    SumAppend(s[..k], s[k]);
  }

  lemma {:induction false} SumSplit(s: seq<int>, k: nat)
    requires k <= |s|
    ensures Sum(s) == Sum(s[..k]) + Sum(s[k..])
  {
    assert s == s[..k] + s[k..];
    SumConcat(s[..k], s[k..]);
  }

  lemma {:induction false} SumUpdate(s: seq<int>, k: nat, x: int)
    requires k < |s|
    ensures Sum(s[k := x]) == Sum(s) - s[k] + x
  {
    SumSplit(s, k + 1);
    SumTake(s, k);
    SumSplit(s[k := x], k + 1);
    SumTake(s[k := x], k);
    assert s[k := x][..k] == s[..k];
    assert s[k := x][k + 1..] == s[k + 1..];
  }

  lemma {:induction false} SumNonNegative(s: seq<int>)
    requires forall i :: 0 <= i < |s| ==> 0 <= s[i]
    ensures 0 <= Sum(s)
    ensures forall i :: 0 <= i < |s| ==> s[i] <= Sum(s)
  {
    if s != [] {
      SumNonNegative(s[1..]);
      forall i | 0 <= i < |s| ensures s[i] <= Sum(s) {
        if 0 < i { assert s[i] == s[1..][i - 1]; }
      }
    }
  }

  /** Termwise domination carries over to the sums. */
  lemma {:induction false} SumMono(s: seq<int>, t: seq<int>)
    requires |s| == |t| && forall i :: 0 <= i < |s| ==> s[i] <= t[i]
    ensures Sum(s) <= Sum(t)
  {
    if s != [] {
      SumMono(s[1..], t[1..]);
    }
  }
}
