/** Decimal numbers as text: digits, canonical spelling, and the grammar of plain amounts. */
module DecimalText {
  import opened Wrappers
  import Arith

  function Pow10(k: nat): (p: nat)
    ensures 0 < p
  {
    if k == 0 then 1 else 10 * Pow10(k - 1)
  }

  lemma {:induction false} Pow10Sum(a: nat, b: nat)
    ensures Pow10(a + b) == Pow10(a) * Pow10(b)
    decreases b
  {
    if b != 0 {
      Pow10Sum(a, b - 1);
      Regroup(10, Pow10(a), Pow10(b - 1));
    }
  }

  lemma Regroup(a: int, b: int, c: int)
    ensures a * (b * c) == b * (a * c) == a * b * c
  {
  }

  // ----- digits

  predicate IsDigit(c: char) { '0' <= c <= '9' }

  predicate Digits(s: string) {
    forall i :: 0 <= i < |s| ==> IsDigit(s[i])
  }

  function DigitOf(c: char): (d: nat)
    ensures d < 10
  {
    if IsDigit(c) then c as int - '0' as int else 0
  }

  function DigitChar(d: nat): (c: char)
    requires d < 10
    ensures IsDigit(c) && DigitOf(c) == d
  {
    ('0' as int + d) as char
  }

  function Value(s: string): nat {
    if s == "" then 0 else Value(s[..|s| - 1]) * 10 + DigitOf(s[|s| - 1])
  }

  function Print(n: nat): (s: string)
    ensures s != "" && Digits(s)
  {
    if n < 10 then [DigitChar(n)] else Print(n / 10) + [DigitChar(n % 10)]
  }

  function Zeros(k: nat): (s: string)
    ensures |s| == k && Digits(s)
  {
    seq(k, _ => '0')
  }

  /** No leading zero, except in "0" itself. */
  predicate IsWhole(s: string) {
    s != "" && Digits(s) && (s[0] == '0' ==> |s| == 1)
  }

  predicate NoFinalZero(s: string) {
    s != "" ==> s[|s| - 1] != '0'
  }

  lemma {:induction false} PrintedValue(n: nat)
    ensures Value(Print(n)) == n
  {
    if 10 <= n {
      PrintedValue(n / 10);
      assert Print(n)[..|Print(n)| - 1] == Print(n / 10);
    } else {
      assert Print(n)[..0] == "";
    }
  }

  lemma {:induction false} PrintedWhole(n: nat)
    ensures IsWhole(Print(n))
    ensures Print(n)[0] == '0' ==> n == 0
  {
    if 10 <= n {
      PrintedWhole(n / 10);
    }
  }

  lemma {:induction false} PrintedLength(n: nat, k: nat)
    requires 0 < k && n < Pow10(k)
    ensures |Print(n)| <= k
  {
    if 10 <= n {
      assert k != 1 by { assert Pow10(1) == 10; }
      PrintedLength(n / 10, k - 1);
    }
  }

  lemma {:induction false} ValueBound(s: string)
    ensures Value(s) < Pow10(|s|)
  {
    if s != "" {
      ValueBound(s[..|s| - 1]);
    }
  }

  lemma {:induction false} ValueConcat(a: string, b: string)
    ensures Value(a + b) == Value(a) * Pow10(|b|) + Value(b)
    decreases |b|
  {
    if b == "" {
      assert a + b == a;
    } else {
      var b' := b[..|b| - 1];
      assert (a + b)[..|a + b| - 1] == a + b';
      ValueConcat(a, b');
      NextDigit(Value(a), Pow10(|b'|), Value(b'), DigitOf(b[|b| - 1]));
    }
  }

  lemma NextDigit(a: nat, p: nat, b: nat, d: nat)
    ensures (a * p + b) * 10 + d == a * (10 * p) + (b * 10 + d)
  {
  }

  lemma {:induction false} ValueShifted(a: string, k: nat)
    ensures Value(a + Zeros(k)) == Value(a) * Pow10(k)
  {
    ValueConcat(a, Zeros(k));
    ValueZeros(k);
  }

  lemma {:induction false} ValueZeros(k: nat)
    ensures Value(Zeros(k)) == 0
  {
    if k != 0 {
      ValueZeros(k - 1);
      assert Zeros(k)[..k - 1] == Zeros(k - 1);
    }
  }

  lemma SameDigits(m: nat, x: nat, n: nat, y: nat)
    requires x < 10 && y < 10 && m * 10 + x == n * 10 + y
    ensures m == n && x == y
  {
  }

  /** Texts of the same length denote different numbers. */
  lemma {:induction false} ValueInjective(a: string, b: string)
    requires Digits(a) && Digits(b) && |a| == |b| && Value(a) == Value(b)
    ensures a == b
  {
    if a != "" {
      var n := |a| - 1;
      SameDigits(Value(a[..n]), DigitOf(a[n]), Value(b[..n]), DigitOf(b[n]));
      ValueInjective(a[..n], b[..n]);
      assert a == a[..n] + [a[n]] && b == b[..n] + [b[n]];
    }
  }

  lemma {:induction false} LeadingDigit(s: string)
    requires IsWhole(s) && s[0] != '0'
    ensures 0 < Value(s)
  {
    if 1 < |s| {
      LeadingDigit(s[..|s| - 1]);
    }
  }

  /** Printing the number a canonical text denotes gives the text back. */
  lemma {:induction false} WholePrints(s: string)
    requires IsWhole(s)
    ensures Print(Value(s)) == s
  {
    var front, d := s[..|s| - 1], DigitOf(s[|s| - 1]);
    assert s == front + [s[|s| - 1]];
    if |s| == 1 {
      assert Value(front) == 0;
    } else {
      LeadingDigit(front);
      WholePrints(front);
      assert Value(s) / 10 == Value(front) && Value(s) % 10 == d;
    }
  }

  // ----- fixed-point numbers

  function PadStart(s: string, k: nat): string {
    if |s| < k then Zeros(k - |s|) + s else s
  }

  function TrimZeros(s: string): (r: string)
    ensures |r| <= |s| && r == s[..|r|] && NoFinalZero(r)
    ensures forall i :: |r| <= i < |s| ==> s[i] == '0'
  {
    if s != "" && s[|s| - 1] == '0' then TrimZeros(s[..|s| - 1]) else s
  }

  lemma {:induction false} TrimAdded(s: string, k: nat)
    requires NoFinalZero(s)
    ensures TrimZeros(s + Zeros(k)) == s
  {
    if k == 0 {
      assert s + Zeros(k) == s;
    } else {
      TrimAdded(s, k - 1);
      assert (s + Zeros(k))[..|s| + k - 1] == s + Zeros(k - 1);
    }
  }

  lemma {:induction false} ZerosInFront(k: nat, s: string)
    ensures Value(Zeros(k) + s) == Value(s)
  {
    ValueZeros(k);
    ValueConcat(Zeros(k), s);
  }

  /** A number below 10^k, padded to k digits. */
  lemma {:induction false} PaddedDigits(n: nat, k: nat)
    requires n < Pow10(k)
    ensures var s := if k == 0 then "" else PadStart(Print(n), k); |s| == k && Digits(s) && Value(s) == n
  {
    if k != 0 {
      PrintedLength(n, k);
      PrintedValue(n);
      ZerosInFront(k - |Print(n)|, Print(n));
    }
  }

  /** The fraction `f` of a number with `d` decimals, counted in units of the last decimal. */
  function FractionUnits(f: string, d: nat): nat
    requires |f| <= d
  {
    Value(f + Zeros(d - |f|))
  }

  lemma FractionScaled(f: string, d: nat)
    requires |f| <= d
    ensures FractionUnits(f, d) == Value(f) * Pow10(d - |f|) < Pow10(d)
  {
    ValueConcat(f, Zeros(d - |f|));
    ValueZeros(d - |f|);
    ValueBound(f + Zeros(d - |f|));
  }

  /** Two ways of counting the units of "whole.fraction" agree. */
  lemma UnitsOfParts(whole: string, f: string, d: nat)
    requires |f| <= d
    ensures Value(whole + f) * Pow10(d - |f|) == Value(whole) * Pow10(d) + FractionUnits(f, d)
  {
    ValueConcat(whole, f);
    Pow10Sum(|f|, d - |f|);
    FractionScaled(f, d);
    DistributeOver(Value(whole), Pow10(|f|), Pow10(d - |f|), Value(f));
  }

  lemma DistributeOver(w: nat, p: nat, q: nat, v: nat)
    ensures (w * p + v) * q == w * (p * q) + v * q
  {
  }

  // ----- the grammar

  /** An amount as written: the fraction is empty when there is none. */
  datatype Parts = Parts(whole: string, fraction: string, exponent: Option<string>)

  predicate Signed(e: string) { e != "" && (e[0] == '+' || e[0] == '-') }

  predicate IsExponent(e: string) {
    var digits := if Signed(e) then e[1..] else e;
    digits != "" && Digits(digits)
  }

  function ExponentValue(e: string): int {
    if !Signed(e) then Value(e) else if e[0] == '-' then -(Value(e[1..]) as int) else Value(e[1..])
  }

  predicate WellFormed(p: Parts) {
    IsWhole(p.whole) && Digits(p.fraction) && (p.exponent.Some? ==> IsExponent(p.exponent.value))
  }

  function Dotted(fraction: string): string {
    if fraction == "" then "" else "." + fraction
  }

  function Tail(exponent: Option<string>): string {
    if exponent.None? then "" else "e" + exponent.value
  }

  function Render(p: Parts): string {
    p.whole + Dotted(p.fraction) + Tail(p.exponent)
  }

  function DigitRun(s: string): (n: nat)
    ensures n <= |s| && Digits(s[..n]) && (n < |s| ==> !IsDigit(s[n]))
  {
    if s == "" || !IsDigit(s[0]) then 0 else 1 + DigitRun(s[1..])
  }

  lemma {:induction false} RunOf(digits: string, rest: string)
    requires Digits(digits) && (rest != "" ==> !IsDigit(rest[0]))
    ensures DigitRun(digits + rest) == |digits|
  {
    if digits == "" {
      assert digits + rest == rest;
    } else {
      assert (digits + rest)[1..] == digits[1..] + rest;
      RunOf(digits[1..], rest);
    }
  }

  /** The scanner: digits, an optional fraction, an optional exponent, and nothing after. */
  function Match(text: string): (r: Option<Parts>)
    ensures r.Some? ==> WellFormed(r.value) && Render(r.value) == text
  {
    var n := DigitRun(text);
    if IsWhole(text[..n]) then MatchFraction(text, text[..n], text[n..]) else None
  }

  function MatchFraction(text: string, whole: string, rest: string): (r: Option<Parts>)
    requires IsWhole(whole) && text == whole + rest
    ensures r.Some? ==> WellFormed(r.value) && Render(r.value) == text
  {
    if rest != "" && rest[0] == '.' then
      var after := rest[1..];
      var m := DigitRun(after);
      assert rest == "." + after[..m] + after[m..];
      if m == 0 then None else MatchTail(text, whole, after[..m], after[m..])
    else
      MatchTail(text, whole, "", rest)
  }

  function MatchTail(text: string, whole: string, fraction: string, rest: string): (r: Option<Parts>)
    requires IsWhole(whole) && Digits(fraction) && text == whole + Dotted(fraction) + rest
    ensures r.Some? ==> WellFormed(r.value) && Render(r.value) == text
  {
    if rest == "" then Some(Parts(whole, fraction, None))
    else if rest[0] == 'e' && IsExponent(rest[1..]) then
      assert rest == "e" + rest[1..];
      Some(Parts(whole, fraction, Some(rest[1..])))
    else None
  }

  lemma MatchesTail(text: string, p: Parts)
    requires WellFormed(p) && text == p.whole + Dotted(p.fraction) + Tail(p.exponent)
    ensures MatchTail(text, p.whole, p.fraction, Tail(p.exponent)) == Some(p)
  {
    if p.exponent.Some? {
      assert Tail(p.exponent)[1..] == p.exponent.value;
    }
  }

  lemma AfterThePoint(fraction: string, tail: string)
    requires Digits(fraction) && (tail != "" ==> !IsDigit(tail[0]))
    ensures var after := ("." + fraction + tail)[1..];
      DigitRun(after) == |fraction| && after[..|fraction|] == fraction && after[|fraction|..] == tail
  {
    assert ("." + fraction + tail)[1..] == fraction + tail;
    RunOf(fraction, tail);
  }

  lemma MatchesFraction(text: string, p: Parts)
    requires WellFormed(p) && text == p.whole + (Dotted(p.fraction) + Tail(p.exponent))
    ensures MatchFraction(text, p.whole, Dotted(p.fraction) + Tail(p.exponent)) == Some(p)
  {
    var tail := Tail(p.exponent);
    assert text == p.whole + Dotted(p.fraction) + tail;
    MatchesTail(text, p);
    if p.fraction == "" {
      assert Dotted(p.fraction) + tail == tail;
    } else {
      AfterThePoint(p.fraction, tail);
    }
  }

  /** The scanner accepts every spelling the grammar allows, and reads it only one way. */
  lemma MatchesRendered(p: Parts)
    requires WellFormed(p)
    ensures Match(Render(p)) == Some(p)
  {
    var rest := Dotted(p.fraction) + Tail(p.exponent);
    assert Render(p) == p.whole + rest;
    RunOf(p.whole, rest);
    assert Render(p)[..|p.whole|] == p.whole && Render(p)[|p.whole|..] == rest;
    MatchesFraction(Render(p), p);
  }

  // ----- the canonical spelling of an amount with `d` decimals

  /** The shortest spelling: no exponent, and no zero at the end of the fraction. */
  predicate Canonical(p: Parts, d: nat) {
    WellFormed(p) && p.exponent.None? && |p.fraction| <= d && NoFinalZero(p.fraction)
  }

  function Units(p: Parts, d: nat): nat
    requires |p.fraction| <= d
  {
    Value(p.whole) * Pow10(d) + FractionUnits(p.fraction, d)
  }

  function WholeUnits(units: nat, d: nat): nat { Arith.Quotient(units, Pow10(d)) }

  function RestUnits(units: nat, d: nat): (r: nat)
    ensures r < Pow10(d)
  {
    Arith.Remainder(units, Pow10(d))
  }

  lemma {:induction false} UnitsSplit(units: nat, d: nat)
    ensures units == WholeUnits(units, d) * Pow10(d) + RestUnits(units, d)
  {
  }

  lemma {:induction false} UniqueSplit(units: nat, d: nat, q: nat, r: nat)
    requires r < Pow10(d) && units == q * Pow10(d) + r
    ensures WholeUnits(units, d) == q && RestUnits(units, d) == r
  {
    Arith.DivIs(units, Pow10(d), q);
    UnitsSplit(units, d);
  }

  function Spell(units: nat, d: nat): Parts {
    Parts(Print(WholeUnits(units, d)), SpellFraction(RestUnits(units, d), d), None)
  }

  function SpellFraction(rest: nat, d: nat): string {
    TrimZeros(PadStart(Print(rest), d))
  }

  lemma NoDecimals()
    ensures SpellFraction(0, 0) == ""
  {
    assert PadStart(Print(0), 0) == "0" && "0"[..0] == "";
    assert TrimZeros("") == "";
  }

  lemma {:induction false} SpelledFraction(rest: nat, d: nat)
    requires rest < Pow10(d)
    ensures var f := SpellFraction(rest, d);
      |f| <= d && Digits(f) && NoFinalZero(f) && FractionUnits(f, d) == rest
  {
    if d == 0 {
      NoDecimals();
      assert FractionUnits("", 0) == Value("" + Zeros(0)) == 0;
    } else {
      PaddedDigits(rest, d);
      TrimmedPadded(PadStart(Print(rest), d));
    }
  }

  lemma {:induction false} TrimmedPadded(s: string)
    ensures TrimZeros(s) + Zeros(|s| - |TrimZeros(s)|) == s
  {
  }

  lemma SpelledFractionUnique(f: string, d: nat)
    requires |f| <= d && Digits(f) && NoFinalZero(f)
    ensures SpellFraction(FractionUnits(f, d), d) == f
  {
    FractionScaled(f, d);
    if d == 0 {
      NoDecimals();
    } else {
      SpelledFromPadded(f, d, FractionUnits(f, d));
    }
  }

  lemma {:induction false} SpelledFromPadded(f: string, d: nat, rest: nat)
    requires 0 < d && |f| <= d && Digits(f) && NoFinalZero(f)
    requires rest < Pow10(d) && rest == Value(f + Zeros(d - |f|))
    ensures SpellFraction(rest, d) == f
  {
    PaddedDigits(rest, d);
    ValueInjective(PadStart(Print(rest), d), f + Zeros(d - |f|));
    TrimAdded(f, d - |f|);
  }

  /** The spelling printed for a number of units is canonical and denotes that number. */
  lemma SpellDenotes(units: nat, d: nat)
    ensures Canonical(Spell(units, d), d) && Units(Spell(units, d), d) == units
  {
    PrintedWhole(WholeUnits(units, d));
    PrintedValue(WholeUnits(units, d));
    SpelledFraction(RestUnits(units, d), d);
    UnitsSplit(units, d);
  }

  /** It is the only canonical spelling of that number. */
  lemma SpellIsUnique(q: Parts, d: nat)
    requires Canonical(q, d)
    ensures Spell(Units(q, d), d) == q
  {
    FractionScaled(q.fraction, d);
    UniqueSplit(Units(q, d), d, Value(q.whole), FractionUnits(q.fraction, d));
    WholePrints(q.whole);
    SpelledFractionUnique(q.fraction, d);
  }

  // ----- the grammar, character by character

  /** One or more characters from '0' to '9'. */
  predicate DigitsIn(text: string, i: nat, j: nat) {
    i < j <= |text| && forall k :: i <= k < j ==> 48 <= text[k] as int <= 57
  }

  /**
   The whole part ends at `i`, without a leading zero; a point with digits after it may follow,
   up to `j`; an `e` with digits after it, from `k` on, behind an optional sign, may follow that.
   */
  predicate Spelled(text: string, i: nat, j: nat, k: nat) {
    && DigitsIn(text, 0, i) && (text[0] == '0' ==> i == 1)
    && (j == i || (i < |text| && text[i] == '.' && DigitsIn(text, i + 1, j)))
    && (j == |text| || (j < |text| && text[j] == 'e' && DigitsIn(text, k, |text|)
                        && (k == j + 1 || (k == j + 2 && text[j + 1] in {'+', '-'}))))
  }

  lemma DigitsAreIn(text: string, i: nat, j: nat)
    requires i <= j <= |text|
    ensures i < j && Digits(text[i..j]) <==> DigitsIn(text, i, j)
  {
    if Digits(text[i..j]) {
      forall k | i <= k < j ensures 48 <= text[k] as int <= 57 {
        assert IsDigit(text[i..j][k - i]);
      }
    }
  }

  lemma {:induction false} ExponentIn(text: string, j: nat, k: nat)
    requires j < |text| && text[j] == 'e' && DigitsIn(text, k, |text|)
    requires k == j + 1 || (k == j + 2 && text[j + 1] in {'+', '-'})
    ensures IsExponent(text[j + 1..]) && text[j..] == "e" + text[j + 1..]
  {
    var e := text[j + 1..];
    DigitsAreIn(text, k, |text|);
    assert text[k..|text|] == if k == j + 1 then e else e[1..];
    if k == j + 1 {
      assert IsDigit(text[k]);
    }
  }

  lemma {:induction false} FractionIn(text: string, i: nat, j: nat)
    requires i < j <= |text| && text[i] == '.' && DigitsIn(text, i + 1, j)
    ensures Digits(text[i + 1..j]) && text[i..j] == Dotted(text[i + 1..j])
  {
    DigitsAreIn(text, i + 1, j);
  }

  lemma {:induction false} SpelledParts(text: string, i: nat, j: nat, k: nat) returns (p: Parts)
    requires Spelled(text, i, j, k)
    ensures WellFormed(p) && Render(p) == text
  {
    var fraction := if j == i then "" else text[i + 1..j];
    var exponent := if j == |text| then None else Some(text[j + 1..]);
    p := Parts(text[..i], fraction, exponent);
    DigitsAreIn(text, 0, i);
    assert text[0..i] == text[..i];
    if j != i {
      FractionIn(text, i, j);
    }
    if j != |text| {
      ExponentIn(text, j, k);
    }
    assert text[i..j] == Dotted(fraction) && text[j..] == Tail(exponent);
    ThreeSlices(text, i, j);
  }

  lemma ThreeSlices(text: string, i: nat, j: nat)
    requires i <= j <= |text|
    ensures text[..i] + text[i..j] + text[j..] == text
  {
  }

  lemma SlicesOf(a: string, b: string, c: string, text: string, i: nat, j: nat)
    requires text == a + b + c && i == |a| && j == i + |b|
    ensures j <= |text| && text[0..i] == a && text[i..j] == b && text[j..] == c
  {
  }

  lemma {:induction false} DottedIn(text: string, i: nat, j: nat, fraction: string)
    requires i <= j <= |text| && text[i..j] == Dotted(fraction) && Digits(fraction) && fraction != ""
    ensures i < j && text[i] == '.' && DigitsIn(text, i + 1, j)
  {
    assert text[i] == text[i..j][0] && text[i + 1..j] == fraction;
    DigitsAreIn(text, i + 1, j);
  }

  lemma {:induction false} TailIn(text: string, j: nat, e: string) returns (k: nat)
    requires j <= |text| && text[j..] == "e" + e && IsExponent(e)
    ensures j < |text| && text[j] == 'e' && DigitsIn(text, k, |text|)
    ensures k == j + 1 || (k == j + 2 && text[j + 1] in {'+', '-'})
  {
    k := if Signed(e) then j + 2 else j + 1;
    assert text[j] == text[j..][0] && text[j + 1] == text[j..][1];
    assert text[k..|text|] == if Signed(e) then e[1..] else e;
    DigitsAreIn(text, k, |text|);
  }

  lemma {:induction false} WellFormedIsSpelled(p: Parts) returns (i: nat, j: nat, k: nat)
    requires WellFormed(p)
    ensures Spelled(Render(p), i, j, k)
  {
    var text := Render(p);
    i := |p.whole|;
    j := i + |Dotted(p.fraction)|;
    k := 0;
    SlicesOf(p.whole, Dotted(p.fraction), Tail(p.exponent), text, i, j);
    DigitsAreIn(text, 0, i);
    if p.fraction != "" {
      DottedIn(text, i, j, p.fraction);
    }
    if p.exponent.Some? {
      k := TailIn(text, j, p.exponent.value);
    }
  }

  /** Exactly which texts the scanner accepts. */
  lemma AcceptedSpellings(text: string)
    ensures Match(text).Some? <==> exists i: nat, j: nat, k: nat :: Spelled(text, i, j, k)
  {
    if Match(text).Some? {
      var i, j, k := WellFormedIsSpelled(Match(text).value);
    }
    if i: nat, j: nat, k: nat :| Spelled(text, i, j, k) {
      var p := SpelledParts(text, i, j, k);
      MatchesRendered(p);
    }
  }
}
