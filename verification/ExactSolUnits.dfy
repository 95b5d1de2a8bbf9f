/** SOL amounts as text, read exactly: no lamport is invented or dropped. */
module ExactSolUnits {
  import opened Wrappers
  import opened DecimalText
  import Arith
  import ReceiptExport

  const MAX_SAFE: nat := 9007199254740991
  const MAX_LENGTH: nat := 64
  const MAX_SCALE: int := 400

  /** A text, or a number as the language spells it (the only kind that may have an exponent). */
  datatype Amount = Text(spelling: string) | Number(spelling: string)

  /** How many decimal places the digits of `p` must move to count lamports. */
  function Scale(p: Parts): int {
    9 + (if p.exponent.None? then 0 else ExponentValue(p.exponent.value)) - |p.fraction|
  }

  function Shift(n: nat, scale: int): Option<nat> {
    if 0 <= scale then Some(n * Pow10(scale))
    else if n % Pow10(-scale) != 0 then None
    else Some(n / Pow10(-scale))
  }

  function ExactSolLamports(a: Amount): Option<nat> {
    var m := if |a.spelling| <= MAX_LENGTH then Match(a.spelling) else None;
    if m.None? || (a.Text? && m.value.exponent.Some?) then None else LamportsOf(m.value)
  }

  function LamportsOf(p: Parts): Option<nat> {
    if Scale(p) < -MAX_SCALE || MAX_SCALE < Scale(p) then None
    else
      var units := Shift(Value(p.whole + p.fraction), Scale(p));
      if units.None? || MAX_SAFE < units.value then None else units
  }

  /** The power of ten a spelling ends with, its sign read off its first character. */
  function Exponent(p: Parts): int {
    if p.exponent.None? || p.exponent.value == "" then 0
    else
      var e := p.exponent.value;
      if e[0] == '-' then -(Value(e[1..]) as int) else if e[0] == '+' then Value(e[1..]) else Value(e)
  }

  lemma ScaleByExponent(p: Parts)
    requires WellFormed(p)
    ensures Scale(p) == 9 + Exponent(p) - |p.fraction|
  {
  }

  /**
   `p` denotes exactly `units` lamports: its digits, with the point moved to count lamports,
   are that number, and nothing is left over where digits are cut.
   */
  predicate Denotes(p: Parts, units: nat) {
    var places := 9 + Exponent(p) - |p.fraction|;
    if 0 <= places then units == Value(p.whole + p.fraction) * Pow10(places)
    else units * Pow10(-places) == Value(p.whole + p.fraction)
  }

  lemma {:induction false} ShiftIsExact(n: nat, scale: int, units: nat)
    ensures Shift(n, scale) == Some(units) <==>
      if 0 <= scale then units == n * Pow10(scale) else units * Pow10(-scale) == n
  {
    if scale < 0 {
      var p := Pow10(-scale);
      assert n == n / p * p + n % p;
      if n == units * p {
        Exactly(units, p);
      }
    }
  }

  lemma Exactly(k: nat, p: nat)
    requires 0 < p
    ensures k * p / p == k && k * p % p == 0
  {
    Arith.DivIs(k * p, p, k);
    var m := k * p;
    assert m == m / p * p + m % p;
  }

  /** `p` is how `a` is written, within the limits, and it denotes exactly `units` lamports. */
  predicate Reads(a: Amount, p: Parts, units: nat) {
    && WellFormed(p) && Render(p) == a.spelling && (a.Text? ==> p.exponent.None?)
    && |a.spelling| <= 64 && -400 <= 9 + Exponent(p) - |p.fraction| <= 400
    && units <= 9_007_199_254_740_991 && Denotes(p, units)
  }

  lemma ReadsMatched(a: Amount, p: Parts, units: nat)
    requires Match(a.spelling) == Some(p)
    ensures ExactSolLamports(a) == Some(units) <==> Reads(a, p, units)
  {
    LamportsExact(p, units);
    ScaleByExponent(p);
  }

  lemma LamportsExact(p: Parts, units: nat)
    requires WellFormed(p)
    ensures LamportsOf(p) == Some(units)
       <==> -MAX_SCALE <= Scale(p) <= MAX_SCALE && units <= MAX_SAFE && Denotes(p, units)
  {
    ScaleByExponent(p);
    ShiftIsExact(Value(p.whole + p.fraction), Scale(p), units);
  }

  /**
   Reading is exact. A text is accepted, for `units` lamports, if and only if it is a spelling
   the grammar allows, within the size limits, that denotes exactly that many lamports.
   */
  lemma ReadsExactly(a: Amount, units: nat)
    ensures ExactSolLamports(a) == Some(units) <==> exists p: Parts :: Reads(a, p, units)
  {
    if ExactSolLamports(a) == Some(units) {
      ReadsMatched(a, Match(a.spelling).value, units);
    }
    if p: Parts :| Reads(a, p, units) {
      MatchesRendered(p);
      ReadsMatched(a, p, units);
    }
  }

  /** For canonical spellings "denotes" is the plain count of lamports. */
  lemma CanonicalDenotes(p: Parts, units: nat)
    requires Canonical(p, 9)
    ensures Denotes(p, units) <==> units == Units(p, 9)
  {
    UnitsOfParts(p.whole, p.fraction, 9);
  }

  lemma {:induction false} SpelledLength(units: nat)
    requires units <= MAX_SAFE
    ensures |Render(Spell(units, 9))| <= MAX_LENGTH
  {
    assert Pow10(8) == 100000000;
    Pow10Sum(8, 8);
    assert Pow10(9) == 1000000000;
    SpellDenotes(units, 9);
    PrintedLength(units / 1000000000, 16);
  }

  /** Reading a printed amount gives the same lamports, for every amount reading may return. */
  lemma ReadUndoesPrint(units: nat)
    requires units <= MAX_SAFE
    ensures var printed := ReceiptExport.FormatReceiptSol(ReceiptExport.Big(units));
      printed.Some? && ExactSolLamports(Text(printed.value)) == Some(units)
  {
    var p := Spell(units, 9);
    SpellDenotes(units, 9);
    SpelledLength(units);
    MatchesRendered(p);
    CanonicalDenotes(p, units);
    ReadsMatched(Text(Render(p)), p, units);
  }

  /**
   Printing what was read gives the one canonical spelling of that amount: it reads back as
   the same amount, and no other canonical text does.
   */
  lemma PrintIsCanonical(a: Amount)
    requires ExactSolLamports(a).Some?
    ensures var units := ExactSolLamports(a).value;
      && Canonical(Spell(units, 9), 9)
      && ExactSolLamports(Text(Render(Spell(units, 9)))) == Some(units)
      && (forall p: Parts :: Canonical(p, 9) && ExactSolLamports(Text(Render(p))) == Some(units) ==> p == Spell(units, 9))
  {
    var units := ExactSolLamports(a).value;
    SpellDenotes(units, 9);
    ReadUndoesPrint(units);
    forall p: Parts | Canonical(p, 9) && ExactSolLamports(Text(Render(p))) == Some(units)
      ensures p == Spell(units, 9)
    {
      MatchesRendered(p);
      ReadsMatched(Text(Render(p)), p, units);
      CanonicalDenotes(p, units);
      SpellIsUnique(p, 9);
    }
  }
}
