/** Token amounts as text, and planning a burn over several token accounts. */
module FundedBurn {
  import opened Wrappers
  import opened DecimalText

  datatype Error = BadDecimals | NotAnAmount | TooManyDecimals | NotPositive | TooMuch

  const MAX_DECIMALS: int := 18

  // ----- amounts as text

  /** White space and line ends, as trimming removes them. */
  predicate IsSpace(c: char) {
    || '\t' <= c <= '\r' || c == ' ' || c == '\U{a0}' || c == '\U{1680}' || '\U{2000}' <= c <= '\U{200a}'
    || c == '\U{2028}' || c == '\U{2029}' || c == '\U{202f}' || c == '\U{205f}' || c == '\U{3000}' || c == '\U{feff}'
  }

  predicate Blank(s: string) {
    forall i :: 0 <= i < |s| ==> IsSpace(s[i])
  }

  function TrimStart(s: string): string {
    if s != "" && IsSpace(s[0]) then TrimStart(s[1..]) else s
  }

  function TrimEnd(s: string): string {
    if s != "" && IsSpace(s[|s| - 1]) then TrimEnd(s[..|s| - 1]) else s
  }

  function Trim(s: string): string { TrimEnd(TrimStart(s)) }

  lemma {:induction false} TrimStartBlank(blank: string, text: string)
    requires Blank(blank) && text != "" && !IsSpace(text[0])
    ensures TrimStart(blank + text) == text
  {
    if blank == "" {
      assert blank + text == text;
    } else {
      assert (blank + text)[1..] == blank[1..] + text;
      TrimStartBlank(blank[1..], text);
    }
  }

  lemma {:induction false} TrimEndBlank(text: string, blank: string)
    requires Blank(blank) && text != "" && !IsSpace(text[|text| - 1])
    ensures TrimEnd(text + blank) == text
  {
    if blank == "" {
      assert text + blank == text;
    } else {
      assert (text + blank)[..|text + blank| - 1] == text + blank[..|blank| - 1];
      TrimEndBlank(text, blank[..|blank| - 1]);
    }
  }

  function ParseTokenAmount(value: string, decimals: int): Result<nat, Error> {
    if decimals < 0 || MAX_DECIMALS < decimals then Err(BadDecimals)
    else
      var m := Match(Trim(value));
      if m.None? then Err(NotAnAmount) else AmountOf(m.value, decimals)
  }

  function AmountOf(p: Parts, decimals: nat): Result<nat, Error> {
    if p.exponent.Some? then Err(NotAnAmount)
    else if decimals < |p.fraction| then Err(TooManyDecimals)
    else
      var fraction := (p.fraction + Zeros(decimals))[..decimals];
      var amount := Value(p.whole) * Pow10(decimals) + Value(fraction);
      if amount == 0 then Err(NotPositive) else Ok(amount)
  }

  /** Padding on the right and cutting counts the fraction in base units. */
  lemma AmountIsUnits(p: Parts, decimals: nat)
    requires p.exponent.None? && |p.fraction| <= decimals
    ensures AmountOf(p, decimals) == if Units(p, decimals) == 0 then Err(NotPositive) else Ok(Units(p, decimals))
  {
    assert (p.fraction + Zeros(decimals))[..decimals] == p.fraction + Zeros(decimals - |p.fraction|);
  }

  function Cut(s: string, n: nat): string {
    if n <= |s| then s[..n] else s
  }

  /** The parts of an amount with at most `digits` digits after the point, cut without rounding. */
  function CutParts(amount: nat, decimals: nat, digits: nat): Parts {
    var p := Spell(amount, decimals);
    p.(fraction := Cut(p.fraction, digits))
  }

  function FormatTokenBaseUnits(amount: nat, decimals: nat, digits: nat): string {
    Render(CutParts(amount, decimals, digits))
  }

  lemma PlainTextIsDigits(p: Parts)
    requires WellFormed(p) && p.exponent.None?
    ensures var t := Render(p); t != "" && !IsSpace(t[0]) && !IsSpace(t[|t| - 1])
  {
    assert IsDigit(Render(p)[0]);
    assert IsDigit(Render(p)[|Render(p)| - 1]);
  }

  lemma TrimBetween(before: string, t: string, after: string)
    requires Blank(before) && Blank(after) && t != "" && !IsSpace(t[0]) && !IsSpace(t[|t| - 1])
    ensures Trim(before + t + after) == t
  {
    assert before + t + after == before + (t + after);
    TrimStartBlank(before, t + after);
    TrimEndBlank(t, after);
  }

  /** Reading a plain spelling with anything blank around it. */
  lemma ParsesPlain(p: Parts, decimals: nat, before: string, after: string)
    requires WellFormed(p) && p.exponent.None? && |p.fraction| <= decimals <= MAX_DECIMALS
    requires Blank(before) && Blank(after)
    ensures ParseTokenAmount(before + Render(p) + after, decimals)
         == if Units(p, decimals) == 0 then Err(NotPositive) else Ok(Units(p, decimals))
  {
    PlainTextIsDigits(p);
    TrimBetween(before, Render(p), after);
    MatchesRendered(p);
    AmountIsUnits(p, decimals);
  }

  lemma ParsesBare(p: Parts, decimals: nat)
    requires WellFormed(p) && p.exponent.None? && |p.fraction| <= decimals
    ensures ParseTokenAmount(Render(p), decimals)
         == if MAX_DECIMALS < decimals then Err(BadDecimals)
            else if Units(p, decimals) == 0 then Err(NotPositive) else Ok(Units(p, decimals))
  {
    if decimals <= MAX_DECIMALS {
      NothingAround(Render(p));
      ParsesPlain(p, decimals, "", "");
    }
  }

  lemma NothingAround(text: string)
    ensures "" + text + "" == text
  {
  }

  predicate PlainAmount(p: Parts, text: string, decimals: nat, amount: nat) {
    && WellFormed(p) && p.exponent.None? && Render(p) == text
    && |p.fraction| <= decimals && Units(p, decimals) == amount
  }

  /** Exactly which texts are accepted, and for how much. */
  lemma ParsesExactly(value: string, decimals: nat, amount: nat)
    ensures ParseTokenAmount(value, decimals) == Ok(amount) <==>
      && decimals <= 18 && 0 < amount
      && exists p: Parts :: PlainAmount(p, Trim(value), decimals, amount)
  {
    if ParseTokenAmount(value, decimals) == Ok(amount) {
      var p := Match(Trim(value)).value;
      AmountIsUnits(p, decimals);
      assert PlainAmount(p, Trim(value), decimals, amount);
    }
    if p: Parts :| decimals <= MAX_DECIMALS && 0 < amount && PlainAmount(p, Trim(value), decimals, amount) {
      MatchesRendered(p);
      AmountIsUnits(p, decimals);
    }
  }

  /** Cutting a fraction after `n` digits drops its remainder modulo 10^(d-n), nothing else. */
  lemma CutLoses(f: string, d: nat, n: nat) returns (kept: nat, lost: nat)
    requires |f| <= d && n <= d
    ensures FractionUnits(f, d) == kept * Pow10(d - n) + lost && lost < Pow10(d - n)
    ensures FractionUnits(Cut(f, n), d) == kept * Pow10(d - n)
  {
    var full := f + Zeros(d - |f|);
    kept, lost := Value(full[..n]), Value(full[n..]);
    SplitValue(full, n, d - n);
    CutValue(f, d, n, full[..n]);
  }

  lemma {:induction false} CutValue(f: string, d: nat, n: nat, front: string)
    requires |f| <= d && n <= d && front == (f + Zeros(d - |f|))[..n]
    ensures FractionUnits(Cut(f, n), d) == Value(front) * Pow10(d - n)
  {
    CutPadded(f, d, n);
    ValueShifted(front, d - n);
  }

  lemma {:induction false} SplitValue(s: string, n: nat, k: nat)
    requires |s| == n + k
    ensures Value(s) == Value(s[..n]) * Pow10(k) + Value(s[n..]) && Value(s[n..]) < Pow10(k)
  {
    assert s == s[..n] + s[n..];
    ValueConcat(s[..n], s[n..]);
    ValueBound(s[n..]);
  }

  lemma CutPadded(f: string, d: nat, n: nat)
    requires |f| <= d && n <= d
    ensures Cut(f, n) + Zeros(d - |Cut(f, n)|) == (f + Zeros(d - |f|))[..n] + Zeros(d - n)
  {
  }

  lemma CutSpelling(amount: nat, decimals: nat, digits: nat)
    ensures var p := CutParts(amount, decimals, digits);
      && WellFormed(p) && p.exponent.None? && |p.fraction| <= decimals
      && Value(p.whole) == WholeUnits(amount, decimals)
  {
    SpellDenotes(amount, decimals);
    PrintedValue(WholeUnits(amount, decimals));
  }

  lemma {:induction false} CutRoundsDown(amount: nat, decimals: nat, digits: nat)
    requires digits <= decimals
    requires |CutParts(amount, decimals, digits).fraction| <= decimals
    ensures Units(CutParts(amount, decimals, digits), decimals)
         == WholeUnits(amount, decimals - digits) * Pow10(decimals - digits)
  {
    var whole, rest := WholeUnits(amount, decimals), RestUnits(amount, decimals);
    CutSpelling(amount, decimals, digits);
    SpelledFraction(rest, decimals);
    var kept, lost := CutLoses(SpellFraction(rest, decimals), decimals, digits);
    UnitsSplit(amount, decimals);
    RoundedDown(amount, whole, rest, decimals, digits, kept, lost);
  }

  lemma RoundedDown(amount: nat, whole: nat, rest: nat, decimals: nat, digits: nat, kept: nat, lost: nat)
    requires digits <= decimals && amount == whole * Pow10(decimals) + rest
    requires rest == kept * Pow10(decimals - digits) + lost && lost < Pow10(decimals - digits)
    ensures whole * Pow10(decimals) + kept * Pow10(decimals - digits)
         == WholeUnits(amount, decimals - digits) * Pow10(decimals - digits)
  {
    var unit := Pow10(decimals - digits);
    Pow10Sum(digits, decimals - digits);
    DistributeOver(whole, Pow10(digits), unit, kept);
    UniqueSplit(amount, decimals - digits, whole * Pow10(digits) + kept, lost);
  }

  /**
   Reading a formatted amount: with `digits` digits shown, it gives the amount rounded down to
   that many digits, and nothing at all when that is zero.
   */
  lemma {:induction false} ParseOfFormat(amount: nat, decimals: nat, digits: nat, before: string, after: string)
    requires digits <= decimals <= MAX_DECIMALS && Blank(before) && Blank(after)
    ensures var kept := WholeUnits(amount, decimals - digits) * Pow10(decimals - digits);
      ParseTokenAmount(before + FormatTokenBaseUnits(amount, decimals, digits) + after, decimals)
      == if kept == 0 then Err(NotPositive) else Ok(kept)
  {
    CutSpelling(amount, decimals, digits);
    CutRoundsDown(amount, decimals, digits);
    ParsesPlain(CutParts(amount, decimals, digits), decimals, before, after);
  }

  /** With all digits shown, as by default, reading undoes formatting. */
  lemma ParseUndoesFormat(amount: nat, decimals: nat)
    requires 0 < amount && decimals <= MAX_DECIMALS
    ensures ParseTokenAmount(FormatTokenBaseUnits(amount, decimals, decimals), decimals) == Ok(amount)
  {
    var text := FormatTokenBaseUnits(amount, decimals, decimals);
    assert "" + text + "" == text;
    ParseOfFormat(amount, decimals, decimals, "", "");
    UnitsSplit(amount, 0);
  }

  lemma NothingCut(amount: nat, decimals: nat)
    ensures FormatTokenBaseUnits(amount, decimals, decimals) == Render(Spell(amount, decimals))
  {
    SpellDenotes(amount, decimals);
    var p := Spell(amount, decimals);
    assert p.(fraction := Cut(p.fraction, decimals)) == p;
  }

  /** Formatting what was read gives the one canonical spelling of the amount. */
  lemma FormatOfParse(p: Parts, decimals: nat, amount: nat)
    requires Canonical(p, decimals) && ParseTokenAmount(Render(p), decimals) == Ok(amount)
    ensures FormatTokenBaseUnits(amount, decimals, decimals) == Render(p)
  {
    ParsesBare(p, decimals);
    SpellIsUnique(p, decimals);
    NothingCut(amount, decimals);
  }

  // ----- burning from several accounts

  datatype Account = Account(address: string, amount: int)

  datatype Burn = Burn(address: string, amount: nat)

  function Min(a: int, b: int): int { if a < b then a else b }

  function Positive(a: int): nat { if a <= 0 then 0 else a }

  function Available(accounts: seq<Account>): nat {
    if accounts == [] then 0
    else Available(accounts[..|accounts| - 1]) + Positive(accounts[|accounts| - 1].amount)
  }

  /** What account `k` gives: all it has, or what the accounts before it leave to burn. */
  function Share(accounts: seq<Account>, amount: int, k: nat): nat
    requires k < |accounts|
  {
    Min(Positive(accounts[k].amount), Positive(amount - Available(accounts[..k])))
  }

  function Planned(accounts: seq<Account>, amount: int): seq<Burn> {
    if accounts == [] then []
    else
      var k := |accounts| - 1;
      Planned(accounts[..k], amount)
      + if Share(accounts, amount, k) == 0 then [] else [Burn(accounts[k].address, Share(accounts, amount, k))]
  }

  method PlanTokenAccountBurns(accounts: seq<Account>, amount: int) returns (r: Result<seq<Burn>, Error>)
    ensures r == if amount <= 0 then Err(NotPositive)
                 else if Available(accounts) < amount then Err(TooMuch)
                 else Ok(Planned(accounts, amount))
  {
    if amount <= 0 {
      return Err(NotPositive);
    }
    var remaining := amount;
    var burns: seq<Burn> := [];
    for k := 0 to |accounts|
      invariant remaining == Positive(amount - Available(accounts[..k]))
      invariant burns == Planned(accounts[..k], amount)
    {
      var account := accounts[k];
      PlannedStep(accounts, amount, k);
      if 0 < account.amount && 0 < remaining {
        var taken := if account.amount < remaining then account.amount else remaining;
        burns := burns + [Burn(account.address, taken)];
        remaining := remaining - taken;
      }
    }
    assert accounts[..|accounts|] == accounts;
    if 0 < remaining {
      return Err(TooMuch);
    }
    r := Ok(burns);
  }

  lemma {:induction false} PlannedStep(accounts: seq<Account>, amount: int, k: nat)
    requires k < |accounts|
    ensures Available(accounts[..k + 1]) == Available(accounts[..k]) + Positive(accounts[k].amount)
    ensures var share := Share(accounts, amount, k);
      Planned(accounts[..k + 1], amount) == Planned(accounts[..k], amount) + if share == 0 then [] else [Burn(accounts[k].address, share)]
  {
    assert accounts[..k + 1][..k] == accounts[..k];
  }

  function Burned(burns: seq<Burn>): nat {
    if burns == [] then 0 else Burned(burns[..|burns| - 1]) + burns[|burns| - 1].amount
  }

  /** A plan burns the amount asked for, or everything there is when that is less. */
  lemma {:induction false} PlanBurnsTheAmount(accounts: seq<Account>, amount: int)
    requires 0 < amount
    ensures Burned(Planned(accounts, amount)) == Min(amount, Available(accounts))
  {
    if accounts != [] {
      var k := |accounts| - 1;
      PlanBurnsTheAmount(accounts[..k], amount);
      var before, share := Planned(accounts[..k], amount), Share(accounts, amount, k);
      if share != 0 {
        var burn := Burn(accounts[k].address, share);
        assert (before + [burn])[..|before|] == before;
      } else {
        assert Planned(accounts, amount) == before;
      }
    }
  }

  function BurnedFrom(burns: seq<Burn>, address: string): nat {
    if burns == [] then 0
    else BurnedFrom(burns[..|burns| - 1], address)
         + if burns[|burns| - 1].address == address then burns[|burns| - 1].amount else 0
  }

  function HeldAt(accounts: seq<Account>, address: string): nat {
    if accounts == [] then 0
    else HeldAt(accounts[..|accounts| - 1], address)
         + if accounts[|accounts| - 1].address == address then Positive(accounts[|accounts| - 1].amount) else 0
  }

  /** No account gives more than it holds, and no burn is of nothing. */
  lemma {:induction false} PlanNeverOverdraws(accounts: seq<Account>, amount: int, address: string)
    ensures BurnedFrom(Planned(accounts, amount), address) <= HeldAt(accounts, address)
    ensures forall i :: 0 <= i < |Planned(accounts, amount)| ==> 0 < Planned(accounts, amount)[i].amount
  {
    if accounts != [] {
      var k := |accounts| - 1;
      PlanNeverOverdraws(accounts[..k], amount, address);
      var before, share := Planned(accounts[..k], amount), Share(accounts, amount, k);
      if share != 0 {
        BurnedOneMore(before, Burn(accounts[k].address, share), address);
      } else {
        assert Planned(accounts, amount) == before;
      }
    }
  }

  lemma {:induction false} BurnedOneMore(burns: seq<Burn>, burn: Burn, address: string)
    ensures BurnedFrom(burns + [burn], address) == BurnedFrom(burns, address) + (if burn.address == address then burn.amount else 0)
  {
    assert (burns + [burn])[..|burns|] == burns;
  }

  /** Greedy: an account gives something only once every account before it gives all it has. */
  lemma EarlierAccountsFirst(accounts: seq<Account>, amount: int, j: nat, k: nat)
    requires j < k < |accounts| && 0 < Share(accounts, amount, k)
    ensures Share(accounts, amount, j) == Positive(accounts[j].amount)
  {
    AvailableGrows(accounts, j + 1, k);
    PlannedStep(accounts, amount, j);
  }

  lemma {:induction false} AvailableGrows(accounts: seq<Account>, j: nat, k: nat)
    requires j <= k <= |accounts|
    ensures Available(accounts[..j]) <= Available(accounts[..k])
  {
    if j < k {
      AvailableGrows(accounts, j, k - 1);
      PlannedStep(accounts, 0, k - 1);
    }
  }

  // ----- what trimming removes

  /** The code points of white space and line ends, one by one. */
  ghost predicate SpaceCode(n: int) {
    || n in {0x9, 0xa, 0xb, 0xc, 0xd, 0x20, 0xa0, 0x1680}
    || n in {0x2000, 0x2001, 0x2002, 0x2003, 0x2004, 0x2005, 0x2006, 0x2007, 0x2008, 0x2009, 0x200a}
    || n in {0x2028, 0x2029, 0x202f, 0x205f, 0x3000, 0xfeff}
  }

  lemma SpacesAre(c: char)
    ensures IsSpace(c) <==> SpaceCode(c as int)
  {
  }

  predicate Spaces(s: string, i: nat, j: nat)
    requires i <= j <= |s|
  {
    forall k :: i <= k < j ==> IsSpace(s[k])
  }

  lemma {:induction false} TrimStartCuts(s: string) returns (i: nat)
    ensures i <= |s| && TrimStart(s) == s[i..] && Spaces(s, 0, i) && (i < |s| ==> !IsSpace(s[i]))
  {
    i := 0;
    if s != "" && IsSpace(s[0]) {
      var m := TrimStartCuts(s[1..]);
      i := m + 1;
      assert s[i..] == s[1..][m..];
      forall k | 0 <= k < i ensures IsSpace(s[k]) {
        if 0 < k { assert s[k] == s[1..][k - 1]; }
      }
    }
  }

  lemma {:induction false} TrimEndCuts(s: string) returns (j: nat)
    ensures j <= |s| && TrimEnd(s) == s[..j] && Spaces(s, j, |s|) && (0 < j ==> !IsSpace(s[j - 1]))
  {
    j := |s|;
    if s != "" && IsSpace(s[|s| - 1]) {
      var front := s[..|s| - 1];
      j := TrimEndCuts(front);
      assert s[..j] == front[..j];
      forall k | j <= k < |s| ensures IsSpace(s[k]) {
        if k < |front| { assert s[k] == front[k]; }
      }
    }
  }

  /** The stretch from `i` to `j` is what is left of a text between its white space. */
  ghost predicate Kept(s: string, i: nat, j: nat) {
    && i <= j <= |s|
    && (forall k :: 0 <= k < i || j <= k < |s| ==> SpaceCode(s[k] as int))
    && (i < j ==> !SpaceCode(s[i] as int) && !SpaceCode(s[j - 1] as int))
  }

  /** Trimming keeps one stretch of the text: only white space is outside it, and none at its ends. */
  lemma TrimKeepsTheMiddle(s: string) returns (i: nat, j: nat)
    ensures Kept(s, i, j) && Trim(s) == s[i..j]
  {
    i := TrimStartCuts(s);
    var rest := s[i..];
    var m := TrimEndCuts(rest);
    j := i + m;
    assert s[i..j] == rest[..m];
    forall k | 0 <= k < |s| ensures IsSpace(s[k]) <==> SpaceCode(s[k] as int) {
      SpacesAre(s[k]);
    }
    forall k | j <= k < |s| ensures IsSpace(s[k]) {
      assert s[k] == rest[k - i];
    }
  }
}
