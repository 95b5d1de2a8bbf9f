/** Exact lamport amounts in receipts: which rows are shown, and how an amount is printed. */
module ReceiptExport {
  import opened Wrappers
  import opened DecimalText
  import Arith

  const MAX_SAFE: int := 9007199254740991

  /** An amount as it arrives: a big integer, an integral number, or text. */
  datatype Amount = Big(units: int) | Number(value: int) | Text(text: string)

  /** The lamports of an amount, or nothing when it is not an unsigned 64-bit integer. */
  function ExactLamports(a: Amount): (r: Option<nat>)
    ensures r.Some? ==> r.value < Arith.U64_LIMIT
  {
    match a
    case Big(units) => InRange(units)
    case Number(value) => if -MAX_SAFE <= value <= MAX_SAFE then InRange(value) else None
    case Text(text) => if |text| <= 20 && IsWhole(text) then InRange(Value(text)) else None
  }

  function InRange(units: int): Option<nat> {
    if 0 <= units < Arith.U64_LIMIT then Some(units) else None
  }

  function FormatReceiptSol(a: Amount): Option<string> {
    var units := ExactLamports(a);
    if units.None? then None else Some(Render(Spell(units.value, 9)))
  }

  lemma U64Digits()
    ensures Arith.U64_LIMIT <= Pow10(20)
  {
    assert Pow10(10) == 10000000000;
    Pow10Sum(10, 10);
  }

  /** An accepted text amount is the only accepted text for its number: text and number say the same. */
  lemma {:induction false} TextAmountsAreCanonical(text: string, units: nat)
    ensures ExactLamports(Text(text)) == Some(units) <==> units < Arith.U64_LIMIT && text == Print(units)
  {
    if ExactLamports(Text(text)) == Some(units) {
      WholePrints(text);
    }
    if units < Arith.U64_LIMIT && text == Print(units) {
      U64Digits();
      PrintedLength(units, 20);
      PrintedWhole(units);
      PrintedValue(units);
    }
  }

  // ----- the rows of a receipt page

  datatype Row = Unreadable | Row(signature: string, slot: int, amount: Amount, details: string)

  predicate Base58(c: char) {
    '1' <= c <= '9' || ('A' <= c <= 'Z' && c != 'I' && c != 'O') || ('a' <= c <= 'z' && c != 'l')
  }

  predicate SignatureText(s: string) {
    64 <= |s| <= 88 && forall i :: 0 <= i < |s| ==> Base58(s[i])
  }

  predicate Valid(row: Row) {
    && row.Row? && SignatureText(row.signature) && 1 <= row.slot <= MAX_SAFE
    && ExactLamports(row.amount).Some? && ExactLamports(row.amount).value != 0
  }

  /** The same row with its amount spelled out as text. */
  function Exact(row: Row): (r: Row)
    requires Valid(row)
  {
    row.(amount := Text(Print(ExactLamports(row.amount).value)))
  }

  /** The signatures of the valid rows. */
  function Signatures(rows: seq<Row>): set<string> {
    if rows == [] then {}
    else
      var n := |rows| - 1;
      Signatures(rows[..n]) + (if Valid(rows[n]) then {rows[n].signature} else {})
  }

  /** A row is shown when it is valid and no earlier valid row has its signature. */
  predicate Shown(rows: seq<Row>, k: nat)
    requires k < |rows|
  {
    Valid(rows[k]) && rows[k].signature !in Signatures(rows[..k])
  }

  function Selected(rows: seq<Row>): seq<Row> {
    if rows == [] then []
    else
      var n := |rows| - 1;
      Selected(rows[..n]) + (if Shown(rows, n) then [Exact(rows[n])] else [])
  }

  method SelectExactReceiptRows(rows: seq<Row>) returns (receipts: seq<Row>, omitted: nat)
    ensures receipts == Selected(rows)
    ensures omitted == |rows| - |receipts|
  {
    receipts, omitted := [], 0;
    var seen: set<string> := {};
    for k := 0 to |rows|
      invariant seen == Signatures(receipts) == Signatures(rows[..k])
      invariant receipts == Selected(rows[..k]) && omitted == k - |receipts|
    {
      var row := rows[k];
      assert rows[..k + 1][..k] == rows[..k];
      if row.Row? && SignatureText(row.signature) && row.signature !in seen && 1 <= row.slot <= MAX_SAFE {
        var units := ExactLamports(row.amount);
        if units.Some? && units.value != 0 {
          ExactIsValid(row);
          assert (receipts + [Exact(row)])[..|receipts|] == receipts;
          seen := seen + {row.signature};
          receipts := receipts + [row.(amount := Text(Print(units.value)))];
        } else {
          omitted := omitted + 1;
        }
      } else {
        omitted := omitted + 1;
      }
    }
    assert rows[..|rows|] == rows;
  }

  lemma ExactIsValid(row: Row)
    requires Valid(row)
    ensures Valid(Exact(row)) && Exact(Exact(row)) == Exact(row) && Exact(row).signature == row.signature
  {
    var units := ExactLamports(row.amount).value;
    TextAmountsAreCanonical(Print(units), units);
  }

  /** A list in which every row is shown as it is. */
  predicate Settled(rows: seq<Row>) {
    forall k :: 0 <= k < |rows| ==> Shown(rows, k) && Exact(rows[k]) == rows[k]
  }

  lemma {:induction false} SettledExtends(rows: seq<Row>, row: Row)
    requires Settled(rows) && Valid(row) && Exact(row) == row && row.signature !in Signatures(rows)
    ensures Settled(rows + [row])
  {
    forall k | 0 <= k < |rows| + 1
      ensures Shown(rows + [row], k) && Exact((rows + [row])[k]) == (rows + [row])[k]
    {
      assert (rows + [row])[..k] == if k < |rows| then rows[..k] else rows;
    }
  }

  lemma {:induction false} SignaturesExtend(rows: seq<Row>, row: Row)
    ensures Signatures(rows + [row]) == Signatures(rows) + (if Valid(row) then {row.signature} else {})
  {
    assert (rows + [row])[..|rows|] == rows;
  }

  /** The rows shown are valid, exact and distinct, and every valid signature is among them. */
  lemma {:induction false} SelectedIsSettled(rows: seq<Row>)
    ensures Settled(Selected(rows)) && Signatures(Selected(rows)) == Signatures(rows)
  {
    if rows != [] {
      var n := |rows| - 1;
      var before, last := Selected(rows[..n]), rows[n];
      SelectedIsSettled(rows[..n]);
      if Shown(rows, n) {
        ExactIsValid(last);
        SettledExtends(before, Exact(last));
        SignaturesExtend(before, Exact(last));
      } else {
        assert Selected(rows) == before;
        assert Valid(last) ==> last.signature in Signatures(rows[..n]);
        assert Signatures(rows) == Signatures(rows[..n]);
      }
    }
  }

  lemma SettledPrefix(rows: seq<Row>, n: nat)
    requires Settled(rows) && n <= |rows|
    ensures Settled(rows[..n])
  {
    forall k | 0 <= k < n ensures Shown(rows[..n], k) && Exact(rows[..n][k]) == rows[..n][k] {
      assert Shown(rows, k) && rows[..n][..k] == rows[..k];
    }
  }

  lemma {:induction false} SelectedStep(rows: seq<Row>, n: nat)
    requires |rows| == n + 1 && Shown(rows, n) && Exact(rows[n]) == rows[n] && Selected(rows[..n]) == rows[..n]
    ensures Selected(rows) == rows
  {
    assert Selected(rows) == Selected(rows[..n]) + [Exact(rows[n])];
  }

  lemma {:induction false} SettledIsSelected(rows: seq<Row>)
    requires Settled(rows)
    ensures Selected(rows) == rows
  {
    if rows != [] {
      var n := |rows| - 1;
      SettledPrefix(rows, n);
      SettledIsSelected(rows[..n]);
      assert Shown(rows, n) && Exact(rows[n]) == rows[n];
      SelectedStep(rows, n);
    }
  }

  /**
   The page and its export agree: selecting again from the rows already shown keeps every
   one of them, with the same amount.
   */
  lemma {:induction false} ExportShowsThePage(rows: seq<Row>)
    ensures Selected(Selected(rows)) == Selected(rows)
  {
    SelectedIsSettled(rows);
    SettledIsSelected(Selected(rows));
  }

  // ----- which rows are shown, written out

  /** The base-58 alphabet: neither zero, nor capital I or O, nor small l. */
  ghost predicate InAlphabet(c: char) {
    || c in {'1', '2', '3', '4', '5', '6', '7', '8', '9'}
    || c in {'A', 'B', 'C', 'D', 'E', 'F', 'G', 'H', 'J', 'K', 'L', 'M', 'N', 'P', 'Q', 'R', 'S', 'T', 'U', 'V', 'W', 'X', 'Y', 'Z'}
    || c in {'a', 'b', 'c', 'd', 'e', 'f', 'g', 'h', 'i', 'j', 'k'}
    || c in {'m', 'n', 'o', 'p', 'q', 'r', 's', 't', 'u', 'v', 'w', 'x', 'y', 'z'}
  }

  /** An amount of at least one lamport that an unsigned 64-bit integer holds, exactly known. */
  ghost predicate PositiveLamports(a: Amount, units: nat) {
    && 0 < units < 0x1_0000_0000_0000_0000
    && match a
       case Big(v) => v == units
       case Number(v) => v == units && v <= 0x1f_ffff_ffff_ffff
       case Text(text) => text == Print(units)
  }

  /** A row with a signature of 64 to 88 base-58 characters, a positive safe slot and a positive exact amount. */
  ghost predicate Readable(row: Row, units: nat) {
    && row.Row? && 64 <= |row.signature| <= 88 && (forall i :: 0 <= i < |row.signature| ==> InAlphabet(row.signature[i]))
    && 0 < row.slot < 0x20_0000_0000_0000 && PositiveLamports(row.amount, units)
  }

  ghost predicate EarlierReadable(rows: seq<Row>, k: nat, j: nat, units: nat)
    requires k < |rows|
  {
    j < k && Readable(rows[j], units) && rows[k].Row? && rows[j].signature == rows[k].signature
  }

  lemma LamportsWrittenOut(a: Amount, units: nat)
    ensures ExactLamports(a) == Some(units) && units != 0 <==> PositiveLamports(a, units)
  {
    if a.Text? {
      TextAmountsAreCanonical(a.text, units);
    }
  }

  lemma AlphabetWrittenOut(c: char)
    ensures Base58(c) <==> InAlphabet(c)
  {
  }

  lemma ValidWrittenOut(row: Row)
    ensures Valid(row) <==> exists units: nat :: Readable(row, units)
    ensures forall units: nat :: Readable(row, units) ==> Valid(row) && Exact(row) == row.(amount := Text(Print(units)))
  {
    if row.Row? {
      forall i | 0 <= i < |row.signature| ensures Base58(row.signature[i]) <==> InAlphabet(row.signature[i]) {
        AlphabetWrittenOut(row.signature[i]);
      }
      forall units: nat ensures ExactLamports(row.amount) == Some(units) && units != 0 <==> PositiveLamports(row.amount, units) {
        LamportsWrittenOut(row.amount, units);
      }
      if Valid(row) {
        assert Readable(row, ExactLamports(row.amount).value);
      }
    }
  }

  lemma {:induction false} SignatureOfEarlier(rows: seq<Row>, n: nat, signature: string)
    requires n <= |rows|
    ensures signature in Signatures(rows[..n]) <==> exists j :: 0 <= j < n && Valid(rows[j]) && rows[j].signature == signature
  {
    if n != 0 {
      SignatureOfEarlier(rows, n - 1, signature);
      assert rows[..n][..n - 1] == rows[..n - 1];
    }
  }

  /**
   Which rows are shown, in their own fields: a readable row whose signature no earlier readable
   row has. It adds itself to the page, last, with its amount in digits; any other row adds nothing.
   */
  lemma {:induction false} ShownWrittenOut(rows: seq<Row>, k: nat, units: nat)
    requires k < |rows|
    ensures Readable(rows[k], units) && !(exists j: nat, other: nat :: EarlierReadable(rows, k, j, other)) ==>
      Selected(rows[..k + 1])
        == Selected(rows[..k]) + [Row(rows[k].signature, rows[k].slot, Text(Print(units)), rows[k].details)]
    ensures (forall any: nat :: !Readable(rows[k], any)) || (exists j: nat, other: nat :: EarlierReadable(rows, k, j, other)) ==>
      Selected(rows[..k + 1]) == Selected(rows[..k])
  {
    assert rows[..k + 1][..k] == rows[..k];
    ValidWrittenOut(rows[k]);
    if Valid(rows[k]) {
      SignatureOfEarlier(rows, k, rows[k].signature);
      forall j | 0 <= j < k ensures Valid(rows[j]) <==> exists other: nat :: Readable(rows[j], other) {
        ValidWrittenOut(rows[j]);
      }
      if rows[k].signature in Signatures(rows[..k]) {
        var j :| 0 <= j < k && Valid(rows[j]) && rows[j].signature == rows[k].signature;
        var other: nat :| Readable(rows[j], other);
        assert EarlierReadable(rows, k, j, other);
      }
    }
  }
}
