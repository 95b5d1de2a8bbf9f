/**
 Proving a closed round trip: walking the paged history of a token account from the newest
 transaction back, and accepting a buy and a sell only if nothing lies between them.
 */
module TradeRoundTrip {
  import opened Wrappers

  const PAGE: nat := 100

  // ----- the account's history, newest first

  predicate Unique(history: seq<string>) {
    forall i, j :: 0 <= i < j < |history| ==> history[i] != history[j]
  }

  function IndexOf(history: seq<string>, signature: string): (i: nat)
    ensures i <= |history|
    ensures i < |history| ==> history[i] == signature
    ensures forall j :: 0 <= j < i ==> history[j] != signature
  {
    if history == [] || history[0] == signature then 0 else 1 + IndexOf(history[1..], signature)
  }

  function Take(s: seq<string>, n: nat): seq<string> {
    if n <= |s| then s[..n] else s
  }

  /** One page of the account's signatures: the newest ones, or those before a cursor. */
  function PageOf(history: seq<string>, before: Option<string>): seq<string> {
    if before.None? then Take(history, PAGE)
    else if IndexOf(history, before.value) == |history| then []
    else Take(history[IndexOf(history, before.value) + 1..], PAGE)
  }

  /**
   The finalized history at each page request. Newer transactions may arrive in between,
   but what was finalized stays where it is.
   */
  predicate Growing(histories: seq<seq<string>>) {
    forall k :: 0 <= k < |histories| ==> Extends(histories[k], histories[0])
  }

  predicate Extends(grown: seq<string>, history: seq<string>) {
    Unique(grown) && |history| <= |grown| && grown[|grown| - |history|..] == history
  }

  /** A cursor page is the same however much newer history has arrived. */
  lemma PageIsStable(history: seq<string>, grown: seq<string>, at: nat)
    requires Extends(grown, history)
    requires at < |history|
    ensures PageOf(grown, Some(history[at])) == Take(history[at + 1..], PAGE)
  {
    var shift := |grown| - |history|;
    assert grown[shift + at] == history[at];
    var i := IndexOf(grown, history[at]);
    assert i == shift + at;
    assert grown[i + 1..] == history[at + 1..];
  }

  // ----- the walk

  /** What the walk has seen: not the sell yet, or everything from the sell on, or the buy as well. */
  datatype Walk = Looking | Collecting(between: seq<string>) | Complete(between: seq<string>)

  function See(w: Walk, row: string, buy: string, sell: string): Walk {
    match w
    case Looking => if row == sell then Collecting([row]) else Looking
    case Collecting(between) => if row == buy then Complete(between + [row]) else Collecting(between + [row])
    case Complete(_) => w
  }

  function SeeAll(w: Walk, rows: seq<string>, buy: string, sell: string): Walk {
    if rows == [] then w
    else See(SeeAll(w, rows[..|rows| - 1], buy, sell), rows[|rows| - 1], buy, sell)
  }

  lemma {:induction false} SeeConcat(w: Walk, a: seq<string>, b: seq<string>, buy: string, sell: string)
    ensures SeeAll(w, a + b, buy, sell) == SeeAll(SeeAll(w, a, buy, sell), b, buy, sell)
    decreases |b|
  {
    if b == [] {
      assert a + b == a;
    } else {
      assert (a + b)[..|a + b| - 1] == a + b[..|b| - 1];
      SeeConcat(w, a, b[..|b| - 1], buy, sell);
    }
  }

  lemma {:induction false} CompleteStays(between: seq<string>, rows: seq<string>, buy: string, sell: string)
    ensures SeeAll(Complete(between), rows, buy, sell) == Complete(between)
  {
    if rows != [] {
      CompleteStays(between, rows[..|rows| - 1], buy, sell);
    }
  }

  /** The rows the walk may look at. */
  function Reach(history: seq<string>, maxPages: nat): seq<string> {
    Take(history, PAGE * maxPages)
  }

  method WalkPage(w: Walk, rows: seq<string>, buy: string, sell: string) returns (w': Walk)
    ensures w' == SeeAll(w, rows, buy, sell)
  {
    w' := w;
    for k := 0 to |rows|
      invariant w' == SeeAll(w, rows[..k], buy, sell)
    {
      assert rows[..k + 1][..k] == rows[..k];
      w' := See(w', rows[k], buy, sell);
      if w'.Complete? {
        assert rows == rows[..k + 1] + rows[k + 1..];
        SeeConcat(w, rows[..k + 1], rows[k + 1..], buy, sell);
        CompleteStays(w'.between, rows[k + 1..], buy, sell);
        return;
      }
    }
    assert rows[..|rows|] == rows;
  }

  /** What the walk has seen, and the cursor it asks for next, after `page` full pages. */
  predicate Walked(w: Walk, before: Option<string>, history: seq<string>, page: nat, buy: string, sell: string) {
    && PAGE * page <= |history|
    && w == SeeAll(Looking, history[..PAGE * page], buy, sell)
    && before == if page == 0 then None else Some(history[PAGE * page - 1])
  }

  /** The paged walk, one history per page request. */
  method ReadRoundTripHistory(histories: seq<seq<string>>, buy: string, sell: string)
    returns (r: Option<seq<string>>)
    requires Growing(histories)
    ensures histories == [] ==> r.None?
    ensures histories != [] ==>
      var w := SeeAll(Looking, Reach(histories[0], |histories|), buy, sell);
      r == if w.Complete? then Some(w.between) else None
  {
    if histories == [] {
      return None;
    }
    ghost var history := histories[0];
    var w, before := Looking, None;
    WalkStarts(history, buy, sell);
    for page := 0 to |histories|
      invariant Walked(w, before, history, page, buy, sell) && !w.Complete?
    {
      var rows := PageOf(histories[page], before);
      PageInOrder(w, before, histories, page, buy, sell);
      SeePage(w, before, history, page, |histories|, rows, buy, sell);
      w := WalkPage(w, rows, buy, sell);
      if w.Complete? {
        return Some(w.between);
      }
      if |rows| < PAGE {
        return None;
      }
      before := Some(rows[|rows| - 1]);
    }
    r := None;
    WholeReach(w, before, history, |histories|, buy, sell);
  }

  lemma WalkStarts(history: seq<string>, buy: string, sell: string)
    ensures Walked(Looking, None, history, 0, buy, sell)
  {
    assert history[..0] == [];
  }

  lemma {:induction false} WholeReach(w: Walk, before: Option<string>, history: seq<string>, pages: nat, buy: string, sell: string)
    requires Walked(w, before, history, pages, buy, sell)
    ensures w == SeeAll(Looking, Reach(history, pages), buy, sell)
  {
  }

  lemma PageInOrder(w: Walk, before: Option<string>, histories: seq<seq<string>>, page: nat, buy: string, sell: string)
    requires Growing(histories) && page < |histories| && Walked(w, before, histories[0], page, buy, sell)
    ensures PAGE * page <= |histories[0]|
    ensures PageOf(histories[page], before) == Take(histories[0][PAGE * page..], PAGE)
  {
    FirstOrCursorPage(histories, page);
  }

  /** One more page: complete, or short and so the last, or full and the walk goes on. */
  lemma {:induction false} SeePage(w: Walk, before: Option<string>, history: seq<string>, page: nat, maxPages: nat,
                rows: seq<string>, buy: string, sell: string)
    requires Walked(w, before, history, page, buy, sell) && page < maxPages
    requires rows == Take(history[PAGE * page..], PAGE)
    ensures var w' := SeeAll(w, rows, buy, sell);
      && (w'.Complete? || |rows| < PAGE ==> SeeAll(Looking, Reach(history, maxPages), buy, sell) == w')
      && (|rows| == PAGE ==> Walked(w', Some(rows[PAGE - 1]), history, page + 1, buy, sell))
  {
    WalkedSoFar(history, page, maxPages, rows);
    SeeConcat(Looking, history[..PAGE * page], rows, buy, sell);
    if SeeAll(w, rows, buy, sell).Complete? {
      FinishedEarly(history, page, maxPages, buy, sell);
    }
  }

  /** The page requested after `page` full pages continues exactly where they ended. */
  lemma FirstOrCursorPage(histories: seq<seq<string>>, page: nat)
    requires Growing(histories) && page < |histories| && PAGE * page <= |histories[0]|
    ensures var history := histories[0];
      PageOf(histories[page], if page == 0 then None else Some(history[PAGE * page - 1])) == Take(history[PAGE * page..], PAGE)
  {
    if page == 0 {
      assert histories[0][0..] == histories[0];
    } else {
      PageIsStable(histories[0], histories[page], PAGE * page - 1);
    }
  }

  lemma WalkedSoFar(history: seq<string>, page: nat, maxPages: nat, rows: seq<string>)
    requires PAGE * page <= |history| && page < maxPages && rows == Take(history[PAGE * page..], PAGE)
    ensures |rows| == PAGE ==> PAGE * (page + 1) <= |history| && history[..PAGE * (page + 1)] == history[..PAGE * page] + rows
    ensures |rows| < PAGE ==> Reach(history, maxPages) == history[..PAGE * page] + rows
    ensures Reach(history, page + 1) == history[..PAGE * page] + rows
  {
    assert PAGE * (page + 1) == PAGE * page + PAGE;
    assert PAGE * (page + 1) <= PAGE * maxPages;
  }

  /** Once complete, looking at more rows changes nothing. */
  lemma {:induction false} FinishedEarly(history: seq<string>, page: nat, maxPages: nat, buy: string, sell: string)
    requires page < maxPages && SeeAll(Looking, Reach(history, page + 1), buy, sell).Complete?
    ensures SeeAll(Looking, Reach(history, maxPages), buy, sell) == SeeAll(Looking, Reach(history, page + 1), buy, sell)
  {
    var a, whole := Reach(history, page + 1), Reach(history, maxPages);
    assert PAGE * (page + 1) <= PAGE * maxPages;
    assert whole == a + whole[|a|..];
    SeeConcat(Looking, a, whole[|a|..], buy, sell);
    CompleteStays(SeeAll(Looking, a, buy, sell).between, whole[|a|..], buy, sell);
  }

  // ----- what the walk returns

  /** `between` is the stretch of `rows` from the first sell to the first buy after it. */
  predicate Stretch(rows: seq<string>, buy: string, sell: string, i: nat, j: nat) {
    && i < j < |rows| && rows[i] == sell && rows[j] == buy
    && (forall k :: 0 <= k < i ==> rows[k] != sell)
    && (forall k :: i < k < j ==> rows[k] != buy)
  }

  lemma {:induction false} NotFoundYet(rows: seq<string>, buy: string, sell: string)
    requires sell !in rows
    ensures SeeAll(Looking, rows, buy, sell) == Looking
  {
    if rows != [] {
      NotFoundYet(rows[..|rows| - 1], buy, sell);
    }
  }

  lemma {:induction false} CollectingOn(start: seq<string>, rows: seq<string>, buy: string, sell: string)
    requires buy !in rows
    ensures SeeAll(Collecting(start), rows, buy, sell) == Collecting(start + rows)
  {
    if rows == [] {
      assert start + rows == start;
    } else {
      CollectingOn(start, rows[..|rows| - 1], buy, sell);
      assert start + rows[..|rows| - 1] + [rows[|rows| - 1]] == start + rows;
    }
  }

  lemma {:induction false} SeeOne(w: Walk, row: string, buy: string, sell: string)
    ensures SeeAll(w, [row], buy, sell) == See(w, row, buy, sell)
  {
    assert [row][..0] == [];
  }

  /** The walk up to and including the first sell. */
  lemma {:induction false} SeeFirstSell(rows: seq<string>, buy: string, sell: string, i: nat)
    requires i < |rows| && rows[i] == sell && forall k :: 0 <= k < i ==> rows[k] != sell
    ensures SeeAll(Looking, rows, buy, sell) == SeeAll(Collecting([sell]), rows[i + 1..], buy, sell)
  {
    assert rows == rows[..i] + ([sell] + rows[i + 1..]);
    SeeConcat(Looking, rows[..i], [sell] + rows[i + 1..], buy, sell);
    NotFoundYet(rows[..i], buy, sell);
    SeeConcat(Looking, [sell], rows[i + 1..], buy, sell);
    SeeOne(Looking, sell, buy, sell);
  }

  /** The walk from there up to and including the next buy. */
  lemma {:induction false} SeeFirstBuy(start: seq<string>, rows: seq<string>, buy: string, sell: string, m: nat)
    requires m < |rows| && rows[m] == buy && forall k :: 0 <= k < m ==> rows[k] != buy
    ensures SeeAll(Collecting(start), rows, buy, sell) == Complete(start + rows[..m + 1])
  {
    assert rows == rows[..m] + ([buy] + rows[m + 1..]);
    SeeConcat(Collecting(start), rows[..m], [buy] + rows[m + 1..], buy, sell);
    CollectingOn(start, rows[..m], buy, sell);
    SeeConcat(Collecting(start + rows[..m]), [buy], rows[m + 1..], buy, sell);
    SeeOne(Collecting(start + rows[..m]), buy, buy, sell);
    CompleteStays(start + rows[..m] + [buy], rows[m + 1..], buy, sell);
    assert start + rows[..m + 1] == start + rows[..m] + [buy];
  }

  lemma {:induction false} StretchIsSeen(rows: seq<string>, buy: string, sell: string, i: nat, j: nat)
    requires Stretch(rows, buy, sell, i, j)
    ensures SeeAll(Looking, rows, buy, sell) == Complete(rows[i..j + 1])
  {
    var rest := rows[i + 1..];
    SeeFirstSell(rows, buy, sell, i);
    assert forall k :: 0 <= k < j - i - 1 ==> rest[k] == rows[i + 1 + k];
    SeeFirstBuy([sell], rest, buy, sell, j - i - 1);
    assert rows[i..j + 1] == [sell] + rest[..j - i];
  }

  lemma SeenIsStretch(rows: seq<string>, buy: string, sell: string) returns (i: nat, j: nat)
    requires SeeAll(Looking, rows, buy, sell).Complete?
    ensures Stretch(rows, buy, sell, i, j)
  {
    i := IndexOf(rows, sell);
    if i == |rows| {
      NotFoundYet(rows, buy, sell);
    } else {
      SeeFirstSell(rows, buy, sell, i);
      var rest := rows[i + 1..];
      var m := IndexOf(rest, buy);
      if m == |rest| {
        CollectingOn([sell], rest, buy, sell);
      }
      j := i + 1 + m;
      assert forall k :: i < k < j ==> rows[k] == rest[k - i - 1];
    }
  }

  /**
   The walk refines the flat history: it completes exactly when the rows in reach contain a
   sell and a buy after it, and then returns the contiguous stretch from the first sell back
   to the first following buy. Page boundaries play no part.
   */
  lemma {:induction false} WalkIsStretch(rows: seq<string>, buy: string, sell: string)
    ensures var w := SeeAll(Looking, rows, buy, sell);
      && (w.Complete? <==> exists i: nat, j: nat :: Stretch(rows, buy, sell, i, j))
      && (forall i: nat, j: nat :: Stretch(rows, buy, sell, i, j) ==> w == Complete(rows[i..j + 1]))
  {
    if SeeAll(Looking, rows, buy, sell).Complete? {
      var i, j := SeenIsStretch(rows, buy, sell);
    }
    forall i: nat, j: nat | Stretch(rows, buy, sell, i, j)
      ensures SeeAll(Looking, rows, buy, sell) == Complete(rows[i..j + 1])
    {
      StretchIsSeen(rows, buy, sell, i, j);
    }
  }

  /** The sell at `i` comes directly after the buy (histories run newest first). */
  predicate AdjacentAt(rows: seq<string>, buy: string, sell: string, i: nat) {
    i + 1 < |rows| && rows[i] == sell && rows[i + 1] == buy
  }

  /** Nothing lies between the two trades exactly when the walk returns just the two of them. */
  lemma {:induction false} NothingBetween(rows: seq<string>, buy: string, sell: string)
    requires Unique(rows)
    ensures SeeAll(Looking, rows, buy, sell) == Complete([sell, buy]) <==> exists i: nat :: AdjacentAt(rows, buy, sell, i)
  {
    if SeeAll(Looking, rows, buy, sell) == Complete([sell, buy]) {
      var i, j := SeenIsStretch(rows, buy, sell);
      StretchIsSeen(rows, buy, sell, i, j);
      assert |rows[i..j + 1]| == j + 1 - i;
      assert AdjacentAt(rows, buy, sell, i);
    }
    if i: nat :| AdjacentAt(rows, buy, sell, i) {
      StretchIsSeen(rows, buy, sell, i, i + 1);
      assert rows[i..i + 2] == [sell, buy];
    }
  }

  // ----- the two receipts

  datatype Balance = Balance(accountIndex: nat, owner: string, mint: string, amount: nat)

  datatype Key = Key(address: string, signer: bool)

  datatype Transaction = Transaction(
    succeeded: bool, slot: int, signatures: seq<string>, keys: seq<Key>,
    preTokens: seq<Balance>, postTokens: seq<Balance>, preLamports: seq<int>, postLamports: seq<int>)

  datatype Position = Position(account: string, pre: nat, post: nat)

  function Owned(rows: seq<Balance>, wallet: string, mint: string): seq<Balance> {
    if rows == [] then []
    else (if rows[0].owner == wallet && rows[0].mint == mint then [rows[0]] else []) + Owned(rows[1..], wallet, mint)
  }

  function TotalOf(rows: seq<Balance>): nat {
    if rows == [] then 0 else rows[0].amount + TotalOf(rows[1..])
  }

  function AmountAt(rows: seq<Balance>, accountIndex: nat): nat {
    if rows == [] then 0
    else if rows[0].accountIndex == accountIndex then rows[0].amount
    else AmountAt(rows[1..], accountIndex)
  }

  /** The wallet's one token account of the mint in a transaction, before and after it. */
  function TokenPosition(t: Transaction, wallet: string, mint: string): Option<Position> {
    var pre, post := Owned(t.preTokens, wallet, mint), Owned(t.postTokens, wallet, mint);
    var all := pre + post;
    if all == [] || (exists i :: 0 <= i < |all| && all[i].accountIndex != all[0].accountIndex) then None
    else
      var k := all[0].accountIndex;
      if |t.keys| <= k || t.keys[k].address == "" then None
      else Some(Position(t.keys[k].address, AmountAt(pre, k), AmountAt(post, k)))
  }

  function SignerIndex(keys: seq<Key>, wallet: string): (i: nat)
    ensures i <= |keys|
    ensures i < |keys| ==> keys[i] == Key(wallet, true)
  {
    if keys == [] || keys[0] == Key(wallet, true) then 0 else 1 + SignerIndex(keys[1..], wallet)
  }

  function SolDelta(t: Transaction, wallet: string): Option<int> {
    var i := SignerIndex(t.keys, wallet);
    if i < |t.keys| && i < |t.preLamports| && i < |t.postLamports| then Some(t.postLamports[i] - t.preLamports[i]) else None
  }

  predicate VerifiedReceipt(t: Transaction, wallet: string, mint: string, buys: bool, signature: string) {
    && t.succeeded && wallet != "" && mint != "" && signature != ""
    && SignerIndex(t.keys, wallet) < |t.keys| && signature in t.signatures
    && (if buys then TotalOf(Owned(t.preTokens, wallet, mint)) < TotalOf(Owned(t.postTokens, wallet, mint))
        else TotalOf(Owned(t.postTokens, wallet, mint)) < TotalOf(Owned(t.preTokens, wallet, mint)))
  }

  datatype Error = BadReceipts | WrongOrder | NotOnePosition | InterveningActivity | BalancesUnavailable | NoHistory

  datatype RoundTrip = RoundTrip(account: string, tokens: nat, net: int)

  /** The buy opens a position of `tokens` in `account` from nothing; the sell closes all of it. */
  predicate OnePosition(buy: Transaction, sell: Transaction, wallet: string, mint: string, account: string, tokens: nat) {
    && 0 < tokens
    && TokenPosition(buy, wallet, mint) == Some(Position(account, 0, tokens))
    && TokenPosition(sell, wallet, mint) == Some(Position(account, tokens, 0))
  }

  /** What the two receipts alone must show. */
  ghost predicate ReceiptsClose(buy: Transaction, sell: Transaction, wallet: string, mint: string,
                                buySignature: string, sellSignature: string) {
    && VerifiedReceipt(buy, wallet, mint, true, buySignature) && VerifiedReceipt(sell, wallet, mint, false, sellSignature)
    && buy.slot < sell.slot && SolDelta(buy, wallet).Some? && SolDelta(sell, wallet).Some?
    && exists account: string, tokens: nat :: OnePosition(buy, sell, wallet, mint, account, tokens)
  }

  method VerifyClosedRoundTrip(buy: Transaction, sell: Transaction, wallet: string, mint: string,
                               buySignature: string, sellSignature: string, history: seq<string>)
    returns (r: Result<RoundTrip, Error>)
    ensures r.Ok? <==>
      ReceiptsClose(buy, sell, wallet, mint, buySignature, sellSignature) && history == [sellSignature, buySignature]
    ensures r.Ok? ==>
      && OnePosition(buy, sell, wallet, mint, r.value.account, r.value.tokens)
      && r.value.net == SolDelta(buy, wallet).value + SolDelta(sell, wallet).value
  {
    if !VerifiedReceipt(buy, wallet, mint, true, buySignature) || !VerifiedReceipt(sell, wallet, mint, false, sellSignature) {
      return Err(BadReceipts);
    }
    if sell.slot <= buy.slot {
      return Err(WrongOrder);
    }
    var bought, sold := TokenPosition(buy, wallet, mint), TokenPosition(sell, wallet, mint);
    if bought.None? || sold.None? || bought.value.account != sold.value.account || bought.value.pre != 0
      || bought.value.post == 0 || sold.value.pre != bought.value.post || sold.value.post != 0 {
      return Err(NotOnePosition);
    }
    assert OnePosition(buy, sell, wallet, mint, bought.value.account, bought.value.post);
    if history != [sellSignature, buySignature] {
      return Err(InterveningActivity);
    }
    var paid, received := SolDelta(buy, wallet), SolDelta(sell, wallet);
    if paid.None? || received.None? {
      return Err(BalancesUnavailable);
    }
    r := Ok(RoundTrip(bought.value.account, bought.value.post, paid.value + received.value));
  }

  /**
   A round trip is accepted exactly when the receipts close one position and, within the
   pages in reach, the account's own history has the sell directly after the buy.
   */
  method VerifyRoundTrip(buy: Transaction, sell: Transaction, wallet: string, mint: string,
                         buySignature: string, sellSignature: string, histories: seq<seq<string>>)
    returns (r: Result<RoundTrip, Error>)
    requires Growing(histories)
    ensures r.Ok? <==>
      && ReceiptsClose(buy, sell, wallet, mint, buySignature, sellSignature)
      && histories != []
      && exists i: nat :: AdjacentAt(Reach(histories[0], |histories|), buySignature, sellSignature, i)
    ensures r.Ok? ==>
      && OnePosition(buy, sell, wallet, mint, r.value.account, r.value.tokens)
      && r.value.net == SolDelta(buy, wallet).value + SolDelta(sell, wallet).value
  {
    var start := TokenPosition(buy, wallet, mint);
    if start.None? || start.value.pre != 0 || start.value.post == 0 {
      return Err(NotOnePosition);
    }
    var history := ReadRoundTripHistory(histories, buySignature, sellSignature);
    if histories != [] {
      assert Unique(Reach(histories[0], |histories|));
      NothingBetween(Reach(histories[0], |histories|), buySignature, sellSignature);
    }
    if history.None? {
      return Err(NoHistory);
    }
    r := VerifyClosedRoundTrip(buy, sell, wallet, mint, buySignature, sellSignature, history.value);
  }

  // ----- the receipts, row by row

  predicate IsOwned(b: Balance, wallet: string, mint: string) {
    b.owner == wallet && b.mint == mint
  }

  /** The first row of the wallet and mint is at `i`. */
  predicate FirstOwned(rows: seq<Balance>, wallet: string, mint: string, i: nat) {
    i < |rows| && IsOwned(rows[i], wallet, mint) && forall j :: 0 <= j < i ==> !IsOwned(rows[j], wallet, mint)
  }

  predicate NoneOwned(rows: seq<Balance>, wallet: string, mint: string) {
    forall i :: 0 <= i < |rows| ==> !IsOwned(rows[i], wallet, mint)
  }

  /** The wallet's rows of the mint are all of account `k`, whose first one holds `amount`; without any it is 0. */
  ghost predicate HeldAt(rows: seq<Balance>, wallet: string, mint: string, k: nat, amount: nat) {
    && (forall i :: 0 <= i < |rows| && IsOwned(rows[i], wallet, mint) ==> rows[i].accountIndex == k)
    && (NoneOwned(rows, wallet, mint) ==> amount == 0)
    && (forall i: nat :: FirstOwned(rows, wallet, mint, i) ==> rows[i].amount == amount)
  }

  /** All the wallet holds of the mint, added up from the back. */
  function HeldTotal(rows: seq<Balance>, wallet: string, mint: string): nat {
    if rows == [] then 0
    else
      var last := rows[|rows| - 1];
      HeldTotal(rows[..|rows| - 1], wallet, mint) + (if last.owner == wallet && last.mint == mint then last.amount else 0)
  }

  lemma {:induction false} OwnedAppend(rows: seq<Balance>, b: Balance, wallet: string, mint: string)
    ensures Owned(rows + [b], wallet, mint) == Owned(rows, wallet, mint) + (if IsOwned(b, wallet, mint) then [b] else [])
  {
    if rows == [] {
      assert rows + [b] == [b];
    } else {
      assert (rows + [b])[1..] == rows[1..] + [b] && (rows + [b])[0] == rows[0];
      OwnedAppend(rows[1..], b, wallet, mint);
      Regroup(if IsOwned(rows[0], wallet, mint) then [rows[0]] else [], Owned(rows[1..], wallet, mint),
              if IsOwned(b, wallet, mint) then [b] else []);
    }
  }

  lemma Regroup(a: seq<Balance>, b: seq<Balance>, c: seq<Balance>)
    ensures a + (b + c) == a + b + c
  {
  }

  lemma {:induction false} TotalAppend(rows: seq<Balance>, b: Balance)
    ensures TotalOf(rows + [b]) == TotalOf(rows) + b.amount
  {
    if rows == [] {
      assert rows + [b] == [b];
    } else {
      assert (rows + [b])[1..] == rows[1..] + [b];
      TotalAppend(rows[1..], b);
    }
  }

  lemma {:induction false} OwnedTotal(rows: seq<Balance>, wallet: string, mint: string)
    ensures TotalOf(Owned(rows, wallet, mint)) == HeldTotal(rows, wallet, mint)
  {
    if rows != [] {
      var front, last := rows[..|rows| - 1], rows[|rows| - 1];
      OwnedTotal(front, wallet, mint);
      assert rows == front + [last];
      OwnedAppend(front, last, wallet, mint);
      if IsOwned(last, wallet, mint) {
        TotalAppend(Owned(front, wallet, mint), last);
      } else {
        assert Owned(front, wallet, mint) + [] == Owned(front, wallet, mint);
      }
    }
  }

  lemma {:induction false} OwnedRows(rows: seq<Balance>, wallet: string, mint: string) returns (first: nat)
    ensures Owned(rows, wallet, mint) == [] <==> NoneOwned(rows, wallet, mint)
    ensures Owned(rows, wallet, mint) != [] ==> FirstOwned(rows, wallet, mint, first) && rows[first] == Owned(rows, wallet, mint)[0]
    ensures forall b :: b in Owned(rows, wallet, mint) <==> b in rows && IsOwned(b, wallet, mint)
  {
    first := 0;
    if rows != [] {
      first := OwnedRows(rows[1..], wallet, mint);
      first := if IsOwned(rows[0], wallet, mint) then 0 else first + 1;
      assert rows == [rows[0]] + rows[1..];
    }
  }

  /** Every row is of account `k`. */
  predicate OneAccount(rows: seq<Balance>, k: nat) {
    forall i :: 0 <= i < |rows| ==> rows[i].accountIndex == k
  }

  lemma {:induction false} OwnedHeldAt(rows: seq<Balance>, wallet: string, mint: string, k: nat, amount: nat)
    ensures HeldAt(rows, wallet, mint, k, amount) <==>
      OneAccount(Owned(rows, wallet, mint), k) && AmountAt(Owned(rows, wallet, mint), k) == amount
  {
    var own := Owned(rows, wallet, mint);
    var first := OwnedRows(rows, wallet, mint);
    if OneAccount(own, k) {
      forall i | 0 <= i < |rows| && IsOwned(rows[i], wallet, mint) ensures rows[i].accountIndex == k {
        assert rows[i] in own;
      }
    }
    if HeldAt(rows, wallet, mint, k, amount) {
      forall i | 0 <= i < |own| ensures own[i].accountIndex == k {
        assert own[i] in own;
      }
    }
  }

  /**
   Which position a transaction shows, row by row: the wallet has rows of the mint before or
   after it, all of one named account, and they hold these amounts.
   */
  lemma {:induction false} PositionByRows(t: Transaction, wallet: string, mint: string, account: string, pre: nat, post: nat)
    ensures TokenPosition(t, wallet, mint) == Some(Position(account, pre, post)) <==>
      && account != ""
      && !(NoneOwned(t.preTokens, wallet, mint) && NoneOwned(t.postTokens, wallet, mint))
      && exists k: nat :: k < |t.keys| && t.keys[k].address == account
           && HeldAt(t.preTokens, wallet, mint, k, pre) && HeldAt(t.postTokens, wallet, mint, k, post)
  {
    var a, b := Owned(t.preTokens, wallet, mint), Owned(t.postTokens, wallet, mint);
    var i := OwnedRows(t.preTokens, wallet, mint);
    var j := OwnedRows(t.postTokens, wallet, mint);
    forall k: nat ensures HeldAt(t.preTokens, wallet, mint, k, pre) <==> OneAccount(a, k) && AmountAt(a, k) == pre {
      OwnedHeldAt(t.preTokens, wallet, mint, k, pre);
    }
    forall k: nat ensures HeldAt(t.postTokens, wallet, mint, k, post) <==> OneAccount(b, k) && AmountAt(b, k) == post {
      OwnedHeldAt(t.postTokens, wallet, mint, k, post);
    }
    PositionOf(t, wallet, mint, account, pre, post, a, b);
  }

  lemma {:induction false} PositionOf(t: Transaction, wallet: string, mint: string, account: string, pre: nat, post: nat, a: seq<Balance>, b: seq<Balance>)
    requires a == Owned(t.preTokens, wallet, mint) && b == Owned(t.postTokens, wallet, mint)
    ensures TokenPosition(t, wallet, mint) == Some(Position(account, pre, post)) <==>
      account != "" && a + b != [] && exists k: nat :: InAccount(t, account, a, b, pre, post, k)
  {
    if a + b != [] {
      var k := (a + b)[0].accountIndex;
      OneAccountConcat(a, b, k);
      if k0: nat :| InAccount(t, account, a, b, pre, post, k0) {
        OneAccountConcat(a, b, k0);
        assert k0 == k;
      }
      if TokenPosition(t, wallet, mint) == Some(Position(account, pre, post)) {
        assert InAccount(t, account, a, b, pre, post, k);
      }
    }
  }

  predicate InAccount(t: Transaction, account: string, a: seq<Balance>, b: seq<Balance>, pre: nat, post: nat, k: nat) {
    && k < |t.keys| && t.keys[k].address == account
    && OneAccount(a, k) && AmountAt(a, k) == pre && OneAccount(b, k) && AmountAt(b, k) == post
  }

  lemma OneAccountConcat(a: seq<Balance>, b: seq<Balance>, k: nat)
    ensures OneAccount(a + b, k) <==> OneAccount(a, k) && OneAccount(b, k)
  {
    if OneAccount(a + b, k) {
      forall i | 0 <= i < |a| ensures a[i].accountIndex == k { assert (a + b)[i] == a[i]; }
      forall i | 0 <= i < |b| ensures b[i].accountIndex == k { assert (a + b)[|a| + i] == b[i]; }
    }
  }

  /** The wallet signed, first among the keys at `i`. */
  predicate SignsAt(t: Transaction, wallet: string, i: nat) {
    && i < |t.keys| && t.keys[i].address == wallet && t.keys[i].signer
    && forall j :: 0 <= j < i ==> !(t.keys[j].address == wallet && t.keys[j].signer)
  }

  lemma {:induction false} SignerIsFirst(keys: seq<Key>, wallet: string)
    ensures forall j :: 0 <= j < SignerIndex(keys, wallet) ==> !(keys[j].address == wallet && keys[j].signer)
  {
    if keys != [] && keys[0] != Key(wallet, true) {
      SignerIsFirst(keys[1..], wallet);
    }
  }

  /** What a transaction did to the wallet's lamports is read at the wallet's first signing key. */
  lemma DeltaByKeys(t: Transaction, wallet: string, delta: int)
    ensures SolDelta(t, wallet) == Some(delta) <==>
      exists i: nat :: SignsAt(t, wallet, i) && i < |t.preLamports| && i < |t.postLamports|
                       && t.postLamports[i] - t.preLamports[i] == delta
  {
    SignerIsFirst(t.keys, wallet);
    var i := SignerIndex(t.keys, wallet);
    if i < |t.keys| {
      assert SignsAt(t, wallet, i);
    }
  }

  /**
   Which receipts verify, row by row: a successful transaction, under this signature and signed
   by the wallet, after which the wallet holds more of the mint if it bought and less if it sold.
   */
  lemma {:induction false} ReceiptByRows(t: Transaction, wallet: string, mint: string, buys: bool, signature: string)
    ensures VerifiedReceipt(t, wallet, mint, buys, signature) <==>
      && t.succeeded && |wallet| > 0 && |mint| > 0 && |signature| > 0 && signature in t.signatures
      && (exists i: nat :: SignsAt(t, wallet, i))
      && var before, after := HeldTotal(t.preTokens, wallet, mint), HeldTotal(t.postTokens, wallet, mint);
         if buys then after > before else after < before
  {
    SignerIsFirst(t.keys, wallet);
    if SignerIndex(t.keys, wallet) < |t.keys| {
      assert SignsAt(t, wallet, SignerIndex(t.keys, wallet));
    }
    OwnedTotal(t.preTokens, wallet, mint);
    OwnedTotal(t.postTokens, wallet, mint);
  }

  /** Each page in reach adds up to a hundred rows. */
  lemma ReachInHundreds(history: seq<string>, pages: nat)
    ensures Reach(history, pages) == if |history| < 100 * pages then history else history[..100 * pages]
  {
    assert |history| == 100 * pages ==> history[..|history|] == history;
  }

  /** The wallet's one account of the mint, at `k` and by this name, holds these amounts before and after. */
  ghost predicate Moves(t: Transaction, wallet: string, mint: string, account: string, k: nat, pre: nat, post: nat) {
    && k < |t.keys| && t.keys[k].address == account
    && HeldAt(t.preTokens, wallet, mint, k, pre) && HeldAt(t.postTokens, wallet, mint, k, post)
  }

  /** The transaction succeeded under this signature, and the wallet signed it, at `i`, with its lamports known there. */
  ghost predicate Signed(t: Transaction, wallet: string, signature: string, i: nat) {
    && t.succeeded && |signature| > 0 && signature in t.signatures
    && SignsAt(t, wallet, i) && i < |t.preLamports| && i < |t.postLamports|
  }

  /**
   Two receipts that close a position, row by row: both succeeded and are signed by the wallet,
   the sell is of a later slot, and one account of the mint goes from nothing to some tokens
   with the buy and from just those back to nothing with the sell.
   */
  lemma {:induction false} ClosedByRows(buy: Transaction, sell: Transaction, wallet: string, mint: string,
                     buySignature: string, sellSignature: string)
    requires ReceiptsClose(buy, sell, wallet, mint, buySignature, sellSignature)
    ensures wallet != "" && mint != "" && buy.slot < sell.slot
    ensures exists i: nat :: Signed(buy, wallet, buySignature, i)
    ensures exists i: nat :: Signed(sell, wallet, sellSignature, i)
    ensures HeldTotal(buy.preTokens, wallet, mint) < HeldTotal(buy.postTokens, wallet, mint)
    ensures HeldTotal(sell.preTokens, wallet, mint) > HeldTotal(sell.postTokens, wallet, mint)
    ensures exists account: string, j: nat, k: nat, tokens: nat ::
      && account != "" && tokens > 0
      && Moves(buy, wallet, mint, account, j, 0, tokens) && Moves(sell, wallet, mint, account, k, tokens, 0)
  {
    ReceiptByRows(buy, wallet, mint, true, buySignature);
    ReceiptByRows(sell, wallet, mint, false, sellSignature);
    DeltaByKeys(buy, wallet, SolDelta(buy, wallet).value);
    DeltaByKeys(sell, wallet, SolDelta(sell, wallet).value);
    var i: nat :| SignsAt(buy, wallet, i) && i < |buy.preLamports| && i < |buy.postLamports|;
    assert Signed(buy, wallet, buySignature, i);
    var n: nat :| SignsAt(sell, wallet, n) && n < |sell.preLamports| && n < |sell.postLamports|;
    assert Signed(sell, wallet, sellSignature, n);
    var account: string, tokens: nat :| OnePosition(buy, sell, wallet, mint, account, tokens);
    var j := PositionMoves(buy, wallet, mint, account, 0, tokens);
    var k := PositionMoves(sell, wallet, mint, account, tokens, 0);
  }

  lemma PositionMoves(t: Transaction, wallet: string, mint: string, account: string, pre: nat, post: nat) returns (k: nat)
    requires TokenPosition(t, wallet, mint) == Some(Position(account, pre, post))
    ensures account != "" && Moves(t, wallet, mint, account, k, pre, post)
  {
    PositionByRows(t, wallet, mint, account, pre, post);
    k :| k < |t.keys| && t.keys[k].address == account
      && HeldAt(t.preTokens, wallet, mint, k, pre) && HeldAt(t.postTokens, wallet, mint, k, post);
  }

  /** And such receipts do close it: nothing else is asked of them. */
  lemma {:induction false} RowsClose(buy: Transaction, sell: Transaction, wallet: string, mint: string,
                  buySignature: string, sellSignature: string,
                  account: string, j: nat, k: nat, tokens: nat, i: nat, n: nat)
    requires wallet != "" && mint != "" && buy.slot < sell.slot
    requires Signed(buy, wallet, buySignature, i) && Signed(sell, wallet, sellSignature, n)
    requires HeldTotal(buy.preTokens, wallet, mint) < HeldTotal(buy.postTokens, wallet, mint)
    requires HeldTotal(sell.preTokens, wallet, mint) > HeldTotal(sell.postTokens, wallet, mint)
    requires account != "" && tokens > 0
    requires Moves(buy, wallet, mint, account, j, 0, tokens) && Moves(sell, wallet, mint, account, k, tokens, 0)
    ensures ReceiptsClose(buy, sell, wallet, mint, buySignature, sellSignature)
    ensures OnePosition(buy, sell, wallet, mint, account, tokens)
  {
    ReceiptByRows(buy, wallet, mint, true, buySignature);
    ReceiptByRows(sell, wallet, mint, false, sellSignature);
    DeltaByKeys(buy, wallet, buy.postLamports[i] - buy.preLamports[i]);
    DeltaByKeys(sell, wallet, sell.postLamports[n] - sell.preLamports[n]);
    MovesPosition(buy, wallet, mint, account, j, 0, tokens);
    MovesPosition(sell, wallet, mint, account, k, tokens, 0);
    assert OnePosition(buy, sell, wallet, mint, account, tokens);
  }

  lemma MovesPosition(t: Transaction, wallet: string, mint: string, account: string, k: nat, pre: nat, post: nat)
    requires account != "" && Moves(t, wallet, mint, account, k, pre, post) && (pre != 0 || post != 0)
    ensures TokenPosition(t, wallet, mint) == Some(Position(account, pre, post))
  {
    PositionByRows(t, wallet, mint, account, pre, post);
  }
}
