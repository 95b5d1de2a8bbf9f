/** Time-weighted holder rewards: weights from balance snapshots, and the pro-rata pool. */
module AutomaticRewards {
  import opened Wrappers
  import opened Arith
  import LargestRemainder

  datatype Error = BadPeriod | NoHistory | BadBoundaries | NotOrdered | BadAccount | BadUnits | BadRecipient

  /** One token account in a snapshot. A negative balance stands for text that is not an unsigned integer. */
  datatype Row = Row(account: string, wallet: string, balance: int)

  datatype Snapshot = Snapshot(at: int, accounts: seq<Row>)

  /** A wallet with its accumulated weight, in the insertion order of the source's map. */
  datatype Entry = Entry(wallet: string, weight: nat)

  // ----- the accumulating map

  predicate Has(t: seq<Entry>, wallet: string) {
    exists i :: 0 <= i < |t| && t[i].wallet == wallet
  }

  function Find(t: seq<Entry>, wallet: string): nat {
    if t == [] then 0
    else if t[0].wallet == wallet then t[0].weight
    else Find(t[1..], wallet)
  }

  function Add(t: seq<Entry>, wallet: string, amount: nat): (r: seq<Entry>) {
    if t == [] then [Entry(wallet, amount)]
    else if t[0].wallet == wallet then [Entry(wallet, t[0].weight + amount)] + t[1..]
    else [t[0]] + Add(t[1..], wallet, amount)
  }

  function Keys(t: seq<Entry>): (keys: seq<string>)
    ensures |keys| == |t|
  {
    seq(|t|, i requires 0 <= i < |t| => t[i].wallet)
  }

  function WeightsOf(t: seq<Entry>): (weights: seq<nat>)
    ensures |weights| == |t|
  {
    seq(|t|, i requires 0 <= i < |t| => t[i].weight)
  }

  predicate Distinct(t: seq<Entry>) {
    forall i, j :: 0 <= i < j < |t| ==> t[i].wallet != t[j].wallet
  }

  lemma {:induction false} AddEffect(t: seq<Entry>, wallet: string, amount: nat, x: string)
    ensures Find(Add(t, wallet, amount), x) == Find(t, x) + (if x == wallet then amount else 0)
    ensures Has(Add(t, wallet, amount), x) <==> Has(t, x) || x == wallet
  {
    var r := Add(t, wallet, amount);
    if t == [] {
      assert r[0].wallet == wallet;
    } else if t[0].wallet == wallet {
      assert forall i :: 1 <= i < |t| ==> r[i] == t[i];
      assert r[0].wallet == wallet && r[1..] == t[1..];
      if Has(t, x) {
        var i :| 0 <= i < |t| && t[i].wallet == x;
        assert r[i].wallet == x;
      }
    } else {
      AddEffect(t[1..], wallet, amount, x);
      HasTail(t, x);
      HasTail(r, x);
      assert r[1..] == Add(t[1..], wallet, amount);
    }
  }

  lemma HasTail(t: seq<Entry>, x: string)
    requires t != []
    ensures Has(t, x) <==> t[0].wallet == x || Has(t[1..], x)
  {
    if Has(t[1..], x) {
      var i :| 0 <= i < |t[1..]| && t[1..][i].wallet == x;
      assert t[i + 1].wallet == x;
    }
    if Has(t, x) && t[0].wallet != x {
      var i :| 0 <= i < |t| && t[i].wallet == x;
      assert t[1..][i - 1].wallet == x;
    }
  }

  lemma {:induction false} AddDistinct(t: seq<Entry>, wallet: string, amount: nat)
    requires Distinct(t)
    ensures Distinct(Add(t, wallet, amount))
  {
    if t != [] && t[0].wallet != wallet {
      AddDistinct(t[1..], wallet, amount);
      var rest := Add(t[1..], wallet, amount);
      forall j | 0 <= j < |rest| ensures rest[j].wallet != t[0].wallet {
        AddEffect(t[1..], wallet, amount, rest[j].wallet);
        if rest[j].wallet != wallet {
          var i :| 0 <= i < |t[1..]| && t[1..][i].wallet == rest[j].wallet;
          assert t[i + 1].wallet != t[0].wallet;
        }
      }
    }
  }

  lemma {:induction false} AddTotal(t: seq<Entry>, wallet: string, amount: nat)
    ensures Sum(WeightsOf(Add(t, wallet, amount))) == Sum(WeightsOf(t)) + amount
  {
    var r := Add(t, wallet, amount);
    assert WeightsOf(r)[1..] == WeightsOf(r[1..]);
    if t != [] {
      assert WeightsOf(t)[1..] == WeightsOf(t[1..]);
      if t[0].wallet == wallet {
        assert r[1..] == t[1..];
      } else {
        AddTotal(t[1..], wallet, amount);
        assert r[1..] == Add(t[1..], wallet, amount);
      }
    }
  }

  lemma KeysTail(t: seq<Entry>)
    requires t != []
    ensures Keys(t) == [t[0].wallet] + Keys(t[1..])
  {
  }

  /** Where the keys stand does not depend on the amount added. */
  lemma {:induction false} AddKeys(t: seq<Entry>, u: seq<Entry>, wallet: string, a: nat, b: nat)
    requires Keys(t) == Keys(u)
    ensures Keys(Add(t, wallet, a)) == Keys(Add(u, wallet, b))
  {
    assert |t| == |Keys(t)| == |Keys(u)| == |u|;
    KeysTail(Add(t, wallet, a));
    KeysTail(Add(u, wallet, b));
    if t != [] {
      KeysTail(t);
      KeysTail(u);
      assert Keys(t)[1..] == Keys(t[1..]) && Keys(u)[1..] == Keys(u[1..]);
      assert Keys(t)[0] == Keys(u)[0];
      if t[0].wallet != wallet {
        AddKeys(t[1..], u[1..], wallet, a, b);
      }
    }
  }

  lemma {:induction false} PresentKeepsKeys(t: seq<Entry>, wallet: string, amount: nat)
    requires Has(t, wallet)
    ensures Keys(Add(t, wallet, amount)) == Keys(t)
  {
    HasTail(t, wallet);
    var r := Add(t, wallet, amount);
    assert Keys(t) == [t[0].wallet] + Keys(t[1..]);
    if t[0].wallet != wallet {
      PresentKeepsKeys(t[1..], wallet, amount);
      assert r[1..] == Add(t[1..], wallet, amount);
    } else {
      assert r[1..] == t[1..];
    }
    assert Keys(r) == [r[0].wallet] + Keys(r[1..]);
  }

  /** Keys and lookups determine the map. */
  lemma {:induction false} SameMap(t: seq<Entry>, u: seq<Entry>)
    requires Keys(t) == Keys(u) && Distinct(t)
    requires forall w :: Find(t, w) == Find(u, w)
    ensures t == u
  {
    if t != [] {
      assert Keys(t)[0] == Keys(u)[0];
      var k := t[0].wallet;
      assert Find(t, k) == Find(u, k);
      assert Keys(t)[1..] == Keys(t[1..]) && Keys(u)[1..] == Keys(u[1..]);
      forall w ensures Find(t[1..], w) == Find(u[1..], w) {
        if w == k {
          AbsentFindsNothing(t[1..], k);
          forall i | 0 <= i < |u[1..]| ensures u[1..][i].wallet != k {
            assert Keys(u[1..])[i] == Keys(t[1..])[i];
            assert t[i + 1].wallet != t[0].wallet;
          }
          AbsentFindsNothing(u[1..], k);
        } else {
          assert Find(t, w) == Find(u, w);
        }
      }
      SameMap(t[1..], u[1..]);
      assert t == [t[0]] + t[1..] && u == [u[0]] + u[1..];
    }
  }

  lemma {:induction false} AbsentFindsNothing(t: seq<Entry>, wallet: string)
    requires forall i :: 0 <= i < |t| ==> t[i].wallet != wallet
    ensures Find(t, wallet) == 0
  {
    if t != [] {
      AbsentFindsNothing(t[1..], wallet);
    }
  }

  // ----- accumulating snapshots

  predicate GoodRows(rows: seq<Row>) {
    && (forall i :: 0 <= i < |rows| ==> rows[i].account != "" && rows[i].wallet != "" && 0 <= rows[i].balance)
    && (forall i, j :: 0 <= i < j < |rows| ==> rows[i].account != rows[j].account)
  }

  predicate Counted(r: Row, excluded: set<string>) {
    r.wallet !in excluded && 0 <= r.balance
  }

  /** The map after adding the first `n` rows of a snapshot held for `duration`. */
  function AddRows(t: seq<Entry>, rows: seq<Row>, n: nat, excluded: set<string>, duration: nat): seq<Entry>
    requires n <= |rows|
  {
    if n == 0 then t
    else
      var before := AddRows(t, rows, n - 1, excluded, duration);
      var r := rows[n - 1];
      if Counted(r, excluded) then Add(before, r.wallet, r.balance * duration) else before
  }

  predicate Ordered(snapshots: seq<Snapshot>) {
    forall i, j :: 0 <= i < j < |snapshots| ==> snapshots[i].at < snapshots[j].at
  }

  function Duration(snapshots: seq<Snapshot>, i: nat): int
    requires i < |snapshots|
  {
    if i == |snapshots| - 1 then 0 else snapshots[i + 1].at - snapshots[i].at
  }

  lemma DurationNatural(snapshots: seq<Snapshot>, i: nat)
    requires i < |snapshots| && Ordered(snapshots)
    ensures 0 <= Duration(snapshots, i)
  {
  }

  function Accumulate(snapshots: seq<Snapshot>, n: nat, excluded: set<string>): seq<Entry>
    requires n <= |snapshots| && Ordered(snapshots)
  {
    if n == 0 then []
    else
      DurationNatural(snapshots, n - 1);
      var rows := snapshots[n - 1].accounts;
      AddRows(Accumulate(snapshots, n - 1, excluded), rows, |rows|, excluded, Duration(snapshots, n - 1))
  }

  /** What `wallet` holds over the first `n` rows; nothing if it is excluded. */
  function Balance(rows: seq<Row>, n: nat, excluded: set<string>, wallet: string): nat
    requires n <= |rows|
  {
    if n == 0 then 0
    else Balance(rows, n - 1, excluded, wallet)
         + (if rows[n - 1].wallet == wallet && Counted(rows[n - 1], excluded) then rows[n - 1].balance else 0)
  }

  lemma Distribute(a: int, b: int, d: int)
    ensures (a + b) * d == a * d + b * d == d * (a + b)
  {
  }

  lemma {:induction false} AddRowsFinds(t: seq<Entry>, rows: seq<Row>, n: nat, excluded: set<string>,
                                        duration: nat, wallet: string)
    requires n <= |rows|
    ensures Find(AddRows(t, rows, n, excluded, duration), wallet)
         == Find(t, wallet) + Balance(rows, n, excluded, wallet) * duration
  {
    if n != 0 {
      AddRowsFinds(t, rows, n - 1, excluded, duration, wallet);
      var r := rows[n - 1];
      if Counted(r, excluded) {
        AddEffect(AddRows(t, rows, n - 1, excluded, duration), r.wallet, r.balance * duration, wallet);
        Distribute(Balance(rows, n - 1, excluded, wallet), r.balance, duration);
      }
    }
  }

  lemma {:induction false} AddRowsDistinct(t: seq<Entry>, rows: seq<Row>, n: nat, excluded: set<string>, duration: nat)
    requires n <= |rows| && Distinct(t)
    ensures Distinct(AddRows(t, rows, n, excluded, duration))
  {
    if n != 0 {
      AddRowsDistinct(t, rows, n - 1, excluded, duration);
      var r := rows[n - 1];
      if Counted(r, excluded) {
        AddDistinct(AddRows(t, rows, n - 1, excluded, duration), r.wallet, r.balance * duration);
      }
    }
  }

  lemma {:induction false} AccumulateDistinct(snapshots: seq<Snapshot>, n: nat, excluded: set<string>)
    requires n <= |snapshots| && Ordered(snapshots)
    ensures Distinct(Accumulate(snapshots, n, excluded))
  {
    if n != 0 {
      AccumulateDistinct(snapshots, n - 1, excluded);
      DurationNatural(snapshots, n - 1);
      AddRowsDistinct(Accumulate(snapshots, n - 1, excluded), snapshots[n - 1].accounts,
                      |snapshots[n - 1].accounts|, excluded, Duration(snapshots, n - 1));
    }
  }

  // ----- the balance step function and its integral

  /** What `wallet` holds at second `t`: the latest of the first `n` snapshots not after `t` decides. */
  function HeldAt(snapshots: seq<Snapshot>, n: nat, excluded: set<string>, wallet: string, t: int): nat
    requires n <= |snapshots|
  {
    if n == 0 then 0
    else if snapshots[n - 1].at <= t then
      Balance(snapshots[n - 1].accounts, |snapshots[n - 1].accounts|, excluded, wallet)
    else HeldAt(snapshots, n - 1, excluded, wallet, t)
  }

  /** The integral of a balance over the seconds `lo <= t < hi`. */
  function Integral(snapshots: seq<Snapshot>, n: nat, excluded: set<string>, wallet: string, lo: int, hi: int): nat
    requires n <= |snapshots|
    decreases hi - lo
  {
    if hi <= lo then 0
    else Integral(snapshots, n, excluded, wallet, lo, hi - 1) + HeldAt(snapshots, n, excluded, wallet, hi - 1)
  }

  lemma {:induction false} IntegralSplits(snapshots: seq<Snapshot>, n: nat, excluded: set<string>, wallet: string,
                                          lo: int, mid: int, hi: int)
    requires n <= |snapshots| && lo <= mid <= hi
    ensures Integral(snapshots, n, excluded, wallet, lo, hi)
         == Integral(snapshots, n, excluded, wallet, lo, mid) + Integral(snapshots, n, excluded, wallet, mid, hi)
    decreases hi - mid
  {
    if mid < hi {
      IntegralSplits(snapshots, n, excluded, wallet, lo, mid, hi - 1);
    }
  }

  lemma {:induction false} HeldDuring(snapshots: seq<Snapshot>, n: nat, i: nat, excluded: set<string>, wallet: string, t: int)
    requires Ordered(snapshots) && i < n <= |snapshots|
    requires snapshots[i].at <= t && (i + 1 < |snapshots| ==> t < snapshots[i + 1].at)
    ensures HeldAt(snapshots, n, excluded, wallet, t)
         == Balance(snapshots[i].accounts, |snapshots[i].accounts|, excluded, wallet)
  {
    if i < n - 1 {
      assert snapshots[i + 1].at <= snapshots[n - 1].at;
      HeldDuring(snapshots, n - 1, i, excluded, wallet, t);
    }
  }

  lemma {:induction false} IntegralDuring(snapshots: seq<Snapshot>, i: nat, excluded: set<string>, wallet: string, hi: int)
    requires Ordered(snapshots) && i + 1 < |snapshots|
    requires snapshots[i].at <= hi <= snapshots[i + 1].at
    ensures Integral(snapshots, |snapshots|, excluded, wallet, snapshots[i].at, hi)
         == Balance(snapshots[i].accounts, |snapshots[i].accounts|, excluded, wallet) * (hi - snapshots[i].at)
    decreases hi - snapshots[i].at
  {
    if hi > snapshots[i].at {
      var b := Balance(snapshots[i].accounts, |snapshots[i].accounts|, excluded, wallet);
      IntegralDuring(snapshots, i, excluded, wallet, hi - 1);
      HeldDuring(snapshots, |snapshots|, i, excluded, wallet, hi - 1);
      OneMoreSecond(b, hi - 1 - snapshots[i].at, hi - snapshots[i].at);
    }
  }

  lemma OneMoreSecond(balance: nat, before: int, after: int)
    requires after == before + 1
    ensures balance * before + balance == balance * after
  {
  }

  /** The accumulated weight of a wallet is the integral of its balance over the period. */
  lemma {:induction false} AccumulatesIntegral(snapshots: seq<Snapshot>, n: nat, excluded: set<string>, wallet: string)
    requires Ordered(snapshots) && 2 <= |snapshots| && n <= |snapshots|
    ensures Find(Accumulate(snapshots, n, excluded), wallet)
         == Integral(snapshots, |snapshots|, excluded, wallet, snapshots[0].at,
                     snapshots[if n < |snapshots| then n else |snapshots| - 1].at)
  {
    if n != 0 {
      var i, total := n - 1, |snapshots|;
      AccumulatesIntegral(snapshots, i, excluded, wallet);
      DurationNatural(snapshots, i);
      var rows := snapshots[i].accounts;
      AddRowsFinds(Accumulate(snapshots, i, excluded), rows, |rows|, excluded, Duration(snapshots, i), wallet);
      if n < total {
        assert snapshots[0].at <= snapshots[i].at;
        assert snapshots[i].at < snapshots[n].at;
        IntegralDuring(snapshots, i, excluded, wallet, snapshots[n].at);
        IntegralSplits(snapshots, total, excluded, wallet, snapshots[0].at, snapshots[i].at, snapshots[n].at);
      }
    }
  }

  // ----- the published weights

  /** Code-unit order on addresses. */
  predicate Precedes(a: string, b: string) {
    b != [] && (a == [] || a[0] < b[0] || (a[0] == b[0] && Precedes(a[1..], b[1..])))
  }

  function InsertEntry(sorted: seq<Entry>, e: Entry): seq<Entry> {
    if sorted == [] || Precedes(e.wallet, sorted[0].wallet) then [e] + sorted
    else [sorted[0]] + InsertEntry(sorted[1..], e)
  }

  /** The positive entries among the first `n`, in address order. */
  function Publish(t: seq<Entry>, n: nat): seq<Entry>
    requires n <= |t|
  {
    if n == 0 then []
    else if t[n - 1].weight == 0 then Publish(t, n - 1)
    else InsertEntry(Publish(t, n - 1), t[n - 1])
  }

  lemma {:induction false} InsertEntryTotal(sorted: seq<Entry>, e: Entry)
    ensures Sum(WeightsOf(InsertEntry(sorted, e))) == Sum(WeightsOf(sorted)) + e.weight
  {
    var r := InsertEntry(sorted, e);
    if sorted == [] || Precedes(e.wallet, sorted[0].wallet) {
      assert WeightsOf(r)[1..] == WeightsOf(sorted);
    } else {
      var rest := InsertEntry(sorted[1..], e);
      InsertEntryTotal(sorted[1..], e);
      assert WeightsOf(r)[1..] == WeightsOf(rest) && WeightsOf(sorted)[1..] == WeightsOf(sorted[1..]);
    }
  }

  lemma {:induction false} InsertEntryHas(sorted: seq<Entry>, e: Entry, w: string)
    ensures Has(InsertEntry(sorted, e), w) <==> Has(sorted, w) || w == e.wallet
  {
    var r := InsertEntry(sorted, e);
    HasTail(r, w);
    if sorted == [] || Precedes(e.wallet, sorted[0].wallet) {
      assert r[1..] == sorted;
    } else {
      InsertEntryHas(sorted[1..], e, w);
      assert r[1..] == InsertEntry(sorted[1..], e);
      HasTail(sorted, w);
    }
  }

  lemma {:induction false} InsertEntryFinds(sorted: seq<Entry>, e: Entry, w: string)
    requires !Has(sorted, e.wallet)
    ensures Find(InsertEntry(sorted, e), w) == if w == e.wallet then e.weight else Find(sorted, w)
  {
    var r := InsertEntry(sorted, e);
    if sorted == [] || Precedes(e.wallet, sorted[0].wallet) {
      assert r[1..] == sorted;
    } else {
      HasTail(sorted, e.wallet);
      InsertEntryFinds(sorted[1..], e, w);
      assert r[1..] == InsertEntry(sorted[1..], e);
    }
  }

  lemma {:induction false} InsertEntryPositive(sorted: seq<Entry>, e: Entry)
    requires 0 < e.weight && forall i :: 0 <= i < |sorted| ==> 0 < sorted[i].weight
    ensures forall i :: 0 <= i < |InsertEntry(sorted, e)| ==> 0 < InsertEntry(sorted, e)[i].weight
  {
    if sorted != [] && !Precedes(e.wallet, sorted[0].wallet) {
      InsertEntryPositive(sorted[1..], e);
    }
  }

  lemma {:induction false} InsertEntryDistinct(sorted: seq<Entry>, e: Entry)
    requires !Has(sorted, e.wallet) && Distinct(sorted)
    ensures Distinct(InsertEntry(sorted, e))
  {
    if sorted != [] && !Precedes(e.wallet, sorted[0].wallet) {
      var rest := InsertEntry(sorted[1..], e);
      HasTail(sorted, e.wallet);
      InsertEntryDistinct(sorted[1..], e);
      forall j | 0 <= j < |rest| ensures rest[j].wallet != sorted[0].wallet {
        InsertEntryHas(sorted[1..], e, rest[j].wallet);
        assert Has(rest, rest[j].wallet);
      }
    }
  }

  lemma {:induction false} PublishEffect(t: seq<Entry>, n: nat)
    requires n <= |t| && Distinct(t)
    ensures Sum(WeightsOf(Publish(t, n))) == Sum(WeightsOf(t)[..n])
    ensures Distinct(Publish(t, n))
    ensures forall w :: Find(Publish(t, n), w) == Find(t[..n], w)
    ensures forall w :: Has(Publish(t, n), w) ==> Has(t[..n], w)
    ensures forall i :: 0 <= i < |Publish(t, n)| ==> 0 < Publish(t, n)[i].weight
  {
    if n != 0 {
      PublishEffect(t, n - 1);
      SumTake(WeightsOf(t), n - 1);
      var e, front := t[n - 1], t[..n - 1];
      assert t[..n] == front + [e];
      assert !Has(front, e.wallet);
      forall w
        ensures Find(t[..n], w) == if w == e.wallet then e.weight else Find(front, w)
        ensures Has(t[..n], w) <==> Has(front, w) || w == e.wallet
      {
        FindAppend(front, e, w);
      }
      if e.weight == 0 {
        forall i | 0 <= i < |front| ensures front[i].wallet != e.wallet {}
        AbsentFindsNothing(front, e.wallet);
      } else {
        var before := Publish(t, n - 1);
        assert !Has(before, e.wallet);
        InsertEntryTotal(before, e);
        InsertEntryPositive(before, e);
        InsertEntryDistinct(before, e);
        forall w
          ensures Find(Publish(t, n), w) == Find(t[..n], w)
          ensures Has(Publish(t, n), w) ==> Has(t[..n], w)
        {
          InsertEntryHas(before, e, w);
          InsertEntryFinds(before, e, w);
        }
      }
    }
  }

  lemma {:induction false} FindAppend(t: seq<Entry>, e: Entry, w: string)
    requires !Has(t, e.wallet)
    ensures Find(t + [e], w) == if w == e.wallet then e.weight else Find(t, w)
    ensures Has(t + [e], w) <==> Has(t, w) || w == e.wallet
  {
    var r := t + [e];
    assert r[|t|] == e;
    if Has(t, w) {
      var i :| 0 <= i < |t| && t[i].wallet == w;
      assert r[i].wallet == w;
    }
    if t == [] {
    } else {
      assert t[0].wallet != e.wallet;
      HasTail(t, e.wallet);
      FindAppend(t[1..], e, w);
      assert r[1..] == t[1..] + [e];
    }
  }

  datatype Period = Period(start: int, end: int, snapshots: seq<Snapshot>, excluded: set<string>, covered: bool)

  predicate Valid(p: Period) {
    && p.start < p.end && p.covered && 2 <= |p.snapshots|
    && p.snapshots[0].at == p.start && p.snapshots[|p.snapshots| - 1].at == p.end
    && Ordered(p.snapshots)
    && (forall i :: 0 <= i < |p.snapshots| ==> GoodRows(p.snapshots[i].accounts))
  }

  function Weights(p: Period): seq<Entry>
    requires Valid(p)
  {
    var t := Accumulate(p.snapshots, |p.snapshots|, p.excluded);
    Publish(t, |t|)
  }

  method CheckRows(rows: seq<Row>) returns (error: Option<Error>)
    ensures error.None? <==> GoodRows(rows)
  {
    var accounts: set<string> := {};
    for k := 0 to |rows|
      invariant accounts == set i | 0 <= i < k :: rows[i].account
      invariant GoodRows(rows[..k])
    {
      var row := rows[k];
      if row.account == "" || row.wallet == "" || row.account in accounts {
        assert row == rows[k];
        return Some(BadAccount);
      }
      if row.balance < 0 {
        assert row == rows[k];
        return Some(BadUnits);
      }
      accounts := accounts + {row.account};
      assert rows[..k + 1] == rows[..k] + [row];
    }
    assert rows[..|rows|] == rows;
    error := None;
  }

  method StrictlyOrdered(s: seq<Snapshot>) returns (ordered: bool)
    ensures ordered <==> Ordered(s)
  {
    for i := 0 to |s|
      invariant Ordered(s[..i])
    {
      if 0 < i && s[i].at <= s[i - 1].at {
        return false;
      }
      assert s[..i + 1] == s[..i] + [s[i]];
      assert 0 < i ==> s[..i][i - 1] == s[i - 1];
    }
    assert s[..|s|] == s;
    ordered := true;
  }

  method AddSnapshot(weights: seq<Entry>, rows: seq<Row>, excluded: set<string>, duration: nat)
    returns (r: seq<Entry>)
    requires GoodRows(rows)
    ensures r == AddRows(weights, rows, |rows|, excluded, duration)
  {
    r := weights;
    for k := 0 to |rows|
      invariant r == AddRows(weights, rows, k, excluded, duration)
    {
      if rows[k].wallet !in excluded {
        r := Add(r, rows[k].wallet, rows[k].balance * duration);
      }
    }
  }

  method HoldingWeights(p: Period) returns (r: Result<seq<Entry>, Error>)
    ensures r.Ok? <==> Valid(p)
    ensures r.Ok? ==> r.value == Weights(p)
  {
    if p.end <= p.start {
      return Err(BadPeriod);
    }
    if !p.covered || |p.snapshots| < 2 {
      return Err(NoHistory);
    }
    var s := p.snapshots;
    if s[0].at != p.start || s[|s| - 1].at != p.end {
      return Err(BadBoundaries);
    }
    var ordered := StrictlyOrdered(s);
    if !ordered {
      return Err(NotOrdered);
    }
    var weights: seq<Entry> := [];
    for i := 0 to |s|
      invariant forall j :: 0 <= j < i ==> GoodRows(s[j].accounts)
      invariant weights == Accumulate(s, i, p.excluded)
    {
      DurationNatural(s, i);
      var error := CheckRows(s[i].accounts);
      if error.Some? {
        return Err(error.value);
      }
      weights := AddSnapshot(weights, s[i].accounts, p.excluded, Duration(s, i));
    }
    r := Ok(Publish(weights, |weights|));
  }

  /** The published weight of every wallet is the integral of its balance; no entry is zero or repeated. */
  lemma WeightsAreIntegrals(p: Period)
    requires Valid(p)
    ensures Distinct(Weights(p))
    ensures forall i :: 0 <= i < |Weights(p)| ==> 0 < Weights(p)[i].weight
    ensures forall w :: Find(Weights(p), w)
              == Integral(p.snapshots, |p.snapshots|, p.excluded, w, p.start, p.end)
  {
    var t := Accumulate(p.snapshots, |p.snapshots|, p.excluded);
    AccumulateDistinct(p.snapshots, |p.snapshots|, p.excluded);
    PublishEffect(t, |t|);
    assert t[..|t|] == t;
    forall w ensures Find(t, w) == Integral(p.snapshots, |p.snapshots|, p.excluded, w, p.start, p.end) {
      AccumulatesIntegral(p.snapshots, |p.snapshots|, p.excluded, w);
    }
  }

  function Supply(rows: seq<Row>, n: nat): int
    requires n <= |rows|
  {
    if n == 0 then 0 else Supply(rows, n - 1) + rows[n - 1].balance
  }

  lemma {:induction false} AddRowsTotal(t: seq<Entry>, rows: seq<Row>, n: nat, duration: nat)
    requires n <= |rows| && GoodRows(rows)
    ensures Sum(WeightsOf(AddRows(t, rows, n, {}, duration))) == Sum(WeightsOf(t)) + Supply(rows, n) * duration
  {
    if n != 0 {
      AddRowsTotal(t, rows, n - 1, duration);
      AddTotal(AddRows(t, rows, n - 1, {}, duration), rows[n - 1].wallet, rows[n - 1].balance * duration);
      Distribute(Supply(rows, n - 1), rows[n - 1].balance, duration);
    }
  }

  function Elapsed(snapshots: seq<Snapshot>, n: nat): int
    requires n <= |snapshots|
  {
    if n == 0 then 0 else Elapsed(snapshots, n - 1) + Duration(snapshots, n - 1)
  }

  lemma {:induction false} ElapsedIs(snapshots: seq<Snapshot>, n: nat)
    requires 0 < |snapshots| && n <= |snapshots|
    ensures Elapsed(snapshots, n) == snapshots[if n < |snapshots| then n else |snapshots| - 1].at - snapshots[0].at
  {
    if n != 0 {
      ElapsedIs(snapshots, n - 1);
    }
  }

  predicate ConstantSupply(snapshots: seq<Snapshot>, supply: nat) {
    forall i :: 0 <= i < |snapshots|
      ==> GoodRows(snapshots[i].accounts) && Supply(snapshots[i].accounts, |snapshots[i].accounts|) == supply
  }

  lemma {:induction false} AccumulateTotal(snapshots: seq<Snapshot>, n: nat, supply: nat)
    requires Ordered(snapshots) && ConstantSupply(snapshots, supply) && n <= |snapshots|
    ensures Sum(WeightsOf(Accumulate(snapshots, n, {}))) == supply * Elapsed(snapshots, n)
  {
    if n != 0 {
      AccumulateTotal(snapshots, n - 1, supply);
      DurationNatural(snapshots, n - 1);
      SnapshotTotal(Accumulate(snapshots, n - 1, {}), snapshots[n - 1].accounts, supply,
                    Elapsed(snapshots, n - 1), Duration(snapshots, n - 1));
    }
  }

  lemma {:induction false} SnapshotTotal(t: seq<Entry>, rows: seq<Row>, supply: nat, elapsed: int, d: nat)
    requires GoodRows(rows) && Supply(rows, |rows|) == supply
    requires Sum(WeightsOf(t)) == supply * elapsed
    ensures Sum(WeightsOf(AddRows(t, rows, |rows|, {}, d))) == supply * (elapsed + d)
  {
    AddRowsTotal(t, rows, |rows|, d);
    Distribute(elapsed, d, supply);
  }

  /** With constant supply and nobody excluded the weights add up to supply times period. */
  lemma ConstantSupplyTotal(p: Period, supply: nat)
    requires Valid(p) && p.excluded == {} && ConstantSupply(p.snapshots, supply)
    ensures Sum(WeightsOf(Weights(p))) == supply * (p.end - p.start)
  {
    var t := Accumulate(p.snapshots, |p.snapshots|, {});
    AccumulateTotal(p.snapshots, |p.snapshots|, supply);
    ElapsedIs(p.snapshots, |p.snapshots|);
    AccumulateDistinct(p.snapshots, |p.snapshots|, {});
    PublishEffect(t, |t|);
    assert WeightsOf(t)[..|t|] == WeightsOf(t);
  }

  // ----- a redundant snapshot

  lemma {:induction false} AddRowsKeys(t: seq<Entry>, u: seq<Entry>, rows: seq<Row>, n: nat,
                                       excluded: set<string>, a: nat, b: nat)
    requires n <= |rows| && Keys(t) == Keys(u)
    ensures Keys(AddRows(t, rows, n, excluded, a)) == Keys(AddRows(u, rows, n, excluded, b))
  {
    if n != 0 {
      AddRowsKeys(t, u, rows, n - 1, excluded, a, b);
      var r := rows[n - 1];
      if Counted(r, excluded) {
        AddKeys(AddRows(t, rows, n - 1, excluded, a), AddRows(u, rows, n - 1, excluded, b),
                r.wallet, r.balance * a, r.balance * b);
      }
    }
  }

  lemma {:induction false} AddRowsHas(t: seq<Entry>, rows: seq<Row>, n: nat, excluded: set<string>, d: nat, k: nat)
    requires k < n <= |rows| && Counted(rows[k], excluded)
    ensures Has(AddRows(t, rows, n, excluded, d), rows[k].wallet)
  {
    var before, r := AddRows(t, rows, n - 1, excluded, d), rows[n - 1];
    if k < n - 1 {
      AddRowsHas(t, rows, n - 1, excluded, d, k);
    }
    if Counted(r, excluded) {
      AddEffect(before, r.wallet, r.balance * d, rows[k].wallet);
    }
  }

  /** Adding the same rows again brings no new key. */
  lemma {:induction false} AgainKeepsKeys(t: seq<Entry>, rows: seq<Row>, n: nat, excluded: set<string>, d: nat)
    requires n <= |rows|
    requires forall k :: 0 <= k < n && Counted(rows[k], excluded) ==> Has(t, rows[k].wallet)
    ensures Keys(AddRows(t, rows, n, excluded, d)) == Keys(t)
  {
    if n != 0 {
      AgainKeepsKeys(t, rows, n - 1, excluded, d);
      var before, r := AddRows(t, rows, n - 1, excluded, d), rows[n - 1];
      if Counted(r, excluded) {
        var i :| 0 <= i < |t| && t[i].wallet == r.wallet;
        assert Keys(before)[i] == Keys(t)[i];
        PresentKeepsKeys(before, r.wallet, r.balance * d);
      }
    }
  }

  /** Holding the same rows for `a` and then for `b` seconds is holding them for `a + b`. */
  lemma {:induction false} AddRowsTwice(t: seq<Entry>, rows: seq<Row>, excluded: set<string>, a: nat, b: nat)
    requires Distinct(t)
    ensures AddRows(AddRows(t, rows, |rows|, excluded, a), rows, |rows|, excluded, b)
         == AddRows(t, rows, |rows|, excluded, a + b)
  {
    var n := |rows|;
    var once := AddRows(t, rows, n, excluded, a);
    var twice, whole := AddRows(once, rows, n, excluded, b), AddRows(t, rows, n, excluded, a + b);
    forall k | 0 <= k < n && Counted(rows[k], excluded) ensures Has(once, rows[k].wallet) {
      AddRowsHas(t, rows, n, excluded, a, k);
    }
    AgainKeepsKeys(once, rows, n, excluded, b);
    AddRowsKeys(t, t, rows, n, excluded, a, a + b);
    AddRowsDistinct(t, rows, n, excluded, a);
    AddRowsDistinct(once, rows, n, excluded, b);
    forall w ensures Find(twice, w) == Find(whole, w) {
      AddRowsTwiceFinds(t, rows, excluded, a, b, w);
    }
    SameMap(twice, whole);
  }

  lemma {:induction false} AddRowsTwiceFinds(t: seq<Entry>, rows: seq<Row>, excluded: set<string>, a: nat, b: nat, w: string)
    requires Distinct(t)
    ensures Find(AddRows(AddRows(t, rows, |rows|, excluded, a), rows, |rows|, excluded, b), w)
         == Find(AddRows(t, rows, |rows|, excluded, a + b), w)
  {
    var n := |rows|;
    var once := AddRows(t, rows, n, excluded, a);
    AddRowsDistinct(t, rows, n, excluded, a);
    AddRowsFinds(t, rows, n, excluded, a, w);
    AddRowsFinds(once, rows, n, excluded, b, w);
    AddRowsFinds(t, rows, n, excluded, a + b, w);
    Together(Find(t, w), Balance(rows, n, excluded, w), a, b);
  }

  lemma Together(f: nat, balance: nat, a: nat, b: nat)
    ensures f + balance * a + balance * b == f + balance * (a + b)
  {
  }

  /** The history with the snapshot at position `i` repeated at a later second `at`. */
  function Redundant(s: seq<Snapshot>, i: nat, at: int): (r: seq<Snapshot>)
    requires i + 1 < |s|
    ensures |r| == |s| + 1
  {
    s[..i + 1] + [Snapshot(at, s[i].accounts)] + s[i + 1..]
  }

  lemma {:induction false} AccumulatePrefix(s: seq<Snapshot>, u: seq<Snapshot>, n: nat, excluded: set<string>)
    requires Ordered(s) && Ordered(u) && n < |s| && n < |u|
    requires forall k :: 0 <= k <= n ==> s[k].at == u[k].at
    requires forall k :: 0 <= k < n ==> s[k] == u[k]
    ensures Accumulate(s, n, excluded) == Accumulate(u, n, excluded)
  {
    if n != 0 {
      AccumulatePrefix(s, u, n - 1, excluded);
    }
  }

  lemma RedundantOrdered(s: seq<Snapshot>, i: nat, at: int)
    requires Ordered(s) && i + 1 < |s| && s[i].at < at < s[i + 1].at
    ensures Ordered(Redundant(s, i, at))
  {
    var r := Redundant(s, i, at);
    assert forall k :: 0 <= k <= i ==> r[k] == s[k];
    assert forall k :: i + 2 <= k < |r| ==> r[k] == s[k - 1];
    forall k | 0 <= k < |s| ensures if k <= i then s[k].at < at else at < s[k].at {
      assert if k <= i then s[k].at <= s[i].at else s[i + 1].at <= s[k].at;
    }
  }

  lemma {:induction false} AccumulateRedundant(s: seq<Snapshot>, i: nat, at: int, n: nat, excluded: set<string>)
    requires Ordered(s) && i + 1 < |s| && s[i].at < at < s[i + 1].at && i < n <= |s|
    requires Ordered(Redundant(s, i, at))
    ensures Accumulate(Redundant(s, i, at), n + 1, excluded) == Accumulate(s, n, excluded)
  {
    var r := Redundant(s, i, at);
    if n == i + 1 {
      AccumulateRepeat(s, r, i, at, excluded);
    } else {
      AccumulateRedundant(s, i, at, n - 1, excluded);
      assert r[n] == s[n - 1] && Duration(r, n) == Duration(s, n - 1);
    }
  }

  /** The two durations of a repeated snapshot add up to its own. */
  lemma AccumulateRepeat(s: seq<Snapshot>, r: seq<Snapshot>, i: nat, at: int, excluded: set<string>)
    requires Ordered(s) && i + 1 < |s| && s[i].at < at < s[i + 1].at
    requires r == Redundant(s, i, at) && Ordered(r)
    ensures Accumulate(r, i + 2, excluded) == Accumulate(s, i + 1, excluded)
  {
    assert forall k :: 0 <= k < i ==> r[k] == s[k];
    AccumulatePrefix(s, r, i, excluded);
    AccumulateDistinct(s, i, excluded);
    var base, rows := Accumulate(s, i, excluded), s[i].accounts;
    assert Duration(r, i) == at - s[i].at && Duration(r, i + 1) == s[i + 1].at - at;
    AddRowsTwice(base, rows, excluded, at - s[i].at, s[i + 1].at - at);
    assert Accumulate(r, i + 1, excluded) == AddRows(base, rows, |rows|, excluded, at - s[i].at);
  }

  /** Repeating a snapshot between two others changes nothing that is published. */
  lemma RedundantSnapshotChangesNothing(p: Period, i: nat, at: int)
    requires Valid(p) && i + 1 < |p.snapshots| && p.snapshots[i].at < at < p.snapshots[i + 1].at
    ensures Valid(p.(snapshots := Redundant(p.snapshots, i, at)))
    ensures Weights(p.(snapshots := Redundant(p.snapshots, i, at))) == Weights(p)
  {
    RedundantOrdered(p.snapshots, i, at);
    RedundantRowsGood(p.snapshots, i, at);
    AccumulateRedundant(p.snapshots, i, at, |p.snapshots|, p.excluded);
  }

  lemma RedundantRowsGood(s: seq<Snapshot>, i: nat, at: int)
    requires i + 1 < |s| && forall k :: 0 <= k < |s| ==> GoodRows(s[k].accounts)
    ensures forall k :: 0 <= k < |Redundant(s, i, at)| ==> GoodRows(Redundant(s, i, at)[k].accounts)
    ensures Redundant(s, i, at)[0].at == s[0].at && Redundant(s, i, at)[|s|].at == s[|s| - 1].at
  {
    var r := Redundant(s, i, at);
    forall k | 0 <= k < |r| ensures GoodRows(r[k].accounts) {
      assert r[k].accounts == s[if k <= i then k else k - 1].accounts;
    }
  }

  // ----- the pool

  function Payout(pool: nat, weights: seq<nat>, i: nat): nat
    requires i < |weights|
  {
    if Sum(weights) <= 0 then 0 else pool * weights[i] / Sum(weights)
  }

  function Payouts(pool: nat, weights: seq<nat>): (s: seq<nat>)
    ensures |s| == |weights|
  {
    seq(|weights|, i requires 0 <= i < |weights| => Payout(pool, weights, i))
  }

  /** The wallets among the first `n` that are actually paid, with their payouts. */
  function Paid(pool: nat, t: seq<Entry>, n: nat): seq<Entry>
    requires n <= |t|
  {
    if n == 0 then []
    else Paid(pool, t, n - 1)
         + (if Payout(pool, WeightsOf(t), n - 1) == 0 then []
            else [Entry(t[n - 1].wallet, Payout(pool, WeightsOf(t), n - 1))])
  }

  predicate GoodRecipients(t: seq<Entry>) {
    Distinct(t) && forall i :: 0 <= i < |t| ==> t[i].wallet != ""
  }

  datatype Pool = Pool(allocations: seq<Entry>, remainder: int)

  function HolderPool(pool: nat, t: seq<Entry>): Pool {
    var paid := Paid(pool, t, |t|);
    Pool(paid, pool - Sum(WeightsOf(paid)))
  }

  /** The total weight of a well-formed recipient list. */
  method ParseRecipients(t: seq<Entry>) returns (r: Result<nat, Error>)
    ensures r.Ok? <==> GoodRecipients(t)
    ensures r.Ok? ==> r.value == Sum(WeightsOf(t))
    ensures r.Err? ==> r.error == BadRecipient
  {
    var seen: set<string> := {};
    var total := 0;
    for k := 0 to |t|
      invariant seen == set i | 0 <= i < k :: t[i].wallet
      invariant GoodRecipients(t[..k])
      invariant total == Sum(WeightsOf(t)[..k])
    {
      if t[k].wallet == "" || t[k].wallet in seen {
        return Err(BadRecipient);
      }
      seen := seen + {t[k].wallet};
      assert t[..k + 1] == t[..k] + [t[k]];
      SumTake(WeightsOf(t), k);
      total := total + t[k].weight;
    }
    assert t[..|t|] == t && WeightsOf(t)[..|t|] == WeightsOf(t);
    SumNonNegative(WeightsOf(t));
    r := Ok(total);
  }

  method AllocateHolderPool(pool: nat, t: seq<Entry>) returns (r: Result<Pool, Error>)
    ensures r == if GoodRecipients(t) then Ok(HolderPool(pool, t)) else Err(BadRecipient)
  {
    var total := ParseRecipients(t);
    if total.Err? {
      return Err(BadRecipient);
    }
    var paid: seq<Entry> := [];
    var spent := 0;
    for k := 0 to |t|
      invariant paid == Paid(pool, t, k) && spent == Sum(WeightsOf(paid))
    {
      var amount := if total.value == 0 then 0 else pool * t[k].weight / total.value;
      assert amount == Payout(pool, WeightsOf(t), k);
      if amount != 0 {
        var e := Entry(t[k].wallet, amount);
        assert WeightsOf(paid + [e]) == WeightsOf(paid) + [amount];
        SumAppend(WeightsOf(paid), amount);
        paid := paid + [e];
        spent := spent + amount;
      }
    }
    r := Ok(Pool(paid, pool - spent));
  }

  lemma {:induction false} PaidSum(pool: nat, t: seq<Entry>, n: nat)
    requires n <= |t|
    ensures Sum(WeightsOf(Paid(pool, t, n))) == Sum(Payouts(pool, WeightsOf(t))[..n])
  {
    if n != 0 {
      PaidSum(pool, t, n - 1);
      SumTake(Payouts(pool, WeightsOf(t)), n - 1);
      var amount, before := Payout(pool, WeightsOf(t), n - 1), Paid(pool, t, n - 1);
      if amount == 0 {
        assert Paid(pool, t, n) == before;
      } else {
        assert WeightsOf(Paid(pool, t, n)) == WeightsOf(before) + [amount];
        SumAppend(WeightsOf(before), amount);
      }
    }
  }

  function Positive(weights: seq<nat>): nat {
    if weights == [] then 0 else (if 0 < weights[0] then 1 else 0) + Positive(weights[1..])
  }

  lemma {:induction false} SumBelowPositive(rems: seq<nat>, weights: seq<nat>, bound: nat)
    requires |rems| == |weights| && 0 < bound
    requires forall i :: 0 <= i < |rems| ==> rems[i] < bound && (weights[i] == 0 ==> rems[i] == 0)
    ensures Sum(rems) <= Positive(weights) * bound
    ensures 0 < Positive(weights) ==> Sum(rems) < Positive(weights) * bound
    ensures Positive(weights) == 0 ==> Sum(weights) == 0
  {
    if rems != [] {
      SumBelowPositive(rems[1..], weights[1..], bound);
      Distribute(Positive(weights[1..]), 1, bound);
    }
  }

  /**
   Payouts and the retained dust make up the pool exactly. The dust is below the number of
   wallets with weight exactly when there is any weight at all; otherwise it is the pool.
   */
  lemma PoolConserved(pool: nat, t: seq<Entry>)
    ensures var p := HolderPool(pool, t);
      && Sum(WeightsOf(p.allocations)) + p.remainder == pool
      && 0 <= p.remainder
      && (p.remainder < Positive(WeightsOf(t)) <==> 0 < Sum(WeightsOf(t)))
      && (Sum(WeightsOf(t)) == 0 ==> p.allocations == [] && p.remainder == pool)
  {
    var weights := WeightsOf(t);
    PaidSum(pool, t, |t|);
    assert Payouts(pool, weights)[..|t|] == Payouts(pool, weights);
    SumNonNegative(weights);
    if 0 < Sum(weights) {
      DustBelowPositive(pool, weights);
    } else {
      NothingToPay(pool, t, |t|);
      NoWeightNoPositive(weights);
    }
  }

  lemma {:induction false} DustBelowPositive(pool: nat, weights: seq<nat>)
    requires 0 < Sum(weights)
    ensures 0 <= pool - Sum(Payouts(pool, weights)) < Positive(weights)
  {
    var total, rems := Sum(weights), LargestRemainder.Remainders(pool, weights);
    assert Payouts(pool, weights) == LargestRemainder.Floors(pool, weights);
    LargestRemainder.RemaindersTotal(pool, weights);
    LargestRemainder.LeftoverReachesOnlyRemainders(pool, weights);
    forall i | 0 <= i < |weights| && weights[i] == 0 ensures rems[i] == 0 {
      DivIs(pool * weights[i], total, 0);
    }
    SumBelowPositive(rems, weights, total);
    LargestRemainder.Cancel(LargestRemainder.Leftover(pool, weights), Positive(weights), total);
  }

  lemma {:induction false} NothingToPay(pool: nat, t: seq<Entry>, n: nat)
    requires n <= |t| && Sum(WeightsOf(t)) == 0
    ensures Paid(pool, t, n) == []
  {
    if n != 0 {
      NothingToPay(pool, t, n - 1);
    }
  }

  lemma {:induction false} NoWeightNoPositive(weights: seq<nat>)
    requires Sum(weights) == 0
    ensures Positive(weights) == 0
  {
    if weights != [] {
      SumNonNegative(weights[1..]);
      NoWeightNoPositive(weights[1..]);
    }
  }

  /** Dividing a wallet's weight between two wallets never raises what they receive together. */
  lemma SplittingNeverPays(pool: nat, weights: seq<nat>, i: nat, moved: nat)
    requires i < |weights| && moved <= weights[i]
    ensures var split := weights[i := weights[i] - moved] + [moved];
      && Sum(split) == Sum(weights)
      && Payout(pool, split, i) + Payout(pool, split, |weights|) <= Payout(pool, weights, i)
      && forall j :: 0 <= j < |weights| && j != i ==> Payout(pool, split, j) == Payout(pool, weights, j)
  {
    var kept := weights[i] - moved;
    SumUpdate(weights, i, kept);
    SumAppend(weights[i := kept], moved);
    if 0 < Sum(weights) {
      Distribute(kept, moved, pool);
      DivSum(pool * kept, pool * moved, Sum(weights));
    }
  }

  // ----- what is published and paid, written out

  /** What a wallet holds over all rows of a snapshot, from the first row on. */
  function Holds(rows: seq<Row>, wallet: string): int {
    if rows == [] then 0 else (if rows[0].wallet == wallet then rows[0].balance else 0) + Holds(rows[1..], wallet)
  }

  lemma {:induction false} HoldsAppend(rows: seq<Row>, r: Row, wallet: string)
    ensures Holds(rows + [r], wallet) == Holds(rows, wallet) + (if r.wallet == wallet then r.balance else 0)
  {
    if rows == [] {
      assert rows + [r] == [r] && [r][1..] == [];
    } else {
      assert (rows + [r])[1..] == rows[1..] + [r] && (rows + [r])[0] == rows[0];
      HoldsAppend(rows[1..], r, wallet);
    }
  }

  lemma {:induction false} BalanceIsHeld(rows: seq<Row>, n: nat, excluded: set<string>, wallet: string)
    requires n <= |rows| && forall i :: 0 <= i < |rows| ==> 0 <= rows[i].balance
    ensures Balance(rows, n, excluded, wallet) == if wallet in excluded then 0 else Holds(rows[..n], wallet)
  {
    if n != 0 {
      BalanceIsHeld(rows, n - 1, excluded, wallet);
      assert rows[..n] == rows[..n - 1] + [rows[n - 1]];
      HoldsAppend(rows[..n - 1], rows[n - 1], wallet);
    }
  }

  /** What the wallet holds while snapshot `i` lasts, times that, over the first `n` snapshots. */
  function HeldSeconds(snapshots: seq<Snapshot>, n: nat, wallet: string): int
    requires n < |snapshots|
  {
    if n == 0 then 0
    else HeldSeconds(snapshots, n - 1, wallet)
         + Holds(snapshots[n - 1].accounts, wallet) * (snapshots[n].at - snapshots[n - 1].at)
  }

  lemma {:induction false} AccumulatesHeldSeconds(snapshots: seq<Snapshot>, n: nat, excluded: set<string>, wallet: string)
    requires Ordered(snapshots) && n < |snapshots|
    requires forall i :: 0 <= i < |snapshots| ==> GoodRows(snapshots[i].accounts)
    ensures Find(Accumulate(snapshots, n, excluded), wallet)
         == if wallet in excluded then 0 else HeldSeconds(snapshots, n, wallet)
  {
    if n != 0 {
      var rows := snapshots[n - 1].accounts;
      assert rows[..|rows|] == rows;
      AccumulatesHeldSeconds(snapshots, n - 1, excluded, wallet);
      DurationNatural(snapshots, n - 1);
      AddRowsFinds(Accumulate(snapshots, n - 1, excluded), rows, |rows|, excluded, Duration(snapshots, n - 1), wallet);
      BalanceIsHeld(rows, |rows|, excluded, wallet);
    }
  }

  /** `a` comes before `b` in code-unit order: at the first difference, or by ending first. */
  predicate Before(a: string, b: string, k: nat) {
    k <= |a| && k < |b| && a[..k] == b[..k] && (k == |a| || a[k] < b[k])
  }

  lemma {:induction false} PrecedesAtDifference(a: string, b: string) returns (k: nat)
    requires Precedes(a, b)
    ensures Before(a, b, k)
  {
    k := 0;
    if a != [] && a[0] == b[0] {
      k := PrecedesAtDifference(a[1..], b[1..]);
      k := k + 1;
      assert a[..k] == [a[0]] + a[1..][..k - 1] && b[..k] == [b[0]] + b[1..][..k - 1];
    }
  }

  lemma {:induction false} PrecedesTotal(a: string, b: string)
    ensures a == b || Precedes(a, b) || Precedes(b, a)
  {
    if a != [] && b != [] && a[0] == b[0] {
      PrecedesTotal(a[1..], b[1..]);
      assert a == [a[0]] + a[1..] && b == [b[0]] + b[1..];
    }
  }

  lemma {:induction false} PrecedesTransitive(a: string, b: string, c: string)
    requires Precedes(a, b) && Precedes(b, c)
    ensures Precedes(a, c)
  {
    if a != [] && a[0] == b[0] && b[0] == c[0] {
      PrecedesTransitive(a[1..], b[1..], c[1..]);
    }
  }

  predicate InOrder(t: seq<Entry>) {
    forall i, j :: 0 <= i < j < |t| ==> Precedes(t[i].wallet, t[j].wallet)
  }

  lemma InOrderCons(e: Entry, t: seq<Entry>)
    requires InOrder(t) && (t != [] ==> Precedes(e.wallet, t[0].wallet))
    ensures InOrder([e] + t)
  {
    forall j | 0 <= j < |t| ensures Precedes(e.wallet, t[j].wallet) {
      if 0 < j {
        PrecedesTransitive(e.wallet, t[0].wallet, t[j].wallet);
      }
    }
  }

  lemma {:induction false} InsertInOrder(sorted: seq<Entry>, e: Entry)
    requires InOrder(sorted) && !Has(sorted, e.wallet)
    ensures InOrder(InsertEntry(sorted, e))
    ensures InsertEntry(sorted, e) != [] && InsertEntry(sorted, e)[0] in sorted + [e]
  {
    if sorted == [] || Precedes(e.wallet, sorted[0].wallet) {
      InOrderCons(e, sorted);
    } else {
      var rest := InsertEntry(sorted[1..], e);
      HasTail(sorted, e.wallet);
      InsertInOrder(sorted[1..], e);
      PrecedesTotal(e.wallet, sorted[0].wallet);
      assert rest[0] in sorted[1..] + [e];
      InOrderCons(sorted[0], rest);
    }
  }

  lemma {:induction false} NotYetPublished(t: seq<Entry>, n: nat)
    requires n < |t| && Distinct(t)
    ensures !Has(Publish(t, n), t[n].wallet)
  {
    PublishEffect(t, n);
    assert !Has(t[..n], t[n].wallet);
  }

  lemma {:induction false} PublishInOrder(t: seq<Entry>, n: nat)
    requires n <= |t| && Distinct(t)
    ensures InOrder(Publish(t, n))
  {
    if n != 0 {
      PublishInOrder(t, n - 1);
      if t[n - 1].weight != 0 {
        NotYetPublished(t, n - 1);
        InsertInOrder(Publish(t, n - 1), t[n - 1]);
      }
    }
  }

  ghost predicate ComesBefore(a: string, b: string) {
    exists k: nat :: Before(a, b, k)
  }

  ghost predicate InCodeUnitOrder(t: seq<Entry>) {
    forall i, j :: 0 <= i < j < |t| ==> ComesBefore(t[i].wallet, t[j].wallet)
  }

  lemma InOrderByCodeUnits(t: seq<Entry>)
    requires InOrder(t)
    ensures InCodeUnitOrder(t)
  {
    forall i, j | 0 <= i < j < |t| ensures ComesBefore(t[i].wallet, t[j].wallet) {
      var k := PrecedesAtDifference(t[i].wallet, t[j].wallet);
    }
  }

  /**
   The published weights of a period: an excluded wallet has none; any other has, for every
   snapshot but the last, all it holds in its accounts times the seconds to the next one; the
   wallets stand in ascending code-unit order.
   */
  lemma {:induction false} PublishedWeights(p: Period, wallet: string)
    requires Valid(p)
    ensures Find(Weights(p), wallet)
         == if wallet in p.excluded then 0 else HeldSeconds(p.snapshots, |p.snapshots| - 1, wallet)
    ensures InCodeUnitOrder(Weights(p))
  {
    var n := |p.snapshots|;
    var t := Accumulate(p.snapshots, n, p.excluded);
    AccumulateDistinct(p.snapshots, n, p.excluded);
    PublishEffect(t, |t|);
    PublishInOrder(t, |t|);
    assert t[..|t|] == t;
    InOrderByCodeUnits(Weights(p));
    AccumulatesHeldSeconds(p.snapshots, n - 1, p.excluded, wallet);
    LastAddsNothing(p.snapshots, p.excluded, wallet);
  }

  lemma {:induction false} LastAddsNothing(snapshots: seq<Snapshot>, excluded: set<string>, wallet: string)
    requires Ordered(snapshots) && snapshots != []
    ensures Find(Accumulate(snapshots, |snapshots|, excluded), wallet)
         == Find(Accumulate(snapshots, |snapshots| - 1, excluded), wallet)
  {
    var n := |snapshots|;
    var rows := snapshots[n - 1].accounts;
    AddRowsFinds(Accumulate(snapshots, n - 1, excluded), rows, |rows|, excluded, 0, wallet);
  }

  /** Each snapshot is later than the one before it. */
  predicate Ascending(s: seq<Snapshot>) {
    forall i :: 1 <= i < |s| ==> s[i].at > s[i - 1].at
  }

  /** Named accounts of named wallets, none of them twice, with unsigned balances. */
  predicate NamedOnce(rows: seq<Row>) {
    && (forall k :: 0 <= k < |rows| ==> |rows[k].account| > 0 && |rows[k].wallet| > 0 && rows[k].balance >= 0)
    && (forall k, m :: 0 <= k < |rows| && 0 <= m < |rows| && k != m ==> rows[k].account != rows[m].account)
  }

  lemma NamedOnceIsGood(rows: seq<Row>)
    ensures GoodRows(rows) <==> NamedOnce(rows)
  {
    if GoodRows(rows) {
      forall k, m | 0 <= k < |rows| && 0 <= m < |rows| && k != m ensures rows[k].account != rows[m].account {
        if m < k {
          assert rows[m].account != rows[k].account;
        }
      }
    }
  }

  /** Which periods are accepted, written out in their fields. */
  lemma {:induction false} AcceptedPeriods(p: Period)
    ensures Valid(p) <==>
      && p.end > p.start && p.covered && |p.snapshots| > 1
      && p.snapshots[0].at == p.start && p.snapshots[|p.snapshots| - 1].at == p.end
      && Ascending(p.snapshots)
      && (forall i :: 0 <= i < |p.snapshots| ==> NamedOnce(p.snapshots[i].accounts))
  {
    if Ascending(p.snapshots) {
      AdjacentOrdered(p.snapshots, |p.snapshots|);
    }
    forall i | 0 <= i < |p.snapshots| ensures GoodRows(p.snapshots[i].accounts) <==> NamedOnce(p.snapshots[i].accounts) {
      NamedOnceIsGood(p.snapshots[i].accounts);
    }
  }

  lemma {:induction false} AdjacentOrdered(s: seq<Snapshot>, n: nat)
    requires n <= |s| && Ascending(s)
    ensures forall i, j :: 0 <= i < j < n ==> s[i].at < s[j].at
  {
    if n != 0 {
      AdjacentOrdered(s, n - 1);
      forall i | 0 <= i < n - 1 ensures s[i].at < s[n - 1].at {
        assert s[n - 2].at < s[n - 1].at;
      }
    }
  }

  /** The weights added up from the first on. */
  function TotalWeight(t: seq<Entry>): nat {
    if t == [] then 0 else t[0].weight + TotalWeight(t[1..])
  }

  lemma {:induction false} TotalWeightIsSum(t: seq<Entry>)
    ensures Sum(WeightsOf(t)) == TotalWeight(t)
  {
    if t != [] {
      TotalWeightIsSum(t[1..]);
      assert WeightsOf(t)[1..] == WeightsOf(t[1..]);
    }
  }

  /** `t[i]` is paid this much: its part of the pool by weight, rounded down. */
  predicate PaysOut(pool: nat, t: seq<Entry>, i: nat, e: Entry) {
    i < |t| && e.wallet == t[i].wallet && TotalWeight(t) != 0 && e.weight == pool * t[i].weight / TotalWeight(t)
    && e.weight != 0
  }

  predicate SomePays(pool: nat, t: seq<Entry>, n: nat, e: Entry) {
    exists i :: 0 <= i < n && PaysOut(pool, t, i, e)
  }

  lemma OneMorePays(pool: nat, t: seq<Entry>, n: nat, e: Entry)
    ensures SomePays(pool, t, n + 1, e) <==> SomePays(pool, t, n, e) || PaysOut(pool, t, n, e)
  {
  }

  lemma {:induction false} PaidAre(pool: nat, t: seq<Entry>, n: nat, e: Entry)
    requires n <= |t|
    ensures e in Paid(pool, t, n) <==> SomePays(pool, t, n, e)
  {
    TotalWeightIsSum(t);
    if n != 0 {
      PaidAre(pool, t, n - 1, e);
      OneMorePays(pool, t, n - 1, e);
      var amount := Payout(pool, WeightsOf(t), n - 1);
      assert PaysOut(pool, t, n - 1, e) <==> amount != 0 && e == Entry(t[n - 1].wallet, amount);
      assert e in Paid(pool, t, n) <==> e in Paid(pool, t, n - 1) || PaysOut(pool, t, n - 1, e);
    }
  }

  /**
   Who is paid from the pool, and how much: the wallets with a positive part by weight, rounded
   down, and nobody else; what these payments leave is carried over. Only a list of distinct,
   named wallets is accepted.
   */
  lemma PaidByWeight(pool: nat, t: seq<Entry>, e: Entry)
    ensures e in HolderPool(pool, t).allocations <==> exists i :: 0 <= i < |t| && PaysOut(pool, t, i, e)
    ensures HolderPool(pool, t).remainder == pool - TotalWeight(HolderPool(pool, t).allocations)
    ensures GoodRecipients(t) <==>
      && (forall i :: 0 <= i < |t| ==> |t[i].wallet| > 0)
      && (forall i, j :: 0 <= i < j < |t| ==> t[i].wallet != t[j].wallet)
  {
    PaidAre(pool, t, |t|, e);
    TotalWeightIsSum(Paid(pool, t, |t|));
  }
}
