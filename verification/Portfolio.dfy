/**
 Profit on matched trades: every buy opens a lot, every sell closes the oldest lots first.
 Quantities, costs and the dust threshold are exact reals.
 */
module Portfolio {
  import opened Wrappers

  /** Remainders at or below this are not matched further; smaller lots are dropped. */
  const DUST: real := 0.0000000001

  datatype Side = Buy | Sell | Other

  /** `raw` is absent when the amount text is not an unsigned integer. */
  datatype Trade = Trade(blockTime: int, mint: string, side: Side, raw: Option<nat>, sol: real)

  datatype Lot = Lot(quantity: real, costPerToken: real)

  // ----- oldest first, stably

  function InsertByTime(sorted: seq<Trade>, t: Trade): seq<Trade> {
    if sorted == [] then [t]
    else if t.blockTime < sorted[0].blockTime then [t] + sorted
    else [sorted[0]] + InsertByTime(sorted[1..], t)
  }

  function SortByTime(trades: seq<Trade>): seq<Trade> {
    if trades == [] then []
    else InsertByTime(SortByTime(trades[..|trades| - 1]), trades[|trades| - 1])
  }

  function AtTime(trades: seq<Trade>, time: int): seq<Trade> {
    if trades == [] then []
    else (if trades[0].blockTime == time then [trades[0]] else []) + AtTime(trades[1..], time)
  }

  predicate Chronological(trades: seq<Trade>) {
    forall i, j :: 0 <= i < j < |trades| ==> trades[i].blockTime <= trades[j].blockTime
  }

  lemma {:induction false} InsertedInOrder(sorted: seq<Trade>, t: Trade)
    requires Chronological(sorted)
    ensures Chronological(InsertByTime(sorted, t))
    ensures forall k :: 0 <= k < |InsertByTime(sorted, t)|
              ==> InsertByTime(sorted, t)[k] in sorted || InsertByTime(sorted, t)[k] == t
  {
    if sorted != [] && sorted[0].blockTime <= t.blockTime {
      InsertedInOrder(sorted[1..], t);
    }
  }

  lemma {:induction false} InsertedAtItsTime(sorted: seq<Trade>, t: Trade, time: int)
    requires Chronological(sorted)
    ensures AtTime(InsertByTime(sorted, t), time) == AtTime(sorted, time) + (if t.blockTime == time then [t] else [])
  {
    var r := InsertByTime(sorted, t);
    if sorted == [] || t.blockTime < sorted[0].blockTime {
      assert r[1..] == sorted;
      if t.blockTime == time {
        NothingEarlier(sorted, time);
      }
    } else {
      InsertedAtItsTime(sorted[1..], t, time);
      assert r[1..] == InsertByTime(sorted[1..], t);
    }
  }

  lemma {:induction false} NothingEarlier(trades: seq<Trade>, time: int)
    requires forall i :: 0 <= i < |trades| ==> time < trades[i].blockTime
    ensures AtTime(trades, time) == []
  {
    if trades != [] {
      NothingEarlier(trades[1..], time);
    }
  }

  lemma {:induction false} AtTimeAppend(trades: seq<Trade>, t: Trade, time: int)
    ensures AtTime(trades + [t], time) == AtTime(trades, time) + (if t.blockTime == time then [t] else [])
  {
    if trades == [] {
      assert trades + [t] == [t];
    } else {
      var all := trades + [t];
      assert all[0] == trades[0] && all[1..] == trades[1..] + [t];
      AtTimeAppend(trades[1..], t, time);
      assert AtTime(all, time) == (if all[0].blockTime == time then [all[0]] else []) + AtTime(all[1..], time);
    }
  }

  /** Sorting orders by time and keeps the order of trades of the same time; nothing is lost or added. */
  lemma {:induction false} SortIsStable(trades: seq<Trade>)
    ensures Chronological(SortByTime(trades))
    ensures forall time :: AtTime(SortByTime(trades), time) == AtTime(trades, time)
  {
    if trades != [] {
      var front, last := trades[..|trades| - 1], trades[|trades| - 1];
      SortIsStable(front);
      InsertedInOrder(SortByTime(front), last);
      assert trades == front + [last];
      forall time ensures AtTime(SortByTime(trades), time) == AtTime(trades, time) {
        AtTimeAppend(front, last, time);
        InsertedAtItsTime(SortByTime(front), last, time);
      }
    }
  }

  // ----- lots and intervals of cumulative purchases

  predicate Open(lots: seq<Lot>) {
    forall i :: 0 <= i < |lots| ==> 0.0 < lots[i].quantity
  }

  function Depth(lots: seq<Lot>): real {
    if lots == [] then 0.0 else lots[0].quantity + Depth(lots[1..])
  }

  function LotCost(l: Lot): real {
    l.quantity * l.costPerToken
  }

  function Cost(lots: seq<Lot>): real {
    if lots == [] then 0.0 else LotCost(lots[0]) + Cost(lots[1..])
  }

  /** The cost of the first `x` tokens ever bought: the overlap of every lot with `[0, x)`. */
  function CostUpTo(lots: seq<Lot>, x: real): real {
    if lots == [] || x <= 0.0 then 0.0
    else if x <= lots[0].quantity then x * lots[0].costPerToken
    else LotCost(lots[0]) + CostUpTo(lots[1..], x - lots[0].quantity)
  }

  /** The profit of a sale: its matched part of the proceeds, less the basis. */
  function Profit(sol: real, quantity: real, matched: real, basis: real): real
    requires 0.0 < quantity
  {
    sol * (matched / quantity) - basis
  }

  /** What is left of the lots once the first `x` tokens are gone. */
  function Drop(lots: seq<Lot>, x: real): seq<Lot> {
    if lots == [] || x <= 0.0 then lots
    else if x < lots[0].quantity then [Lot(lots[0].quantity - x, lots[0].costPerToken)] + lots[1..]
    else Drop(lots[1..], x - lots[0].quantity)
  }

  lemma Distribute(a: real, b: real, c: real)
    ensures (a + b) * c == a * c + b * c
    ensures (a - b) * c == a * c - b * c
  {
  }

  lemma {:induction false} DepthNatural(lots: seq<Lot>)
    requires Open(lots)
    ensures 0.0 <= Depth(lots) && (lots != [] ==> 0.0 < Depth(lots))
  {
    if lots != [] {
      DepthNatural(lots[1..]);
    }
  }

  lemma {:induction false} PartialConserves(lots: seq<Lot>, x: real)
    requires Open(lots) && lots != [] && 0.0 < x < lots[0].quantity
    ensures Open(Drop(lots, x))
    ensures Depth(lots) == x + Depth(Drop(lots, x))
    ensures Cost(lots) == CostUpTo(lots, x) + Cost(Drop(lots, x))
  {
    var l, d := lots[0], Drop(lots, x);
    assert d[0] == Lot(l.quantity - x, l.costPerToken) && d[1..] == lots[1..];
    Distribute(l.quantity, x, l.costPerToken);
    assert Cost(d) == LotCost(d[0]) + Cost(lots[1..]);
  }

  /** Dropping keeps lots open, removes exactly `x` tokens and exactly their cost. */
  lemma {:induction false} DropConserves(lots: seq<Lot>, x: real)
    requires Open(lots) && 0.0 <= x <= Depth(lots)
    ensures Open(Drop(lots, x))
    ensures Depth(lots) == x + Depth(Drop(lots, x))
    ensures Cost(lots) == CostUpTo(lots, x) + Cost(Drop(lots, x))
  {
    if lots != [] && 0.0 < x {
      var l := lots[0];
      if x < l.quantity {
        PartialConserves(lots, x);
      } else {
        DepthNatural(lots[1..]);
        DropConserves(lots[1..], x - l.quantity);
      }
    }
  }

  /** `DropDrop` for a first drop that ends inside the first lot. */
  lemma {:induction false} PartialHead(lots: seq<Lot>, x: real, y: real)
    requires lots != [] && 0.0 < x < lots[0].quantity && 0.0 <= y
    ensures Drop(Drop(lots, x), y) == Drop(lots, x + y)
    ensures CostUpTo(lots, x + y) == CostUpTo(lots, x) + CostUpTo(Drop(lots, x), y)
  {
    var l, d := lots[0], Drop(lots, x);
    assert d[0] == Lot(l.quantity - x, l.costPerToken) && d[1..] == lots[1..];
    Distribute(x, y, l.costPerToken);
    Distribute(l.quantity, x, l.costPerToken);
    if x + y < l.quantity {
    } else {
      assert x + y - l.quantity == y - (l.quantity - x);
      if x + y == l.quantity {
        assert CostUpTo(lots[1..], 0.0) == 0.0;
      }
    }
  }

  /** Dropping twice is dropping once, and the costs add up. */
  lemma {:induction false} DropDrop(lots: seq<Lot>, x: real, y: real)
    requires Open(lots) && 0.0 <= x && 0.0 <= y
    ensures Drop(Drop(lots, x), y) == Drop(lots, x + y)
    ensures CostUpTo(lots, x + y) == CostUpTo(lots, x) + CostUpTo(Drop(lots, x), y)
  {
    if lots != [] && 0.0 < x {
      if x < lots[0].quantity {
        PartialHead(lots, x, y);
      } else {
        DropDrop(lots[1..], x - lots[0].quantity, y);
        assert x - lots[0].quantity + y == x + y - lots[0].quantity;
      }
    }
  }

  /** Buying more later changes neither what was consumed nor its cost. */
  lemma {:induction false} DropAppend(lots: seq<Lot>, l: Lot, x: real)
    requires Open(lots) && 0.0 < l.quantity && 0.0 <= x <= Depth(lots)
    ensures Drop(lots + [l], x) == Drop(lots, x) + [l]
    ensures CostUpTo(lots + [l], x) == CostUpTo(lots, x)
    ensures Depth(lots + [l]) == Depth(lots) + l.quantity
    ensures Cost(lots + [l]) == Cost(lots) + LotCost(l)
  {
    var r := lots + [l];
    if lots == [] {
      assert r == [l] && r[1..] == [];
    } else {
      assert r[0] == lots[0] && r[1..] == lots[1..] + [l];
      var y := if lots[0].quantity <= x then x - lots[0].quantity else 0.0;
      DepthNatural(lots[1..]);
      DropAppend(lots[1..], l, y);
      if 0.0 < x && x < lots[0].quantity {
        assert Drop(r, x) == [Lot(lots[0].quantity - x, lots[0].costPerToken)] + r[1..];
        assert Drop(lots, x) + [l] == [Lot(lots[0].quantity - x, lots[0].costPerToken)] + (lots[1..] + [l]);
      }
    }
  }

  // ----- one sale against the queue

  datatype Sale = Sale(queue: seq<Lot>, matched: real, basis: real)

  function Min(a: real, b: real): real {
    if a <= b then a else b
  }

  /** The queue loop of a sale. */
  function Consume(queue: seq<Lot>, remaining: real): Sale
    requires Open(queue)
  {
    if remaining <= DUST || queue == [] then Sale(queue, 0.0, 0.0)
    else
      var lot := queue[0];
      var take := Min(remaining, lot.quantity);
      if lot.quantity - take < DUST then
        var s := Consume(queue[1..], remaining - take);
        Sale(s.queue, take + s.matched, take * lot.costPerToken + s.basis)
      else
        Sale([Lot(lot.quantity - take, lot.costPerToken)] + queue[1..], take, take * lot.costPerToken)
  }

  /** What one turn of the loop leaves to match. */
  function RestOf(queue: seq<Lot>, take: real): seq<Lot>
    requires queue != []
  {
    var lot := queue[0];
    if lot.quantity - take < DUST then queue[1..] else [Lot(lot.quantity - take, lot.costPerToken)] + queue[1..]
  }

  lemma ConsumeStep(queue: seq<Lot>, remaining: real, take: real)
    requires Open(queue) && queue != [] && DUST < remaining && take == Min(remaining, queue[0].quantity)
    ensures Open(RestOf(queue, take))
    ensures var rest := Consume(RestOf(queue, take), remaining - take);
      Consume(queue, remaining) == Sale(rest.queue, take + rest.matched, take * queue[0].costPerToken + rest.basis)
    ensures |RestOf(queue, take)| < |queue| || remaining - take <= DUST
  {
  }

  /** What is matched so far, with the sale of the remaining quantity, is the whole sale. */
  predicate Matching(whole: Sale, queue: seq<Lot>, remaining: real, matched: real, basis: real) {
    Open(queue) && var rest := Consume(queue, remaining);
      whole == Sale(rest.queue, matched + rest.matched, basis + rest.basis)
  }

  lemma MatchTurn(whole: Sale, queue: seq<Lot>, remaining: real, matched: real, basis: real, take: real, cost: real)
    requires Matching(whole, queue, remaining, matched, basis) && queue != [] && DUST < remaining
    requires take == Min(remaining, queue[0].quantity) && cost == take * queue[0].costPerToken
    ensures Matching(whole, RestOf(queue, take), remaining - take, matched + take, basis + cost)
    ensures |RestOf(queue, take)| < |queue| || remaining - take <= DUST
  {
    ConsumeStep(queue, remaining, take);
  }

  lemma MatchEnds(whole: Sale, queue: seq<Lot>, remaining: real, matched: real, basis: real)
    requires Matching(whole, queue, remaining, matched, basis) && (queue == [] || remaining <= DUST)
    ensures whole == Sale(queue, matched, basis)
  {
  }

  method MatchSale(lots: seq<Lot>, quantity: real) returns (queue: seq<Lot>, matched: real, basis: real)
    requires Open(lots)
    ensures Sale(queue, matched, basis) == Consume(lots, quantity)
  {
    queue, matched, basis := lots, 0.0, 0.0;
    var remaining := quantity;
    ghost var whole := Consume(lots, quantity);
    while remaining > DUST && queue != []
      invariant Matching(whole, queue, remaining, matched, basis)
      decreases |queue|, remaining > DUST
    {
      var lot := queue[0];
      var take := Min(remaining, lot.quantity);
      var cost := take * lot.costPerToken;
      MatchTurn(whole, queue, remaining, matched, basis, take, cost);
      matched := matched + take;
      basis := basis + cost;
      remaining := remaining - take;
      if lot.quantity - take < DUST {
        queue := queue[1..];
      } else {
        queue := [Lot(lot.quantity - take, lot.costPerToken)] + queue[1..];
      }
    }
    MatchEnds(whole, queue, remaining, matched, basis);
  }

  // ----- every sale is an interval of cumulative purchases, up to the threshold

  /** The remainders of lots that the queue loop throws away during a sale. */
  function Dropped(queue: seq<Lot>, remaining: real): real
    requires Open(queue)
  {
    if remaining <= DUST || queue == [] then 0.0
    else
      var take := Min(remaining, queue[0].quantity);
      if queue[0].quantity - take < DUST then queue[0].quantity - take + Dropped(queue[1..], remaining - take) else 0.0
  }

  /**
   A sale takes the next interval of tokens and its basis is that interval's cost. It
   matches all it can up to the dust threshold, and drops less than the threshold, only
   at the end of a completely matched sale.
   */
  predicate IntervalSale(lots: seq<Lot>, quantity: real, s: Sale, dropped: real) {
    && 0.0 <= s.matched <= quantity && 0.0 <= dropped < DUST
    && s.matched + dropped <= Depth(lots)
    && s.basis == CostUpTo(lots, s.matched)
    && s.queue == Drop(lots, s.matched + dropped)
    && Min(quantity, Depth(lots)) - DUST <= s.matched
    && (0.0 < dropped ==> s.matched == quantity)
  }

  lemma {:induction false} PartialSale(lots: seq<Lot>, quantity: real)
    requires Open(lots) && lots != [] && DUST < quantity < lots[0].quantity
    ensures IntervalSale(lots, quantity, Consume(lots, quantity), Dropped(lots, quantity))
  {
    var lot := lots[0];
    DepthNatural(lots[1..]);
    if lot.quantity - quantity < DUST {
      assert Consume(lots[1..], 0.0) == Sale(lots[1..], 0.0, 0.0) && Dropped(lots[1..], 0.0) == 0.0;
      assert Drop(lots, lot.quantity) == lots[1..];
    }
  }

  /** A sale of at least the first lot takes all of it and goes on with the rest. */
  lemma ConsumeFull(lots: seq<Lot>, quantity: real)
    requires Open(lots) && lots != [] && DUST < quantity && lots[0].quantity <= quantity
    ensures var s := Consume(lots[1..], quantity - lots[0].quantity);
      Consume(lots, quantity) == Sale(s.queue, lots[0].quantity + s.matched, LotCost(lots[0]) + s.basis)
    ensures Dropped(lots, quantity) == Dropped(lots[1..], quantity - lots[0].quantity)
  {
  }

  lemma FullSale(lots: seq<Lot>, quantity: real)
    requires Open(lots) && lots != [] && DUST < quantity && lots[0].quantity <= quantity
    requires var rest, left := lots[1..], quantity - lots[0].quantity;
      IntervalSale(rest, left, Consume(rest, left), Dropped(rest, left))
    ensures IntervalSale(lots, quantity, Consume(lots, quantity), Dropped(lots, quantity))
  {
    ConsumeFull(lots, quantity);
    var s := Consume(lots[1..], quantity - lots[0].quantity);
    FullHead(lots, s.matched, s.matched + Dropped(lots, quantity));
  }

  lemma {:induction false} SaleIsInterval(lots: seq<Lot>, quantity: real)
    requires Open(lots) && 0.0 <= quantity
    ensures IntervalSale(lots, quantity, Consume(lots, quantity), Dropped(lots, quantity))
    decreases |lots|
  {
    DepthNatural(lots);
    if quantity > DUST && lots != [] {
      if quantity < lots[0].quantity {
        PartialSale(lots, quantity);
      } else {
        SaleIsInterval(lots[1..], quantity - lots[0].quantity);
        FullSale(lots, quantity);
      }
    }
  }

  lemma {:induction false} FullHead(lots: seq<Lot>, x: real, y: real)
    requires Open(lots) && lots != [] && 0.0 <= x && 0.0 <= y
    ensures CostUpTo(lots, lots[0].quantity + x) == LotCost(lots[0]) + CostUpTo(lots[1..], x)
    ensures Drop(lots, lots[0].quantity + y) == Drop(lots[1..], y)
  {
  }

  // ----- amounts that are whole multiples of a unit above the threshold

  ghost predicate Whole(x: real, unit: real)
    requires 0.0 < unit
  {
    exists k: int :: x == Times(k, unit)
  }

  function Times(k: int, unit: real): real {
    k as real * unit
  }

  ghost predicate AllWhole(lots: seq<Lot>, unit: real)
    requires 0.0 < unit
  {
    forall i :: 0 <= i < |lots| ==> Whole(lots[i].quantity, unit)
  }

  lemma WholeDifference(x: real, y: real, unit: real)
    requires 0.0 < unit && Whole(x, unit) && Whole(y, unit)
    ensures Whole(x - y, unit)
    ensures x - y < unit ==> x - y <= 0.0
  {
    var k: int :| x == Times(k, unit);
    var m: int :| y == Times(m, unit);
    Distribute(k as real, m as real, unit);
    assert x - y == Times(k - m, unit);
    if 1 <= k - m {
      Distribute((k - m - 1) as real, 1.0, unit);
    }
  }

  lemma {:induction false} ExactHead(lots: seq<Lot>, quantity: real)
    requires Open(lots) && lots != [] && lots[0].quantity <= quantity
    ensures var m, rest := Min(quantity, Depth(lots)), Min(quantity - lots[0].quantity, Depth(lots[1..]));
      && m == lots[0].quantity + rest
      && Drop(lots, m) == Drop(lots[1..], rest)
      && CostUpTo(lots, m) == LotCost(lots[0]) + CostUpTo(lots[1..], rest)
  {
    DepthNatural(lots[1..]);
    var rest := Min(quantity - lots[0].quantity, Depth(lots[1..]));
    FullHead(lots, rest, rest);
    assert Min(quantity, Depth(lots)) == lots[0].quantity + rest;
  }

  /** The sale without a threshold: all it can match, at the cost of exactly that. */
  function ExactSale(lots: seq<Lot>, quantity: real): Sale {
    var m := Min(quantity, Depth(lots));
    Sale(Drop(lots, m), m, CostUpTo(lots, m))
  }

  /**
   The threshold stays out of a sale: wherever the sale reaches a lot boundary with something
   left to sell, that is more than the threshold, and where it ends inside a lot, at least
   the threshold is left of the lot.
   */
  predicate Clear(lots: seq<Lot>, quantity: real) {
    forall k :: 0 <= k < |lots| && Depth(lots[..k]) < quantity ==>
      && DUST < quantity - Depth(lots[..k])
      && (quantity < Depth(lots[..k + 1]) ==> DUST <= Depth(lots[..k + 1]) - quantity)
  }

  lemma DepthAfterHead(lots: seq<Lot>, k: nat)
    requires k < |lots|
    ensures Depth(lots[..k + 1]) == lots[0].quantity + Depth(lots[1..][..k])
  {
    assert lots[..k + 1][1..] == lots[1..][..k];
  }

  lemma ClearHead(lots: seq<Lot>, quantity: real)
    requires Open(lots) && lots != [] && 0.0 < quantity < lots[0].quantity
    ensures Clear(lots, quantity) <==> DUST < quantity && DUST <= lots[0].quantity - quantity
  {
    DepthAfterHead(lots, 0);
    forall k | 0 < k < |lots| ensures quantity < Depth(lots[..k]) {
      DepthAfterHead(lots, k - 1);
      DepthNatural(lots[1..][..k - 1]);
    }
    assert Depth(lots[..0]) == 0.0;
  }

  lemma ClearTail(lots: seq<Lot>, quantity: real)
    requires Open(lots) && lots != [] && DUST < quantity && lots[0].quantity <= quantity
    ensures Clear(lots, quantity) <==> Clear(lots[1..], quantity - lots[0].quantity)
  {
    var rest, left := lots[1..], quantity - lots[0].quantity;
    forall k | 0 <= k < |lots| ensures Depth(lots[..k + 1]) == lots[0].quantity + Depth(rest[..k]) {
      DepthAfterHead(lots, k);
    }
    if Clear(lots, quantity) {
      forall k | 0 <= k < |rest| && Depth(rest[..k]) < left
        ensures DUST < left - Depth(rest[..k]) && (left < Depth(rest[..k + 1]) ==> DUST <= Depth(rest[..k + 1]) - left)
      {
        assert Depth(lots[..k + 1]) < quantity && Depth(lots[..k + 2]) == lots[0].quantity + Depth(rest[..k + 1]);
      }
    }
    if Clear(rest, left) {
      forall k | 0 <= k < |lots| && Depth(lots[..k]) < quantity
        ensures DUST < quantity - Depth(lots[..k])
          && (quantity < Depth(lots[..k + 1]) ==> DUST <= Depth(lots[..k + 1]) - quantity)
      {
        if 0 < k {
          var j := k - 1;
          assert Depth(lots[..j + 1]) == lots[0].quantity + Depth(rest[..j]) && Depth(rest[..j]) < left;
          assert Depth(lots[..k + 1]) == lots[0].quantity + Depth(rest[..j + 1]);
        }
      }
    }
  }

  lemma {:induction false} ExactHeadSale(lots: seq<Lot>, quantity: real)
    requires Open(lots) && lots != [] && 0.0 < quantity < lots[0].quantity
    ensures Consume(lots, quantity) == ExactSale(lots, quantity) <==> Clear(lots, quantity)
  {
    ClearHead(lots, quantity);
    DepthNatural(lots[1..]);
    if DUST < quantity && lots[0].quantity - quantity < DUST {
      assert Consume(lots, quantity).queue == lots[1..];
      assert |Drop(lots, quantity)| == |lots|;
    }
  }

  /** A sale matches exactly all it can, and loses nothing, if and only if the threshold stays out of it. */
  lemma {:induction false} ExactIffClear(lots: seq<Lot>, quantity: real)
    requires Open(lots) && 0.0 <= quantity
    ensures Consume(lots, quantity) == ExactSale(lots, quantity) <==> Clear(lots, quantity)
    decreases |lots|
  {
    DepthNatural(lots);
    if quantity == 0.0 {
      forall k | 0 <= k < |lots| ensures 0.0 <= Depth(lots[..k]) { DepthNatural(lots[..k]); }
    } else if lots != [] {
      if quantity < lots[0].quantity {
        ExactHeadSale(lots, quantity);
      } else if quantity <= DUST {
        assert Depth(lots[..0]) == 0.0;
      } else {
        ExactIffClear(lots[1..], quantity - lots[0].quantity);
        ConsumeFull(lots, quantity);
        ExactHead(lots, quantity);
        ClearTail(lots, quantity);
      }
    }
  }

  /** For amounts that are multiples of a unit above the threshold, it always stays out. */
  lemma WholeIsClear(lots: seq<Lot>, quantity: real, unit: real)
    requires DUST < unit && AllWhole(lots, unit) && Whole(quantity, unit)
    ensures Clear(lots, quantity)
  {
    forall k | 0 <= k < |lots| && Depth(lots[..k]) < quantity
      ensures DUST < quantity - Depth(lots[..k])
        && (quantity < Depth(lots[..k + 1]) ==> DUST <= Depth(lots[..k + 1]) - quantity)
    {
      DepthWhole(lots[..k], unit);
      DepthWhole(lots[..k + 1], unit);
      WholeDifference(quantity, Depth(lots[..k]), unit);
      WholeDifference(Depth(lots[..k + 1]), quantity, unit);
    }
  }

  lemma {:induction false} DepthWhole(lots: seq<Lot>, unit: real)
    requires 0.0 < unit && AllWhole(lots, unit)
    ensures Whole(Depth(lots), unit)
  {
    if lots == [] {
      assert 0.0 == Times(0, unit);
    } else {
      DepthWhole(lots[1..], unit);
      var k: int :| lots[0].quantity == Times(k, unit);
      var m: int :| Depth(lots[1..]) == Times(m, unit);
      Distribute(k as real, m as real, unit);
      assert Depth(lots) == Times(k + m, unit);
    }
  }

  /** Sales leave whole multiples of any unit, above the threshold or below it. */
  lemma {:induction false} ConsumeKeepsWhole(queue: seq<Lot>, remaining: real, unit: real)
    requires 0.0 < unit && Open(queue) && AllWhole(queue, unit) && Whole(remaining, unit)
    ensures AllWhole(Consume(queue, remaining).queue, unit)
    decreases |queue|
  {
    if remaining > DUST && queue != [] {
      var lot := queue[0];
      WholeDifference(lot.quantity, remaining, unit);
      if lot.quantity <= remaining {
        WholeDifference(remaining, lot.quantity, unit);
        ConsumeFull(queue, remaining);
        ConsumeKeepsWhole(queue[1..], remaining - lot.quantity, unit);
      }
    }
  }

  // ----- all trades

  function Pow10(n: nat): (p: real)
    ensures 1.0 <= p
  {
    if n == 0 then 1.0 else 10.0 * Pow10(n - 1)
  }

  /** The size in tokens of one raw unit. */
  function Unit(decimals: int): (u: real)
    ensures 0.0 < u
  {
    if 0 <= decimals then 1.0 / Pow10(decimals) else Pow10(-decimals)
  }

  /** A trade that counts: known decimals, readable positive amount, positive price. */
  predicate Counts(t: Trade, decimals: map<string, int>) {
    t.mint in decimals && t.raw.Some? && 0 < t.raw.value && 0.0 < t.sol
  }

  function Quantity(t: Trade, decimals: map<string, int>): (q: real)
    requires Counts(t, decimals)
    ensures 0.0 < q
  {
    PositiveProduct(t.raw.value as real, Unit(decimals[t.mint]));
    Times(t.raw.value, Unit(decimals[t.mint]))
  }

  lemma PositiveProduct(a: real, b: real)
    requires 0.0 < a && 0.0 < b
    ensures 0.0 < a * b
  {
  }

  datatype Book = Book(lots: map<string, seq<Lot>>, pnl: real, sales: nat)

  function QueueOf(lots: map<string, seq<Lot>>, mint: string): seq<Lot> {
    if mint in lots then lots[mint] else []
  }

  ghost predicate OpenBook(b: Book) {
    forall m :: m in b.lots ==> Open(b.lots[m])
  }

  lemma {:induction false} ConsumeKeepsOpen(queue: seq<Lot>, remaining: real)
    requires Open(queue)
    ensures Open(Consume(queue, remaining).queue)
    decreases |queue|
  {
    if remaining > DUST && queue != [] {
      ConsumeKeepsOpen(queue[1..], remaining - Min(remaining, queue[0].quantity));
    }
  }

  function Apply(b: Book, t: Trade, decimals: map<string, int>): Book
    requires OpenBook(b)
  {
    if !Counts(t, decimals) then b
    else
      var q, queue := Quantity(t, decimals), QueueOf(b.lots, t.mint);
      match t.side
      case Buy => b.(lots := b.lots[t.mint := queue + [Lot(q, t.sol / q)]])
      case Sell =>
        var s := Consume(queue, q);
        var b' := b.(lots := b.lots[t.mint := s.queue]);
        if 0.0 < s.matched then
          b'.(pnl := b.pnl + Profit(t.sol, q, s.matched, s.basis), sales := b.sales + 1)
        else b'
      case Other => b.(lots := b.lots[t.mint := queue])
  }

  lemma ApplyKeepsOpen(b: Book, t: Trade, decimals: map<string, int>)
    requires OpenBook(b)
    ensures OpenBook(Apply(b, t, decimals))
  {
    if Counts(t, decimals) && t.side == Sell {
      ConsumeKeepsOpen(QueueOf(b.lots, t.mint), Quantity(t, decimals));
    }
  }

  function Process(trades: seq<Trade>, decimals: map<string, int>): (b: Book)
    ensures OpenBook(b)
  {
    if trades == [] then Book(map[], 0.0, 0)
    else
      var before := Process(trades[..|trades| - 1], decimals);
      ApplyKeepsOpen(before, trades[|trades| - 1], decimals);
      Apply(before, trades[|trades| - 1], decimals)
  }

  method MatchTrade(lots: map<string, seq<Lot>>, pnl: real, sales: nat, t: Trade, decimals: map<string, int>)
    returns (lots': map<string, seq<Lot>>, pnl': real, sales': nat)
    requires OpenBook(Book(lots, pnl, sales)) && Counts(t, decimals)
    ensures Book(lots', pnl', sales') == Apply(Book(lots, pnl, sales), t, decimals)
  {
    pnl', sales' := pnl, sales;
    var quantity := Quantity(t, decimals);
    var queue := QueueOf(lots, t.mint);
    if t.side == Buy {
      queue := queue + [Lot(quantity, t.sol / quantity)];
    }
    if t.side == Sell {
      var matched, basis;
      queue, matched, basis := MatchSale(queue, quantity);
      if matched > 0.0 {
        pnl' := pnl + (t.sol * (matched / quantity) - basis);
        sales' := sales + 1;
      }
    }
    lots' := lots[t.mint := queue];
  }

  method MatchedTradePnl(trades: seq<Trade>, decimals: map<string, int>) returns (pnl: real, sales: nat)
    ensures var b := Process(SortByTime(trades), decimals); pnl == b.pnl && sales == b.sales
  {
    var lots: map<string, seq<Lot>> := map[];
    pnl, sales := 0.0, 0;
    var sorted := SortByTime(trades);
    for i := 0 to |sorted|
      invariant Book(lots, pnl, sales) == Process(sorted[..i], decimals)
    {
      assert sorted[..i + 1][..i] == sorted[..i];
      if Counts(sorted[i], decimals) {
        lots, pnl, sales := MatchTrade(lots, pnl, sales, sorted[i], decimals);
      }
    }
    assert sorted[..|sorted|] == sorted;
  }

  // ----- the reference: intervals of cumulative purchases, no queue

  /** Per mint: everything ever bought, how much of it is sold, and the basis charged so far. */
  datatype Position = Position(bought: seq<Lot>, sold: real, basis: real)

  datatype Reference = Reference(positions: map<string, Position>, pnl: real, sales: nat)

  function PositionOf(r: Reference, mint: string): Position {
    if mint in r.positions then r.positions[mint] else Position([], 0.0, 0.0)
  }

  /** A sell takes the next interval of cumulative purchases, as far as they reach, at that interval's cost. */
  function RefApply(r: Reference, t: Trade, decimals: map<string, int>): Reference {
    if !Counts(t, decimals) then r
    else
      var q, p := Quantity(t, decimals), PositionOf(r, t.mint);
      match t.side
      case Buy => r.(positions := r.positions[t.mint := p.(bought := p.bought + [Lot(q, t.sol / q)])])
      case Sell =>
        var matched := Min(q, Depth(p.bought) - p.sold);
        var basis := CostUpTo(p.bought, p.sold + matched) - CostUpTo(p.bought, p.sold);
        var r' := r.(positions := r.positions[t.mint := Position(p.bought, p.sold + matched, p.basis + basis)]);
        if 0.0 < matched then
          r'.(pnl := r.pnl + Profit(t.sol, q, matched, basis), sales := r.sales + 1)
        else r'
      case Other => r
  }

  function RefProcess(trades: seq<Trade>, decimals: map<string, int>): Reference {
    if trades == [] then Reference(map[], 0.0, 0)
    else RefApply(RefProcess(trades[..|trades| - 1], decimals), trades[|trades| - 1], decimals)
  }

  /** The queue is what is left of the purchases, and the basis charged is the cost of what is sold. */
  ghost predicate Represents(queue: seq<Lot>, p: Position) {
    && Open(p.bought) && 0.0 <= p.sold <= Depth(p.bought)
    && queue == Drop(p.bought, p.sold)
    && p.basis == CostUpTo(p.bought, p.sold)
  }

  ghost predicate Simulates(b: Book, r: Reference) {
    && b.pnl == r.pnl && b.sales == r.sales
    && forall m :: Represents(QueueOf(b.lots, m), PositionOf(r, m))
  }

  lemma BuyKeeps(queue: seq<Lot>, p: Position, l: Lot)
    requires Represents(queue, p) && 0.0 < l.quantity
    ensures Represents(queue + [l], p.(bought := p.bought + [l]))
  {
    DropAppend(p.bought, l, p.sold);
  }

  /** What the reference does to a position that is sold from. */
  function Sold(p: Position, q: real): (p': Position) {
    var matched := Min(q, Depth(p.bought) - p.sold);
    var basis := CostUpTo(p.bought, p.sold + matched) - CostUpTo(p.bought, p.sold);
    Position(p.bought, p.sold + matched, p.basis + basis)
  }

  lemma {:induction false} QueueOpen(queue: seq<Lot>, p: Position)
    requires Represents(queue, p)
    ensures Open(queue) && Depth(p.bought) == p.sold + Depth(queue)
  {
    DropConserves(p.bought, p.sold);
  }

  /** Where the threshold stays out of it, a sale of the queue is the reference's sale. */
  lemma {:induction false} SellKeeps(queue: seq<Lot>, p: Position, q: real)
    requires Represents(queue, p) && 0.0 < q && Clear(queue, q)
    ensures Open(queue) && var s := Consume(queue, q);
      && s.matched == Min(q, Depth(p.bought) - p.sold) && s.basis == Sold(p, q).basis - p.basis
      && Represents(s.queue, Sold(p, q))
  {
    QueueOpen(queue, p);
    DepthNatural(queue);
    ExactIffClear(queue, q);
    DropDrop(p.bought, p.sold, Min(q, Depth(queue)));
  }

  /** Where it does not, the queue is no longer what is left of the purchases. */
  lemma {:induction false} SellBreaks(queue: seq<Lot>, p: Position, q: real)
    requires Represents(queue, p) && 0.0 < q && !Clear(queue, q)
    ensures Open(queue) && Consume(queue, q).queue != Drop(p.bought, Sold(p, q).sold)
  {
    QueueOpen(queue, p);
    DepthNatural(queue);
    ExactIffClear(queue, q);
    DropDrop(p.bought, p.sold, Min(q, Depth(queue)));
    if Consume(queue, q).queue == ExactSale(queue, q).queue {
      QueueDecides(queue, q);
    }
  }

  /** A sale that leaves the queue it should leave is right altogether. */
  lemma {:induction false} QueueDecides(queue: seq<Lot>, q: real)
    requires Open(queue) && 0.0 <= q && Consume(queue, q).queue == ExactSale(queue, q).queue
    ensures Consume(queue, q) == ExactSale(queue, q) && Dropped(queue, q) == 0.0
  {
    DepthNatural(queue);
    SaleIsInterval(queue, q);
    DropConserves(queue, Min(q, Depth(queue)));
    DropConserves(queue, Consume(queue, q).matched + Dropped(queue, q));
  }

  /** Changing one mint's queue and position together disturbs no other mint. */
  lemma UpdateSimulates(b: Book, r: Reference, mint: string, queue: seq<Lot>, p: Position, b': Book, r': Reference)
    requires Simulates(b, r) && Represents(queue, p)
    requires forall x :: QueueOf(b'.lots, x) == if x == mint then queue else QueueOf(b.lots, x)
    requires forall x :: PositionOf(r', x) == if x == mint then p else PositionOf(r, x)
    requires b'.pnl == r'.pnl && b'.sales == r'.sales
    ensures Simulates(b', r')
  {
    forall x ensures Represents(QueueOf(b'.lots, x), PositionOf(r', x)) {
      assert Represents(QueueOf(b.lots, x), PositionOf(r, x));
    }
  }

  /** `Apply` of a sell, given what the queue loop does. */
  lemma {:induction false} ApplySell(b: Book, t: Trade, decimals: map<string, int>, q: real, s: Sale)
    requires OpenBook(b) && Counts(t, decimals) && t.side == Sell
    requires q == Quantity(t, decimals) && s == Consume(QueueOf(b.lots, t.mint), q)
    ensures Apply(b, t, decimals) == Book(b.lots[t.mint := s.queue],
      if 0.0 < s.matched then b.pnl + Profit(t.sol, q, s.matched, s.basis) else b.pnl,
      if 0.0 < s.matched then b.sales + 1 else b.sales)
  {
  }

  /** `RefApply` of a sell. */
  lemma {:induction false} RefApplySell(r: Reference, t: Trade, decimals: map<string, int>, q: real, p: Position, matched: real, basis: real)
    requires Counts(t, decimals) && t.side == Sell && q == Quantity(t, decimals) && p == PositionOf(r, t.mint)
    requires matched == Min(q, Depth(p.bought) - p.sold)
    requires basis == CostUpTo(p.bought, p.sold + matched) - CostUpTo(p.bought, p.sold)
    ensures RefApply(r, t, decimals) == Reference(
      r.positions[t.mint := Sold(p, q)],
      if 0.0 < matched then r.pnl + Profit(t.sol, q, matched, basis) else r.pnl,
      if 0.0 < matched then r.sales + 1 else r.sales)
  {
  }

  lemma QueueAfter(b: Book, b': Book, mint: string, queue: seq<Lot>)
    requires b'.lots == b.lots[mint := queue]
    ensures forall x :: QueueOf(b'.lots, x) == if x == mint then queue else QueueOf(b.lots, x)
  {
  }

  lemma SellSimulates(b: Book, r: Reference, t: Trade, decimals: map<string, int>)
    requires OpenBook(b) && Simulates(b, r) && Counts(t, decimals) && t.side == Sell
    requires Clear(QueueOf(b.lots, t.mint), Quantity(t, decimals))
    ensures Simulates(Apply(b, t, decimals), RefApply(r, t, decimals))
  {
    var q, queue, p := Quantity(t, decimals), QueueOf(b.lots, t.mint), PositionOf(r, t.mint);
    assert Represents(queue, p);
    SellKeeps(queue, p, q);
    var s := Consume(queue, q);
    ApplySell(b, t, decimals, q, s);
    RefApplySell(r, t, decimals, q, p, s.matched, s.basis);
    PutSimulates(b, r, t.mint, s.queue, Sold(p, q), Apply(b, t, decimals), RefApply(r, t, decimals));
  }

  lemma PutSimulates(b: Book, r: Reference, mint: string, queue: seq<Lot>, p: Position, b': Book, r': Reference)
    requires Simulates(b, r) && Represents(queue, p)
    requires b'.lots == b.lots[mint := queue] && r'.positions == r.positions[mint := p]
    requires b'.pnl == r'.pnl && b'.sales == r'.sales
    ensures Simulates(b', r')
  {
    QueueAfter(b, b', mint, queue);
    UpdateSimulates(b, r, mint, queue, p, b', r');
  }

  lemma BuySimulates(b: Book, r: Reference, t: Trade, decimals: map<string, int>)
    requires OpenBook(b) && Simulates(b, r) && Counts(t, decimals) && t.side == Buy
    ensures Simulates(Apply(b, t, decimals), RefApply(r, t, decimals))
  {
    var m, q := t.mint, Quantity(t, decimals);
    var queue, p, l := QueueOf(b.lots, m), PositionOf(r, m), Lot(q, t.sol / q);
    assert Represents(queue, p);
    BuyKeeps(queue, p, l);
    UpdateSimulates(b, r, m, queue + [l], p.(bought := p.bought + [l]),
                    Apply(b, t, decimals), RefApply(r, t, decimals));
  }

  predicate ClearTrade(queue: seq<Lot>, t: Trade, decimals: map<string, int>) {
    Counts(t, decimals) && t.side == Sell ==> Clear(queue, Quantity(t, decimals))
  }

  lemma ApplySimulates(b: Book, r: Reference, t: Trade, decimals: map<string, int>)
    requires OpenBook(b) && Simulates(b, r) && ClearTrade(QueueOf(b.lots, t.mint), t, decimals)
    ensures Simulates(Apply(b, t, decimals), RefApply(r, t, decimals))
  {
    if Counts(t, decimals) {
      match t.side {
        case Buy => BuySimulates(b, r, t, decimals);
        case Sell => SellSimulates(b, r, t, decimals);
        case Other =>
          assert Represents(QueueOf(b.lots, t.mint), PositionOf(r, t.mint));
          UpdateSimulates(b, r, t.mint, QueueOf(b.lots, t.mint), PositionOf(r, t.mint),
                          Apply(b, t, decimals), r);
      }
    }
  }

  lemma ApplyBreaks(b: Book, r: Reference, t: Trade, decimals: map<string, int>)
    requires OpenBook(b) && Simulates(b, r) && !ClearTrade(QueueOf(b.lots, t.mint), t, decimals)
    ensures !Simulates(Apply(b, t, decimals), RefApply(r, t, decimals))
  {
    var q, queue, p := Quantity(t, decimals), QueueOf(b.lots, t.mint), PositionOf(r, t.mint);
    assert Represents(queue, p);
    SellBreaks(queue, p, q);
    var b', r' := Apply(b, t, decimals), RefApply(r, t, decimals);
    assert QueueOf(b'.lots, t.mint) == Consume(queue, q).queue && PositionOf(r', t.mint) == Sold(p, q);
    assert !Represents(QueueOf(b'.lots, t.mint), PositionOf(r', t.mint));
  }

  /** What the reference has left of the purchases of the mint traded at `k`, before that trade. */
  function LeftAt(trades: seq<Trade>, decimals: map<string, int>, k: nat): seq<Lot>
    requires k < |trades|
  {
    var p := PositionOf(RefProcess(trades[..k], decimals), trades[k].mint);
    Drop(p.bought, p.sold)
  }

  /** The threshold stays out of every sale, as the reference sees them. */
  predicate ClearRun(trades: seq<Trade>, decimals: map<string, int>) {
    forall k :: 0 <= k < |trades| ==> ClearTrade(LeftAt(trades, decimals, k), trades[k], decimals)
  }

  /** After every trade: same profit, same matched sales, and for every mint queue, position and basis agree. */
  ghost predicate RefinesThroughout(trades: seq<Trade>, decimals: map<string, int>) {
    forall k :: 0 <= k <= |trades| ==> Simulates(Process(trades[..k], decimals), RefProcess(trades[..k], decimals))
  }

  lemma EmptySimulates()
    ensures Simulates(Book(map[], 0.0, 0), Reference(map[], 0.0, 0))
  {
    assert Represents([], Position([], 0.0, 0.0));
  }

  lemma {:induction false} ProcessTake(trades: seq<Trade>, decimals: map<string, int>, k: nat)
    requires k < |trades|
    ensures Process(trades[..k + 1], decimals) == Apply(Process(trades[..k], decimals), trades[k], decimals)
    ensures RefProcess(trades[..k + 1], decimals) == RefApply(RefProcess(trades[..k], decimals), trades[k], decimals)
  {
    assert trades[..k + 1][..k] == trades[..k];
  }

  /** At a trade where queue and reference still agree, the queue is what the reference has left. */
  lemma {:induction false} SameLeft(trades: seq<Trade>, decimals: map<string, int>, k: nat)
    requires k < |trades| && Simulates(Process(trades[..k], decimals), RefProcess(trades[..k], decimals))
    ensures QueueOf(Process(trades[..k], decimals).lots, trades[k].mint) == LeftAt(trades, decimals, k)
  {
    assert Represents(QueueOf(Process(trades[..k], decimals).lots, trades[k].mint),
                      PositionOf(RefProcess(trades[..k], decimals), trades[k].mint));
  }

  lemma {:induction false} ClearSimulates(trades: seq<Trade>, decimals: map<string, int>, k: nat)
    requires k <= |trades| && ClearRun(trades, decimals)
    ensures Simulates(Process(trades[..k], decimals), RefProcess(trades[..k], decimals))
  {
    if k == 0 {
      EmptySimulates();
    } else {
      ClearSimulates(trades, decimals, k - 1);
      SameLeft(trades, decimals, k - 1);
      assert ClearTrade(LeftAt(trades, decimals, k - 1), trades[k - 1], decimals);
      ProcessTake(trades, decimals, k - 1);
      ApplySimulates(Process(trades[..k - 1], decimals), RefProcess(trades[..k - 1], decimals), trades[k - 1], decimals);
    }
  }

  /**
   Exactly when the queue loop refines the interval reference, for every trade sequence and
   every decimals: it agrees with it after every trade if and only if the threshold stays
   out of every sale.
   */
  lemma RefinesIffClear(trades: seq<Trade>, decimals: map<string, int>)
    ensures RefinesThroughout(trades, decimals) <==> ClearRun(trades, decimals)
  {
    if ClearRun(trades, decimals) {
      forall k | 0 <= k <= |trades| ensures Simulates(Process(trades[..k], decimals), RefProcess(trades[..k], decimals)) {
        ClearSimulates(trades, decimals, k);
      }
    }
    if RefinesThroughout(trades, decimals) {
      forall k | 0 <= k < |trades| ensures ClearTrade(LeftAt(trades, decimals, k), trades[k], decimals) {
        assert Simulates(Process(trades[..k + 1], decimals), RefProcess(trades[..k + 1], decimals));
        SameLeft(trades, decimals, k);
        ProcessTake(trades, decimals, k);
        if !ClearTrade(LeftAt(trades, decimals, k), trades[k], decimals) {
          ApplyBreaks(Process(trades[..k], decimals), RefProcess(trades[..k], decimals), trades[k], decimals);
        }
      }
    }
  }

  // ----- which tokens are always clear

  function UnitOf(decimals: map<string, int>, mint: string): (u: real)
    ensures 0.0 < u
  {
    if mint in decimals then Unit(decimals[mint]) else 1.0
  }

  ghost predicate WholeBook(b: Book, decimals: map<string, int>) {
    forall m :: AllWhole(QueueOf(b.lots, m), UnitOf(decimals, m))
  }

  lemma ApplyKeepsWhole(b: Book, t: Trade, decimals: map<string, int>)
    requires OpenBook(b) && WholeBook(b, decimals)
    ensures WholeBook(Apply(b, t, decimals), decimals)
  {
    if Counts(t, decimals) {
      var unit, q, queue := UnitOf(decimals, t.mint), Quantity(t, decimals), QueueOf(b.lots, t.mint);
      assert AllWhole(queue, unit);
      assert Whole(q, unit) by { assert q == Times(t.raw.value, unit); }
      ConsumeKeepsWhole(queue, q, unit);
      var b' := Apply(b, t, decimals);
      forall m ensures AllWhole(QueueOf(b'.lots, m), UnitOf(decimals, m)) {
        assert AllWhole(QueueOf(b.lots, m), UnitOf(decimals, m));
      }
    }
  }

  /** Lots are always whole multiples of their token's raw unit. */
  lemma {:induction false} LotsAreWhole(trades: seq<Trade>, decimals: map<string, int>)
    ensures WholeBook(Process(trades, decimals), decimals)
  {
    if trades != [] {
      LotsAreWhole(trades[..|trades| - 1], decimals);
      ApplyKeepsWhole(Process(trades[..|trades| - 1], decimals), trades[|trades| - 1], decimals);
    }
  }

  predicate AtMostNine(decimals: map<string, int>) {
    forall m :: m in decimals ==> decimals[m] <= 9
  }

  /** The unit is above the threshold up to nine decimals and not from ten on. */
  lemma UnitAboveDust(decimals: int)
    ensures DUST < Unit(decimals) <==> decimals <= 9
  {
    if 0 <= decimals {
      Pow10Values();
      if decimals <= 9 { Pow10Mono(decimals, 9); } else { Pow10Mono(10, decimals); }
    }
  }

  lemma {:induction false} Pow10Mono(a: nat, b: nat)
    requires a <= b
    ensures Pow10(a) <= Pow10(b)
    ensures 1.0 / Pow10(b) <= 1.0 / Pow10(a)
    decreases b - a
  {
    if a < b {
      Pow10Mono(a + 1, b);
    }
  }

  lemma Pow10Values()
    ensures Pow10(9) == 1000000000.0 && Pow10(10) == 10000000000.0
  {
    assert Pow10(2) == 100.0 && Pow10(4) == 10000.0 && Pow10(6) == 1000000.0 && Pow10(8) == 100000000.0;
  }

  lemma {:induction false} SmallUnitsSimulate(trades: seq<Trade>, decimals: map<string, int>, t: Trade)
    requires AtMostNine(decimals)
    ensures ClearTrade(QueueOf(Process(trades, decimals).lots, t.mint), t, decimals)
  {
    if Counts(t, decimals) {
      var unit, q := UnitOf(decimals, t.mint), Quantity(t, decimals);
      LotsAreWhole(trades, decimals);
      UnitAboveDust(decimals[t.mint]);
      assert Whole(q, unit) by { assert q == Times(t.raw.value, unit); }
      WholeIsClear(QueueOf(Process(trades, decimals).lots, t.mint), q, unit);
    }
  }

  /** For tokens of at most nine decimals the queue loop refines the interval reference, trade for trade. */
  lemma {:induction false} QueueRefinesIntervals(trades: seq<Trade>, decimals: map<string, int>)
    requires AtMostNine(decimals)
    ensures Simulates(Process(trades, decimals), RefProcess(trades, decimals))
  {
    if trades == [] {
      EmptySimulates();
    } else {
      var past, last := trades[..|trades| - 1], trades[|trades| - 1];
      QueueRefinesIntervals(past, decimals);
      SmallUnitsSimulate(past, decimals, last);
      ApplySimulates(Process(past, decimals), RefProcess(past, decimals), last, decimals);
    }
  }

  /** Buy one raw unit and sell it again. */
  function OneUnit(mint: string): seq<Trade> {
    [Trade(0, mint, Buy, Some(1), 1.0), Trade(1, mint, Sell, Some(1), 1.0)]
  }

  /** From ten decimals on, the sale of a single raw unit is not matched at all. */
  lemma {:induction false} TenDecimalsLoseAUnit(decimals: map<string, int>, mint: string)
    requires mint in decimals && 10 <= decimals[mint]
    ensures Process(OneUnit(mint), decimals).sales == 0 && RefProcess(OneUnit(mint), decimals).sales == 1
    ensures !RefinesThroughout(OneUnit(mint), decimals)
  {
    var trades := OneUnit(mint);
    var buy, sell := trades[0], trades[1];
    UnitAboveDust(decimals[mint]);
    var q := Quantity(buy, decimals);
    assert 0.0 < q <= DUST && Quantity(sell, decimals) == q;
    assert trades[..1] == [buy] && [buy][..0] == [] && trades[..2] == trades;
    var lot := Lot(q, 1.0 / q);
    assert Process([buy], decimals).lots[mint] == [lot];
    assert RefProcess([buy], decimals).positions[mint].bought == [lot];
    assert Depth([lot]) == q by { assert [lot][1..] == []; }
    ProcessTake(trades, decimals, 1);
    assert !Simulates(Process(trades[..2], decimals), RefProcess(trades[..2], decimals));
  }

  /** Every trade sequence over these tokens is refined if and only if none has ten or more decimals. */
  lemma AlwaysRefinesIffAtMostNine(decimals: map<string, int>)
    ensures (forall trades: seq<Trade> :: RefinesThroughout(trades, decimals)) <==> AtMostNine(decimals)
  {
    if AtMostNine(decimals) {
      forall trades: seq<Trade> ensures RefinesThroughout(trades, decimals) {
        forall k | 0 <= k <= |trades| ensures Simulates(Process(trades[..k], decimals), RefProcess(trades[..k], decimals)) {
          QueueRefinesIntervals(trades[..k], decimals);
        }
      }
    } else {
      var mint :| mint in decimals && decimals[mint] > 9;
      TenDecimalsLoseAUnit(decimals, mint);
    }
  }

  // ----- conservation, threshold included

  /** A mint's totals over a run: bought, matched and its basis, dropped and its cost, and the number of sells. */
  datatype Ledger = Ledger(bought: seq<Lot>, matched: real, basis: real, dropped: real, lost: real, sells: nat)

  /** The cost of what the sale throws away. */
  function Lost(queue: seq<Lot>, q: real): real
    requires Open(queue)
  {
    var matched := Consume(queue, q).matched;
    CostUpTo(queue, matched + Dropped(queue, q)) - CostUpTo(queue, matched)
  }

  /** What the sale of `q` from the queue adds to the totals. */
  function AfterSale(l: Ledger, queue: seq<Lot>, q: real): Ledger
    requires Open(queue)
  {
    var s := Consume(queue, q);
    Ledger(l.bought, l.matched + s.matched, l.basis + s.basis, l.dropped + Dropped(queue, q),
           l.lost + Lost(queue, q), l.sells + 1)
  }

  function LedgerOf(trades: seq<Trade>, decimals: map<string, int>, mint: string): Ledger {
    if trades == [] then Ledger([], 0.0, 0.0, 0.0, 0.0, 0)
    else
      var past, t := trades[..|trades| - 1], trades[|trades| - 1];
      var l := LedgerOf(past, decimals, mint);
      if !Counts(t, decimals) || t.mint != mint then l
      else
        var q := Quantity(t, decimals);
        match t.side
        case Buy => l.(bought := l.bought + [Lot(q, t.sol / q)])
        case Sell => AfterSale(l, QueueOf(Process(past, decimals).lots, mint), q)
        case Other => l
  }

  /** The totals account for everything: the queue is what is left of the purchases, tokens and cost. */
  predicate Accounts(l: Ledger, queue: seq<Lot>) {
    && Open(l.bought) && 0.0 <= l.matched + l.dropped <= Depth(l.bought)
    && queue == Drop(l.bought, l.matched + l.dropped)
    && l.basis + l.lost == CostUpTo(l.bought, l.matched + l.dropped)
    && 0.0 <= l.dropped <= l.sells as real * DUST
  }

  /**
   A sale of any quantity from what is left of the purchases takes their next interval and
   is charged that interval's cost, and then drops less than the threshold, at that cost.
   */
  lemma {:induction false} SaleTakesNextInterval(bought: seq<Lot>, gone: real, queue: seq<Lot>, q: real)
    requires Open(bought) && Open(queue) && 0.0 <= gone <= Depth(bought) && queue == Drop(bought, gone) && 0.0 <= q
    ensures NextInterval(bought, gone, q, Consume(queue, q), Dropped(queue, q), Lost(queue, q))
  {
    SaleIsInterval(queue, q);
    IntervalIsNext(bought, gone, queue, q, Consume(queue, q), Dropped(queue, q));
  }

  /** The sale takes `[gone, gone + matched)` of all purchases, and the drop what follows it. */
  predicate NextInterval(bought: seq<Lot>, gone: real, q: real, s: Sale, dropped: real, lost: real) {
    && 0.0 <= s.matched <= q && 0.0 <= dropped < DUST && gone + s.matched + dropped <= Depth(bought)
    && s.queue == Drop(bought, gone + s.matched + dropped)
    && s.basis == CostUpTo(bought, gone + s.matched) - CostUpTo(bought, gone)
    && lost == CostUpTo(bought, gone + s.matched + dropped) - CostUpTo(bought, gone + s.matched)
  }

  lemma {:induction false} IntervalIsNext(bought: seq<Lot>, gone: real, queue: seq<Lot>, q: real, s: Sale, dropped: real)
    requires Open(bought) && 0.0 <= gone <= Depth(bought) && queue == Drop(bought, gone)
    requires IntervalSale(queue, q, s, dropped)
    ensures NextInterval(bought, gone, q, s, dropped, CostUpTo(queue, s.matched + dropped) - CostUpTo(queue, s.matched))
  {
    DropConserves(bought, gone);
    var mid, end := gone + s.matched, gone + s.matched + dropped;
    DropFurther(bought, gone, queue, s.matched + dropped, end);
    CostFurther(bought, gone, queue, s.matched, mid, CostUpTo(queue, s.matched));
    CostFurther(bought, gone, queue, s.matched + dropped, end, CostUpTo(queue, s.matched + dropped));
  }

  lemma {:induction false} DropFurther(bought: seq<Lot>, gone: real, queue: seq<Lot>, more: real, end: real)
    requires Open(bought) && 0.0 <= gone && 0.0 <= more && end == gone + more && queue == Drop(bought, gone)
    ensures Drop(queue, more) == Drop(bought, end)
  {
    DropDrop(bought, gone, more);
  }

  lemma {:induction false} CostFurther(bought: seq<Lot>, gone: real, queue: seq<Lot>, more: real, end: real, cost: real)
    requires Open(bought) && 0.0 <= gone && 0.0 <= more && end == gone + more && queue == Drop(bought, gone)
    requires cost == CostUpTo(queue, more)
    ensures cost == CostUpTo(bought, end) - CostUpTo(bought, gone)
  {
    DropDrop(bought, gone, more);
  }

  lemma {:induction false} SaleAccounts(l: Ledger, queue: seq<Lot>, q: real)
    requires Accounts(l, queue) && 0.0 <= q
    ensures Open(queue) && Accounts(AfterSale(l, queue, q), Consume(queue, q).queue)
  {
    var gone := l.matched + l.dropped;
    DropConserves(l.bought, gone);
    SaleTakesNextInterval(l.bought, gone, queue, q);
    AddSale(l, gone, queue, q, Consume(queue, q), Dropped(queue, q), Lost(queue, q));
  }

  lemma AddSale(l: Ledger, gone: real, queue: seq<Lot>, q: real, s: Sale, dropped: real, lost: real)
    requires Accounts(l, queue) && gone == l.matched + l.dropped && NextInterval(l.bought, gone, q, s, dropped, lost)
    ensures Accounts(Ledger(l.bought, l.matched + s.matched, l.basis + s.basis, l.dropped + dropped,
                            l.lost + lost, l.sells + 1), s.queue)
  {
    assert (l.matched + s.matched) + (l.dropped + dropped) == gone + s.matched + dropped;
    Distribute(l.sells as real, 1.0, DUST);
  }

  lemma BuyAccounts(l: Ledger, queue: seq<Lot>, lot: Lot)
    requires Accounts(l, queue) && 0.0 < lot.quantity
    ensures Accounts(l.(bought := l.bought + [lot]), queue + [lot])
  {
    DropAppend(l.bought, lot, l.matched + l.dropped);
  }

  lemma {:induction false} RunAccounts(trades: seq<Trade>, decimals: map<string, int>, mint: string)
    ensures Accounts(LedgerOf(trades, decimals, mint), QueueOf(Process(trades, decimals).lots, mint))
  {
    if trades != [] {
      var past, t := trades[..|trades| - 1], trades[|trades| - 1];
      RunAccounts(past, decimals, mint);
      if Counts(t, decimals) && t.mint == mint {
        var l, queue, q := LedgerOf(past, decimals, mint), QueueOf(Process(past, decimals).lots, mint), Quantity(t, decimals);
        match t.side {
          case Buy => BuyAccounts(l, queue, Lot(q, t.sol / q));
          case Sell => SaleAccounts(l, queue, q);
          case Other =>
        }
      }
    }
  }

  /**
   For every trade sequence and every decimals, per mint: what was bought was matched by
   sales, dropped below the threshold or is left in lots, and so is its cost; and each sell
   drops at most the threshold.
   */
  lemma {:induction false} LotsConserved(trades: seq<Trade>, decimals: map<string, int>, mint: string)
    ensures var l, queue := LedgerOf(trades, decimals, mint), QueueOf(Process(trades, decimals).lots, mint);
      && Depth(l.bought) == l.matched + l.dropped + Depth(queue)
      && Cost(l.bought) == l.basis + l.lost + Cost(queue)
      && 0.0 <= l.dropped <= l.sells as real * DUST
  {
    RunAccounts(trades, decimals, mint);
    AccountedFor(LedgerOf(trades, decimals, mint), QueueOf(Process(trades, decimals).lots, mint));
  }

  lemma {:induction false} AccountedFor(l: Ledger, queue: seq<Lot>)
    requires Accounts(l, queue)
    ensures Depth(l.bought) == l.matched + l.dropped + Depth(queue) && Cost(l.bought) == l.basis + l.lost + Cost(queue)
  {
    DropConserves(l.bought, l.matched + l.dropped);
  }

  /** Nothing is dropped where the threshold stays out of the sale. */
  lemma {:induction false} ClearDropsNothing(queue: seq<Lot>, q: real)
    requires Open(queue) && 0.0 <= q && Clear(queue, q)
    ensures Dropped(queue, q) == 0.0
  {
    ExactIffClear(queue, q);
    QueueDecides(queue, q);
  }

  lemma {:induction false} NineDropNothing(trades: seq<Trade>, decimals: map<string, int>, mint: string)
    requires AtMostNine(decimals)
    ensures LedgerOf(trades, decimals, mint).dropped == 0.0 && LedgerOf(trades, decimals, mint).lost == 0.0
  {
    if trades != [] {
      var past, t := trades[..|trades| - 1], trades[|trades| - 1];
      NineDropNothing(past, decimals, mint);
      if Counts(t, decimals) && t.mint == mint && t.side == Sell {
        SmallUnitsSimulate(past, decimals, t);
        ClearDropsNothing(QueueOf(Process(past, decimals).lots, mint), Quantity(t, decimals));
      }
    }
  }

  // ----- the profit itself

  /** Over all mints: the matched part of the proceeds of every sell, and the basis charged for it. */
  datatype Result = Result(proceeds: real, basis: real, matched: nat)

  function ResultOf(trades: seq<Trade>, decimals: map<string, int>): Result {
    if trades == [] then Result(0.0, 0.0, 0)
    else
      var past, t := trades[..|trades| - 1], trades[|trades| - 1];
      var r := ResultOf(past, decimals);
      if !Counts(t, decimals) || t.side != Sell then r
      else
        var q := Quantity(t, decimals);
        var s := Consume(QueueOf(Process(past, decimals).lots, t.mint), q);
        if s.matched <= 0.0 then r
        else Result(r.proceeds + t.sol * (s.matched / q), r.basis + s.basis, r.matched + 1)
  }

  /**
   Over every trade sequence the profit is the proceeds of what was matched less the basis
   charged for it, and the sales counted are those that matched anything.
   */
  lemma {:induction false} ProfitIsProceedsLessBasis(trades: seq<Trade>, decimals: map<string, int>)
    ensures var b, r := Process(trades, decimals), ResultOf(trades, decimals);
      b.pnl + r.basis == r.proceeds && b.sales == r.matched
  {
    if trades != [] {
      var past, t := trades[..|trades| - 1], trades[|trades| - 1];
      ProfitIsProceedsLessBasis(past, decimals);
      if Counts(t, decimals) && t.side == Sell {
        var b, q := Process(past, decimals), Quantity(t, decimals);
        ApplySell(b, t, decimals, q, Consume(QueueOf(b.lots, t.mint), q));
      }
    }
  }

  /** Buy `n` raw units for `paid`, then sell `m` for `received`. */
  function BuyAndSell(mint: string, n: nat, m: nat, paid: real, received: real): seq<Trade> {
    [Trade(0, mint, Buy, Some(n), paid), Trade(1, mint, Sell, Some(m), received)]
  }

  lemma {:induction false} OneLot(l: Lot, x: real)
    requires 0.0 < l.quantity && 0.0 <= x <= l.quantity
    ensures Depth([l]) == l.quantity && CostUpTo([l], x) == x * l.costPerToken
  {
    assert [l][1..] == [];
  }

  /**
   What one purchase and one sale come to for a token of at most nine decimals: the matched
   share of what was received less the matched share of what was paid. Selling exactly what
   was bought gives the difference of the two amounts.
   */
  lemma {:induction false} BuyAndSellProfit(decimals: map<string, int>, mint: string, n: nat, m: nat, paid: real, received: real)
    requires AtMostNine(decimals) && mint in decimals && 0 < n && 0 < m && 0.0 < paid && 0.0 < received
    ensures var b, common := Process(BuyAndSell(mint, n, m, paid, received), decimals), if m < n then m else n;
      b.sales == 1 && b.pnl == received * (common as real / m as real) - paid * (common as real / n as real)
    ensures n == m ==> Process(BuyAndSell(mint, n, m, paid, received), decimals).pnl == received - paid
  {
    var trades := BuyAndSell(mint, n, m, paid, received);
    QueueRefinesIntervals(trades, decimals);
    BuyThenSell(decimals, mint, n, m, paid, received);
    PairProfit(Process(trades, decimals), RefProcess(trades, decimals), n, m, Unit(decimals[mint]), paid, received);
  }

  /** The profit on one lot of `q` bought for `paid`, of a sale of `k` for `received`. */
  function PairPnl(q: real, k: real, paid: real, received: real): real
    requires 0.0 < q && 0.0 < k
  {
    received * (Min(k, q) / k) - Min(k, q) * (paid / q)
  }

  lemma PairProfit(b: Book, r: Reference, n: nat, m: nat, unit: real, paid: real, received: real)
    requires Simulates(b, r) && 0 < n && 0 < m && 0.0 < unit && 0.0 < Times(n, unit) && 0.0 < Times(m, unit)
    requires r.sales == 1 && r.pnl == PairPnl(Times(n, unit), Times(m, unit), paid, received)
    ensures var common := if m < n then m else n;
      b.sales == 1 && b.pnl == received * (common as real / m as real) - paid * (common as real / n as real)
    ensures n == m ==> b.pnl == received - paid
  {
    UnitsCancel(n, m, unit, paid, received);
  }

  /** What the reference makes of the two trades. */
  lemma {:induction false} BuyThenSell(decimals: map<string, int>, mint: string, n: nat, m: nat, paid: real, received: real)
    requires mint in decimals && 0 < n && 0 < m && 0.0 < paid && 0.0 < received
    ensures var r, unit := RefProcess(BuyAndSell(mint, n, m, paid, received), decimals), Unit(decimals[mint]);
      var q, k := Times(n, unit), Times(m, unit);
      0.0 < q && 0.0 < k && r.sales == 1 && r.pnl == PairPnl(q, k, paid, received)
  {
    var trades := BuyAndSell(mint, n, m, paid, received);
    var buy, sell := trades[0], trades[1];
    assert trades[..1] == [buy] && [buy][..0] == [] && trades[..2] == trades;
    ProcessTake(trades, decimals, 0);
    ProcessTake(trades, decimals, 1);
    FirstBuy(buy, decimals, Quantity(buy, decimals));
    SellFirst(RefProcess([buy], decimals), sell, decimals, Quantity(buy, decimals), paid, Quantity(sell, decimals));
  }

  lemma FirstBuy(t: Trade, decimals: map<string, int>, q: real)
    requires Counts(t, decimals) && t.side == Buy && q == Quantity(t, decimals)
    ensures RefApply(Reference(map[], 0.0, 0), t, decimals)
         == Reference(map[t.mint := Position([Lot(q, t.sol / q)], 0.0, 0.0)], 0.0, 0)
  {
    var none: seq<Lot> := [];
    assert none + [Lot(q, t.sol / q)] == [Lot(q, t.sol / q)];
  }

  lemma SellFirst(r: Reference, t: Trade, decimals: map<string, int>, q: real, paid: real, k: real)
    requires Counts(t, decimals) && t.side == Sell && k == Quantity(t, decimals) && 0.0 < q
    requires r == Reference(map[t.mint := Position([Lot(q, paid / q)], 0.0, 0.0)], 0.0, 0)
    ensures RefApply(r, t, decimals).sales == 1 && RefApply(r, t, decimals).pnl == PairPnl(q, k, paid, t.sol)
  {
    var l, matched := Lot(q, paid / q), Min(k, q);
    OneLot(l, 0.0);
    OneLot(l, matched);
    RefApplySell(r, t, decimals, k, Position([l], 0.0, 0.0), matched, matched * (paid / q));
  }

  lemma UnitsCancel(n: nat, m: nat, unit: real, paid: real, received: real)
    requires 0 < n && 0 < m && 0.0 < unit && 0.0 < Times(n, unit) && 0.0 < Times(m, unit)
    ensures var q, k, common := Times(n, unit), Times(m, unit), if m < n then m else n;
      && 0.0 < Min(k, q)
      && Min(k, q) / k == common as real / m as real
      && Min(k, q) * (paid / q) == paid * (common as real / n as real)
  {
    var q, k := Times(n, unit), Times(m, unit);
    Distribute(n as real, m as real, unit);
    if m < n {
      assert 0.0 < (n - m) as real * unit;
      SameRatio(m as real, n as real, unit, paid);
    } else {
      SameRatio(n as real, m as real, unit, 1.0);
      SameRatio(n as real, n as real, unit, paid);
    }
  }

  lemma SameRatio(a: real, b: real, unit: real, amount: real)
    requires 0.0 < b && 0.0 < unit && 0.0 < b * unit
    ensures a * unit / (b * unit) == a / b
    ensures a * unit * (amount / (b * unit)) == amount * (a / b)
  {
    var ratio := a / b;
    assert a == ratio * b;
    assert a * unit == ratio * (b * unit);
    var price := amount / (b * unit);
    assert price * (b * unit) == amount;
    assert a * unit * price == ratio * (b * unit * price);
  }

  // ----- what one trade adds

  /** The raw unit is a tenth of the unit one decimal up, for every number of decimals, and 1 at none. */
  lemma UnitByDecimals(decimals: int)
    ensures Unit(0) == 1.0 && Unit(decimals) == 10.0 * Unit(decimals + 1)
  {
    if 0 <= decimals {
      assert Pow10(decimals + 1) == 10.0 * Pow10(decimals);
    } else {
      assert Pow10(-decimals) == 10.0 * Pow10(-decimals - 1);
    }
  }

  /**
   A trade of an unknown token, without a readable positive amount or without a positive price
   changes nothing; any other purchase opens one lot, behind all others, of its raw amount and
   at its whole price.
   */
  lemma {:induction false} PurchasesOpenLots(past: seq<Trade>, t: Trade, decimals: map<string, int>)
    ensures t.mint !in decimals || t.raw.None? || t.raw.value == 0 || t.sol <= 0.0
      ==> Process(past + [t], decimals) == Process(past, decimals)
    ensures t.mint in decimals && t.raw.Some? && 0 < t.raw.value && 0.0 < t.sol && t.side == Buy ==>
      var before, after := Process(past, decimals), Process(past + [t], decimals);
      && after.pnl == before.pnl && after.sales == before.sales
      && t.mint in after.lots && |QueueOf(after.lots, t.mint)| == |QueueOf(before.lots, t.mint)| + 1
      && after.lots[t.mint][..|after.lots[t.mint]| - 1] == QueueOf(before.lots, t.mint)
      && var l := after.lots[t.mint][|after.lots[t.mint]| - 1];
         l.quantity == t.raw.value as real * Unit(decimals[t.mint]) && l.quantity * l.costPerToken == t.sol
  {
    LastTrade(past, t, decimals);
    if t.mint in decimals && t.raw.Some? && 0 < t.raw.value && 0.0 < t.sol && t.side == Buy {
      var q := Quantity(t, decimals);
      PriceTimes(q, t.sol);
      LotAppended(Process(past, decimals), Process(past + [t], decimals), t, Lot(q, t.sol / q));
    }
  }

  lemma {:induction false} LastTrade(past: seq<Trade>, t: Trade, decimals: map<string, int>)
    ensures !Counts(t, decimals) ==> Process(past + [t], decimals) == Process(past, decimals)
    ensures Counts(t, decimals) && t.side == Buy ==>
      var b, q := Process(past, decimals), Quantity(t, decimals);
      Process(past + [t], decimals) == b.(lots := b.lots[t.mint := QueueOf(b.lots, t.mint) + [Lot(q, t.sol / q)]])
  {
    assert (past + [t])[..|past|] == past;
  }

  lemma LotAppended(before: Book, after: Book, t: Trade, l: Lot)
    requires after == before.(lots := before.lots[t.mint := QueueOf(before.lots, t.mint) + [l]])
    ensures t.mint in after.lots && |after.lots[t.mint]| == |QueueOf(before.lots, t.mint)| + 1
    ensures after.lots[t.mint][..|after.lots[t.mint]| - 1] == QueueOf(before.lots, t.mint)
    ensures after.lots[t.mint][|after.lots[t.mint]| - 1] == l
  {
  }

  lemma PriceTimes(q: real, sol: real)
    requires 0.0 < q
    ensures q * (sol / q) == sol
  {
  }
}
