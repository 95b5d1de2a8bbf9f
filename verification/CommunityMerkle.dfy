/**
 The community airdrop manifest: an exact-slot holder snapshot, the pro-rata pool over it,
 and the Merkle tree of the resulting claims.
 */
module CommunityMerkle {
  import opened Wrappers
  import opened Arith
  import opened Bytes
  import opened MerkleTree
  import Rewards = AutomaticRewards

  /** The bytes of "funded-community-leaf-v1". */
  const LEAF_DOMAIN: seq<Byte> := [102, 117, 110, 100, 101, 100, 45, 99, 111, 109, 109, 117, 110,
                                   105, 116, 121, 45, 108, 101, 97, 102, 45, 118, 49]

  datatype Error = NoExactSnapshot | BadAmount | BadAccounts | NotCovered | NothingPayable | OutOfRange | BadProof

  /** Address text to key bytes; Base58 decoding is not part of this model. */
  type Decode = string -> Bytes32

  /** What a leaf commits to. */
  datatype Entry = Entry(drop: Bytes32, recipient: Bytes32, amount: int, index: int)

  predicate Encodable(e: Entry) {
    0 <= e.amount < U64_LIMIT && 0 <= e.index < U32_LIMIT
  }

  function LeafPreimage(e: Entry): (p: seq<Byte>)
    requires Encodable(e)
    ensures |p| == 100
  {
    LEAF_DOMAIN + e.drop + e.recipient + LittleEndian(e.amount, 8) + LittleEndian(e.index, 4)
  }

  /** What is where in a leaf's bytes. */
  lemma PreimageLayout(e: Entry)
    requires Encodable(e)
    ensures var p, text := LeafPreimage(e), "funded-community-leaf-v1";
      && (forall i :: 0 <= i < 24 ==> p[i] == text[i] as int)
      && p[24..56] == e.drop && p[56..88] == e.recipient
      && Value(p[88..96]) == e.amount && Value(p[96..100]) == e.index
  {
    Pow256Widths();
    ReadsBack(e.amount, 8);
    ReadsBack(e.index, 4);
    FieldsLaidOut(LEAF_DOMAIN, e.drop, e.recipient, LittleEndian(e.amount, 8), LittleEndian(e.index, 4), LeafPreimage(e));
    forall i | 0 <= i < 24 ensures LeafPreimage(e)[i] == "funded-community-leaf-v1"[i] as int {
      assert LeafPreimage(e)[i] == LeafPreimage(e)[..24][i];
    }
  }

  lemma FieldsLaidOut(domain: seq<Byte>, drop: seq<Byte>, recipient: seq<Byte>, amount: seq<Byte>, index: seq<Byte>, p: seq<Byte>)
    requires |domain| == 24 && |drop| == |recipient| == 32 && |amount| == 8 && |index| == 4
    requires p == domain + drop + recipient + amount + index
    ensures |p| == 100 && p[..24] == domain && p[24..56] == drop && p[56..88] == recipient
    ensures p[88..96] == amount && p[96..100] == index
  {
  }

  /** A leaf's bytes determine everything the leaf commits to. */
  lemma PreimageInjective(a: Entry, b: Entry)
    requires Encodable(a) && Encodable(b) && LeafPreimage(a) == LeafPreimage(b)
    ensures a == b
  {
    SplitTail(LEAF_DOMAIN + a.drop + a.recipient + LittleEndian(a.amount, 8), LittleEndian(a.index, 4),
              LEAF_DOMAIN + b.drop + b.recipient + LittleEndian(b.amount, 8), LittleEndian(b.index, 4));
    SplitTail(LEAF_DOMAIN + a.drop + a.recipient, LittleEndian(a.amount, 8),
              LEAF_DOMAIN + b.drop + b.recipient, LittleEndian(b.amount, 8));
    SplitTail(LEAF_DOMAIN + a.drop, a.recipient, LEAF_DOMAIN + b.drop, b.recipient);
    SplitTail(LEAF_DOMAIN, a.drop, LEAF_DOMAIN, b.drop);
    Pow256Widths();
    ReadsBack(a.amount, 8);
    ReadsBack(b.amount, 8);
    ReadsBack(a.index, 4);
    ReadsBack(b.index, 4);
  }

  // ----- from snapshot to allocation

  datatype Holder = Holder(wallet: string, balance: int)

  /** `exactSlot` says that slot, time, mint, finality and coverage all name the migration. */
  datatype Snapshot = Snapshot(exactSlot: bool, supply: int, accounts: seq<Holder>)

  datatype Drop = Drop(drop: Bytes32, snapshot: Snapshot, amount: int, excluded: set<string>)

  predicate GoodAccounts(accounts: seq<Holder>) {
    && (forall i :: 0 <= i < |accounts| ==> 0 <= accounts[i].balance < U64_LIMIT && accounts[i].wallet != "")
    && (forall i, j :: 0 <= i < j < |accounts| ==> accounts[i].wallet != accounts[j].wallet)
  }

  function Supply(accounts: seq<Holder>, n: nat): int
    requires n <= |accounts|
  {
    if n == 0 then 0 else Supply(accounts, n - 1) + accounts[n - 1].balance
  }

  function ToEntries(accounts: seq<Holder>): (t: seq<Rewards.Entry>)
    requires GoodAccounts(accounts)
    ensures |t| == |accounts|
  {
    seq(|accounts|, i requires 0 <= i < |accounts| => Rewards.Entry(accounts[i].wallet, accounts[i].balance))
  }

  /** Everything but excluded wallets. */
  function Eligible(t: seq<Rewards.Entry>, excluded: set<string>): (e: seq<Rewards.Entry>) {
    if t == [] then []
    else (if t[0].wallet in excluded then [] else [t[0]]) + Eligible(t[1..], excluded)
  }

  /** The weights handed to the pool: positive balances of wallets not excluded, in address order. */
  function DropWeights(d: Drop): seq<Rewards.Entry>
    requires GoodAccounts(d.snapshot.accounts)
  {
    var t := ToEntries(d.snapshot.accounts);
    Eligible(Rewards.Publish(t, |t|), d.excluded)
  }

  function Allocations(d: Drop): seq<Rewards.Entry>
    requires GoodAccounts(d.snapshot.accounts) && 0 <= d.amount
  {
    Rewards.HolderPool(d.amount, DropWeights(d)).allocations
  }

  predicate Valid(d: Drop) {
    && d.snapshot.exactSlot
    && 0 < d.amount < U64_LIMIT && 0 < d.snapshot.supply < U64_LIMIT
    && GoodAccounts(d.snapshot.accounts)
    && Supply(d.snapshot.accounts, |d.snapshot.accounts|) == d.snapshot.supply
    && 0 < |Allocations(d)| <= U32_LIMIT
  }

  lemma {:induction false} EligibleEffect(t: seq<Rewards.Entry>, excluded: set<string>)
    requires Rewards.Distinct(t)
    ensures Rewards.Distinct(Eligible(t, excluded))
    ensures forall i :: 0 <= i < |Eligible(t, excluded)|
              ==> Eligible(t, excluded)[i] in t && Eligible(t, excluded)[i].wallet !in excluded
  {
    if t != [] {
      EligibleEffect(t[1..], excluded);
      var rest := Eligible(t[1..], excluded);
      forall j | 0 <= j < |rest| ensures rest[j] in t && rest[j].wallet != t[0].wallet {
        assert rest[j] in t[1..];
        var k :| 0 <= k < |t[1..]| && t[1..][k] == rest[j];
        assert t[k + 1] == rest[j];
      }
    }
  }

  lemma {:induction false} PublishMembers(t: seq<Rewards.Entry>, n: nat)
    requires n <= |t|
    ensures forall i :: 0 <= i < |Rewards.Publish(t, n)| ==> Rewards.Publish(t, n)[i] in t
  {
    if n != 0 {
      PublishMembers(t, n - 1);
      if t[n - 1].weight != 0 {
        InsertMembers(Rewards.Publish(t, n - 1), t[n - 1]);
      }
    }
  }

  lemma {:induction false} InsertMembers(s: seq<Rewards.Entry>, e: Rewards.Entry)
    ensures forall i :: 0 <= i < |Rewards.InsertEntry(s, e)|
              ==> Rewards.InsertEntry(s, e)[i] in s || Rewards.InsertEntry(s, e)[i] == e
  {
    if s != [] && !Rewards.Precedes(e.wallet, s[0].wallet) {
      InsertMembers(s[1..], e);
    }
  }

  /** Every weight is a positive snapshot balance of a wallet that is not excluded. */
  lemma DropWeightsAreBalances(d: Drop)
    requires GoodAccounts(d.snapshot.accounts)
    ensures Rewards.GoodRecipients(DropWeights(d))
    ensures forall i :: 0 <= i < |DropWeights(d)| ==> var e := DropWeights(d)[i];
      && e.wallet !in d.excluded && 0 < e.weight
      && Holder(e.wallet, e.weight) in d.snapshot.accounts
  {
    var t := ToEntries(d.snapshot.accounts);
    var published := Rewards.Publish(t, |t|);
    Rewards.PublishEffect(t, |t|);
    PublishMembers(t, |t|);
    EligibleEffect(published, d.excluded);
    forall i | 0 <= i < |DropWeights(d)|
      ensures DropWeights(d)[i].wallet != "" && 0 < DropWeights(d)[i].weight
      ensures Holder(DropWeights(d)[i].wallet, DropWeights(d)[i].weight) in d.snapshot.accounts
    {
      var e := DropWeights(d)[i];
      var j :| 0 <= j < |published| && published[j] == e;
      var k :| 0 <= k < |t| && t[k] == e;
      assert d.snapshot.accounts[k] == Holder(e.wallet, e.weight);
    }
  }

  lemma {:induction false} PaidMembers(pool: nat, t: seq<Rewards.Entry>, n: nat)
    requires n <= |t|
    ensures forall i :: 0 <= i < |Rewards.Paid(pool, t, n)| ==> var p := Rewards.Paid(pool, t, n)[i];
      && 0 < p.weight <= pool
      && exists k :: 0 <= k < n && t[k].wallet == p.wallet
                     && p.weight == Rewards.Payout(pool, Rewards.WeightsOf(t), k)
  {
    if n != 0 {
      PaidMembers(pool, t, n - 1);
      PayoutWithinPool(pool, Rewards.WeightsOf(t), n - 1);
    }
  }

  lemma PayoutWithinPool(pool: nat, weights: seq<nat>, i: nat)
    requires i < |weights|
    ensures Rewards.Payout(pool, weights, i) <= pool
  {
    SumNonNegative(weights);
    if 0 < Sum(weights) {
      MulMono(weights[i], Sum(weights), pool);
      DivMono(pool * weights[i], pool * Sum(weights), Sum(weights));
      DivMultiple(pool, Sum(weights));
    }
  }

  /**
   What an accepted drop allocates: allocations and remainder make up the amount exactly,
   and each allocation is the floor of the pro-rata share of a positive snapshot balance
   of a wallet that is not excluded, over the total eligible balance.
   */
  lemma AllocationsAreProRata(d: Drop)
    requires Valid(d)
    ensures Sum(Rewards.WeightsOf(Allocations(d)))
          + Rewards.HolderPool(d.amount, DropWeights(d)).remainder == d.amount
    ensures 0 <= Rewards.HolderPool(d.amount, DropWeights(d)).remainder < |DropWeights(d)|
    ensures 0 < Sum(Rewards.WeightsOf(DropWeights(d)))
    ensures forall i :: 0 <= i < |Allocations(d)| ==> var a := Allocations(d)[i];
      && 0 < a.weight <= d.amount && a.wallet !in d.excluded
      && exists h :: h in d.snapshot.accounts && h.wallet == a.wallet && 0 < h.balance
                     && a.weight == d.amount * h.balance / Sum(Rewards.WeightsOf(DropWeights(d)))
  {
    var t := DropWeights(d);
    var weights := Rewards.WeightsOf(t);
    DropWeightsAreBalances(d);
    Rewards.PoolConserved(d.amount, t);
    PaidMembers(d.amount, t, |t|);
    SumNonNegative(weights);
    PositiveAtMost(weights);
    assert 0 < Allocations(d)[0].weight;
    forall i | 0 <= i < |Allocations(d)|
      ensures Allocations(d)[i].wallet !in d.excluded
      ensures exists h :: h in d.snapshot.accounts && h.wallet == Allocations(d)[i].wallet && 0 < h.balance
                && Allocations(d)[i].weight == d.amount * h.balance / Sum(weights)
    {
      var a := Allocations(d)[i];
      var k :| 0 <= k < |t| && t[k].wallet == a.wallet && a.weight == Rewards.Payout(d.amount, weights, k);
      var h := Holder(t[k].wallet, t[k].weight);
      assert h in d.snapshot.accounts;
    }
  }

  lemma {:induction false} InsertKeeps(s: seq<Rewards.Entry>, e: Rewards.Entry, x: Rewards.Entry)
    requires x == e || x in s
    ensures x in Rewards.InsertEntry(s, e)
  {
    if s != [] && !Rewards.Precedes(e.wallet, s[0].wallet) {
      if x == e || x in s[1..] {
        InsertKeeps(s[1..], e, x);
      }
    }
  }

  lemma {:induction false} PublishKeeps(t: seq<Rewards.Entry>, n: nat, k: nat)
    requires k < n <= |t| && t[k].weight != 0
    ensures t[k] in Rewards.Publish(t, n)
  {
    if k < n - 1 {
      PublishKeeps(t, n - 1, k);
    }
    if t[n - 1].weight != 0 {
      InsertKeeps(Rewards.Publish(t, n - 1), t[n - 1], t[k]);
    }
  }

  lemma {:induction false} EligibleKeeps(t: seq<Rewards.Entry>, excluded: set<string>, x: Rewards.Entry)
    requires x in t && x.wallet !in excluded
    ensures x in Eligible(t, excluded)
  {
    if x != t[0] {
      EligibleKeeps(t[1..], excluded, x);
    }
  }

  lemma {:induction false} PaidKeeps(pool: nat, t: seq<Rewards.Entry>, n: nat, k: nat)
    requires k < n <= |t| && Rewards.Payout(pool, Rewards.WeightsOf(t), k) != 0
    ensures Rewards.Entry(t[k].wallet, Rewards.Payout(pool, Rewards.WeightsOf(t), k)) in Rewards.Paid(pool, t, n)
  {
    if k < n - 1 {
      PaidKeeps(pool, t, n - 1, k);
    }
  }

  lemma {:induction false} PaidDistinct(pool: nat, t: seq<Rewards.Entry>, n: nat)
    requires n <= |t| && Rewards.Distinct(t)
    ensures Rewards.Distinct(Rewards.Paid(pool, t, n))
  {
    if n != 0 {
      PaidDistinct(pool, t, n - 1);
      PaidMembers(pool, t, n - 1);
      var before := Rewards.Paid(pool, t, n - 1);
      forall i | 0 <= i < |before| ensures before[i].wallet != t[n - 1].wallet {
        var k :| 0 <= k < n - 1 && t[k].wallet == before[i].wallet;
      }
    }
  }

  /** The weight of an eligible positive balance is among the weights. */
  lemma HolderWeighs(d: Drop, h: Holder)
    requires GoodAccounts(d.snapshot.accounts) && h in d.snapshot.accounts && h.wallet !in d.excluded && 0 < h.balance
    ensures Rewards.Entry(h.wallet, h.balance) in DropWeights(d)
  {
    var t := ToEntries(d.snapshot.accounts);
    var k :| 0 <= k < |d.snapshot.accounts| && d.snapshot.accounts[k] == h;
    PublishKeeps(t, |t|, k);
    EligibleKeeps(Rewards.Publish(t, |t|), d.excluded, t[k]);
  }

  /**
   The converse: every holder who is not excluded and whose share reaches one unit is
   allocated exactly that share, and no wallet is allocated twice.
   */
  lemma EveryHolderIsAllocated(d: Drop, h: Holder)
    requires Valid(d) && h in d.snapshot.accounts && h.wallet !in d.excluded
    ensures 0 < Sum(Rewards.WeightsOf(DropWeights(d)))
    ensures var share := d.amount * h.balance / Sum(Rewards.WeightsOf(DropWeights(d)));
      0 < share ==> Rewards.Entry(h.wallet, share) in Allocations(d)
    ensures Rewards.Distinct(Allocations(d))
  {
    var t := DropWeights(d);
    AllocationsAreProRata(d);
    var published := ToEntries(d.snapshot.accounts);
    Rewards.PublishEffect(published, |published|);
    EligibleEffect(Rewards.Publish(published, |published|), d.excluded);
    PaidDistinct(d.amount, t, |t|);
    if 0 < d.amount * h.balance / Sum(Rewards.WeightsOf(t)) {
      if h.balance == 0 {
        DivMultiple(0, Sum(Rewards.WeightsOf(t)));
      } else {
        HolderWeighs(d, h);
        var k :| 0 <= k < |t| && t[k] == Rewards.Entry(h.wallet, h.balance);
        PaidKeeps(d.amount, t, |t|, k);
      }
    }
  }

  lemma {:induction false} PositiveAtMost(weights: seq<nat>)
    ensures Rewards.Positive(weights) <= |weights|
  {
    if weights != [] {
      PositiveAtMost(weights[1..]);
    }
  }

  // ----- the manifest

  datatype Leaf = Leaf(index: nat, recipient: string, amount: nat, hash: Bytes32, proof: seq<Bytes32>)

  datatype Manifest = Manifest(drop: Bytes32, root: Bytes32, total: int, allocatedAmount: int, remainder: int, leaves: seq<Leaf>)

  function EntryAt(key: Decode, d: Drop, i: nat): Entry
    requires GoodAccounts(d.snapshot.accounts) && 0 <= d.amount && i < |Allocations(d)|
  {
    Entry(d.drop, key(Allocations(d)[i].wallet), Allocations(d)[i].weight, i)
  }

  lemma EntriesEncodable(key: Decode, d: Drop, i: nat)
    requires Valid(d) && i < |Allocations(d)|
    ensures Encodable(EntryAt(key, d, i))
  {
    PaidMembers(d.amount, DropWeights(d), |DropWeights(d)|);
  }

  function LeafPreimages(key: Decode, d: Drop): (leaves: seq<seq<Byte>>)
    requires Valid(d)
    ensures |leaves| == |Allocations(d)| && forall i :: 0 <= i < |leaves| ==> |leaves[i]| == 100
  {
    seq(|Allocations(d)|, i requires 0 <= i < |Allocations(d)| =>
      EntriesEncodable(key, d, i);
      LeafPreimage(EntryAt(key, d, i)))
  }

  function LeafAt(d: Drop, hashes: seq<Bytes32>, levels: seq<seq<Bytes32>>, i: nat): Leaf
    requires Valid(d) && i < |Allocations(d)| == |hashes|
  {
    Leaf(i, Allocations(d)[i].wallet, Allocations(d)[i].weight, hashes[i], Proof(levels, i))
  }

  /** The manifest, leaf by leaf. */
  ghost predicate IsManifest(h: Hash, key: Decode, d: Drop, m: Manifest)
    requires Valid(d)
  {
    var hashes := LeafHashes(h, LeafPreimages(key, d));
    && m.drop == d.drop && m.root == Root(h, hashes) && m.total == d.amount
    && m.allocatedAmount == Sum(Rewards.WeightsOf(Allocations(d)))
    && m.remainder == Rewards.HolderPool(d.amount, DropWeights(d)).remainder
    && |m.leaves| == |Allocations(d)|
    && forall i :: 0 <= i < |m.leaves| ==> m.leaves[i] == LeafAt(d, hashes, Levels(h, hashes), i)
  }

  method CheckAccounts(accounts: seq<Holder>) returns (good: bool, supply: int)
    ensures good <==> GoodAccounts(accounts)
    ensures good ==> supply == Supply(accounts, |accounts|)
  {
    var seen: set<string> := {};
    supply := 0;
    for k := 0 to |accounts|
      invariant seen == set i | 0 <= i < k :: accounts[i].wallet
      invariant GoodAccounts(accounts[..k]) && supply == Supply(accounts, k)
    {
      var row := accounts[k];
      if row.wallet == "" || row.wallet in seen || row.balance < 0 || U64_LIMIT <= row.balance {
        assert accounts[k] == row;
        return false, 0;
      }
      seen := seen + {row.wallet};
      supply := supply + row.balance;
      assert accounts[..k + 1] == accounts[..k] + [row];
    }
    assert accounts[..|accounts|] == accounts;
    good := true;
  }

  method HashLeaves(h: Hash, key: Decode, d: Drop, allocations: seq<Rewards.Entry>)
    returns (hashes: seq<Bytes32>)
    requires Valid(d) && allocations == Allocations(d)
    ensures hashes == LeafHashes(h, LeafPreimages(key, d))
  {
    hashes := [];
    for i := 0 to |allocations|
      invariant |hashes| == i
      invariant forall j :: 0 <= j < i ==> hashes[j] == LeafHashes(h, LeafPreimages(key, d))[j]
    {
      EntriesEncodable(key, d, i);
      hashes := hashes + [h(LeafPreimage(EntryAt(key, d, i)))];
    }
  }

  method BuildLeaves(d: Drop, allocations: seq<Rewards.Entry>, hashes: seq<Bytes32>, levels: seq<seq<Bytes32>>)
    returns (leaves: seq<Leaf>, allocatedAmount: int)
    requires Valid(d) && allocations == Allocations(d) && |hashes| == |allocations| && levels != []
    ensures |leaves| == |hashes| && forall i :: 0 <= i < |leaves| ==> leaves[i] == LeafAt(d, hashes, levels, i)
    ensures allocatedAmount == Sum(Rewards.WeightsOf(allocations))
  {
    leaves, allocatedAmount := [], 0;
    for i := 0 to |allocations|
      invariant |leaves| == i && allocatedAmount == Sum(Rewards.WeightsOf(allocations)[..i])
      invariant forall j :: 0 <= j < i ==> leaves[j] == LeafAt(d, hashes, levels, j)
    {
      var proof := BuildProof(levels, i);
      leaves := leaves + [Leaf(i, allocations[i].wallet, allocations[i].weight, hashes[i], proof)];
      SumTake(Rewards.WeightsOf(allocations), i);
      allocatedAmount := allocatedAmount + allocations[i].weight;
    }
    assert Rewards.WeightsOf(allocations)[..|allocations|] == Rewards.WeightsOf(allocations);
  }

  method BuildCommunityManifest(h: Hash, key: Decode, d: Drop) returns (r: Result<Manifest, Error>)
    ensures r.Ok? <==> Valid(d)
    ensures r.Ok? ==> IsManifest(h, key, d, r.value)
  {
    if !d.snapshot.exactSlot {
      return Err(NoExactSnapshot);
    }
    if d.amount <= 0 || d.snapshot.supply <= 0 || U64_LIMIT <= d.amount || U64_LIMIT <= d.snapshot.supply {
      return Err(BadAmount);
    }
    var good, supply := CheckAccounts(d.snapshot.accounts);
    if !good {
      return Err(BadAccounts);
    }
    if d.snapshot.accounts == [] || supply != d.snapshot.supply {
      return Err(NotCovered);
    }
    DropWeightsAreBalances(d);
    var pool := Rewards.AllocateHolderPool(d.amount, DropWeights(d));
    var allocations := pool.value.allocations;
    if allocations == [] {
      return Err(NothingPayable);
    }
    if U32_LIMIT < |allocations| {
      return Err(OutOfRange);
    }
    var hashes := HashLeaves(h, key, d, allocations);
    var levels := BuildLevels(h, hashes);
    var leaves, allocatedAmount := BuildLeaves(d, allocations, hashes, levels);
    RootIsLastLevel(h, hashes);
    r := Ok(Manifest(d.drop, levels[|levels| - 1][0], d.amount, allocatedAmount, pool.value.remainder, leaves));
  }

  /** What an accepted snapshot is: whole, distinct and exact, with something to pay to no more leaves than fit. */
  lemma {:induction false} AcceptedSnapshots(d: Drop)
    requires Valid(d)
    ensures d.snapshot.exactSlot && 0 < d.amount < U64_LIMIT && 0 < d.snapshot.supply < U64_LIMIT
    ensures var accounts := d.snapshot.accounts;
      && accounts != []
      && (forall i :: 0 <= i < |accounts| ==> 0 <= accounts[i].balance < U64_LIMIT)
      && (forall i, j :: 0 <= i < j < |accounts| ==> accounts[i].wallet != accounts[j].wallet)
      && d.snapshot.supply == Sum(seq(|accounts|, i requires 0 <= i < |accounts| => accounts[i].balance))
    ensures exists h :: h in d.snapshot.accounts && h.wallet !in d.excluded && 0 < h.balance
  {
    SupplyIsSum(d.snapshot.accounts, |d.snapshot.accounts|);
    AllocationsAreProRata(d);
    assert Allocations(d)[0].wallet !in d.excluded;
  }

  lemma {:induction false} SupplyIsSum(accounts: seq<Holder>, n: nat)
    requires n <= |accounts|
    ensures Supply(accounts, n) == Sum(seq(n, i requires 0 <= i < n => accounts[i].balance))
  {
    var balances := seq(n, i requires 0 <= i < n => accounts[i].balance);
    if n != 0 {
      SupplyIsSum(accounts, n - 1);
      SumTake(balances, n - 1);
      assert balances[..n] == balances;
      assert balances[..n - 1] == seq(n - 1, i requires 0 <= i < n - 1 => accounts[i].balance);
    }
  }

  /** The manifest lists the allocations in order; paid and unpaid make up the amount. */
  lemma {:induction false} ManifestLists(h: Hash, key: Decode, d: Drop, m: Manifest)
    requires Valid(d) && IsManifest(h, key, d, m)
    ensures m.drop == d.drop && m.total == d.amount == m.allocatedAmount + m.remainder
    ensures 0 < Sum(Rewards.WeightsOf(DropWeights(d)))
    ensures forall i :: 0 <= i < |m.leaves| ==>
      && m.leaves[i].index == i && 0 < m.leaves[i].amount
      && (exists holder :: holder in d.snapshot.accounts && holder.wallet == m.leaves[i].recipient && holder.wallet !in d.excluded
            && m.leaves[i].amount == d.amount * holder.balance / Sum(Rewards.WeightsOf(DropWeights(d))))
    ensures m.allocatedAmount == Sum(seq(|m.leaves|, i requires 0 <= i < |m.leaves| => m.leaves[i].amount))
  {
    AllocationsAreProRata(d);
    assert seq(|m.leaves|, i requires 0 <= i < |m.leaves| => m.leaves[i].amount) == Rewards.WeightsOf(Allocations(d));
  }

  // ----- verification

  predicate AllDigests(proof: seq<seq<Byte>>) {
    forall k :: 0 <= k < |proof| ==> |proof[k]| == 32
  }

  function Verify(h: Hash, e: Entry, proof: seq<seq<Byte>>, root: seq<Byte>): Result<bool, Error> {
    if !Encodable(e) then Err(OutOfRange)
    else if !AllDigests(proof) || |root| != 32 then Err(BadProof)
    else Ok(Fold(h, h(LeafPreimage(e)), proof) == root)
  }

  method VerifyCommunityProof(h: Hash, e: Entry, proof: seq<seq<Byte>>, root: seq<Byte>)
    returns (r: Result<bool, Error>)
    ensures r == Verify(h, e, proof, root)
  {
    if !Encodable(e) {
      return Err(OutOfRange);
    }
    if !AllDigests(proof) || |root| != 32 {
      return Err(BadProof);
    }
    var node := FoldProof(h, h(LeafPreimage(e)), proof);
    r := Ok(node == root);
  }

  /**
   Any claim, with a proof of any length and content, verifies against a manifest's root
   exactly when it is that manifest's leaf at that index, with the proof emitted for it,
   provided nothing hashed on the way collides.
   */
  lemma VerifiesExactlyItsLeaves(h: Hash, key: Decode, d: Drop, m: Manifest, e: Entry, proof: seq<seq<Byte>>)
    requires Valid(d) && IsManifest(h, key, d, m)
    requires Encodable(e) && AllDigests(proof) ==>
               CollisionFree(h, AllPreimages(h, LeafPreimages(key, d), LeafPreimage(e), proof))
    ensures Verify(h, e, proof, m.root) == Ok(true) <==>
      && e.drop == m.drop && 0 <= e.index < |m.leaves|
      && e.recipient == key(m.leaves[e.index].recipient) && e.amount == m.leaves[e.index].amount
      && proof == m.leaves[e.index].proof
  {
    if 0 <= e.index < |m.leaves| {
      EntriesEncodable(key, d, e.index);
    }
    if Encodable(e) && AllDigests(proof) {
      var leaves, leaf := LeafPreimages(key, d), LeafPreimage(e);
      AcceptsExactlyEmittedProofs(h, leaves, leaf, proof);
      forall j | 0 <= j < |leaves| && leaves[j] == leaf ensures e == EntryAt(key, d, j) {
        EntriesEncodable(key, d, j);
        PreimageInjective(e, EntryAt(key, d, j));
      }
    }
  }

  /**
   What verifying answers: an error for an amount of more than eight bytes or an index of more
   than four, then for a node or a root that is not 32 bytes long, and otherwise whether
   the fold of the leaf's own hash is the root.
   */
  lemma {:induction false} VerifyOutcome(h: Hash, e: Entry, proof: seq<seq<Byte>>, root: seq<Byte>)
    ensures Verify(h, e, proof, root) == Err(OutOfRange) <==>
      e.amount < 0 || e.amount > 0xffff_ffff_ffff_ffff || e.index < 0 || e.index > 0xffff_ffff
    ensures Verify(h, e, proof, root) == Err(BadProof) <==>
      && 0 <= e.amount <= 0xffff_ffff_ffff_ffff && 0 <= e.index <= 0xffff_ffff
      && (|root| != 32 || exists i :: 0 <= i < |proof| && |proof[i]| != 32)
    ensures Verify(h, e, proof, root).Ok? ==>
      && Encodable(e) && AllDigests(proof)
      && Verify(h, e, proof, root).value == (Fold(h, h(LeafPreimage(e)), proof) == root)
  {
  }
}
