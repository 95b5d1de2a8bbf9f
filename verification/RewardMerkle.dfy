/** Reward manifests: one leaf per recipient of a reward cycle, and their verification. */
module RewardMerkle {
  import opened Wrappers
  import opened Arith
  import opened Bytes
  import opened MerkleTree

  /** The bytes of "funded-reward-leaf-v1". */
  const LEAF_DOMAIN: seq<Byte> := [102, 117, 110, 100, 101, 100, 45, 114, 101, 119, 97, 114, 100,
                                   45, 108, 101, 97, 102, 45, 118, 49]

  datatype Error = NoAllocations | DuplicateRecipient | BadAmount | OutOfRange | BadProof

  /** A recipient address and an amount; an amount that is no positive integer text is not positive here. */
  datatype Allocation = Allocation(recipient: Bytes32, amount: int)

  /** What a leaf commits to. */
  datatype Entry = Entry(cycleId: Bytes32, asset: Bytes32, recipient: Bytes32, amount: int, index: int)

  predicate Encodable(e: Entry) {
    0 <= e.amount < U64_LIMIT && 0 <= e.index < U32_LIMIT
  }

  function LeafPreimage(e: Entry): (p: seq<Byte>)
    requires Encodable(e)
    ensures |p| == 129
  {
    LEAF_DOMAIN + e.cycleId + e.recipient + e.asset + LittleEndian(e.amount, 8) + LittleEndian(e.index, 4)
  }

  /** What is where in a leaf's bytes. */
  lemma PreimageLayout(e: Entry)
    requires Encodable(e)
    ensures var p, text := LeafPreimage(e), "funded-reward-leaf-v1";
      && (forall i :: 0 <= i < 21 ==> p[i] == text[i] as int)
      && p[21..53] == e.cycleId && p[53..85] == e.recipient && p[85..117] == e.asset
      && Value(p[117..125]) == e.amount && Value(p[125..129]) == e.index
  {
    Pow256Widths();
    ReadsBack(e.amount, 8);
    ReadsBack(e.index, 4);
    FieldsLaidOut(LEAF_DOMAIN, e.cycleId, e.recipient, e.asset, LittleEndian(e.amount, 8), LittleEndian(e.index, 4),
                  LeafPreimage(e));
    forall i | 0 <= i < 21 ensures LeafPreimage(e)[i] == "funded-reward-leaf-v1"[i] as int {
      assert LeafPreimage(e)[i] == LeafPreimage(e)[..21][i];
    }
  }

  lemma FieldsLaidOut(domain: seq<Byte>, cycle: seq<Byte>, recipient: seq<Byte>, asset: seq<Byte>, amount: seq<Byte>,
                      index: seq<Byte>, p: seq<Byte>)
    requires |domain| == 21 && |cycle| == |recipient| == |asset| == 32 && |amount| == 8 && |index| == 4
    requires p == domain + cycle + recipient + asset + amount + index
    ensures |p| == 129 && p[..21] == domain && p[21..53] == cycle && p[53..85] == recipient && p[85..117] == asset
    ensures p[117..125] == amount && p[125..129] == index
  {
  }

  /** A leaf's bytes determine everything the leaf commits to. */
  lemma PreimageInjective(a: Entry, b: Entry)
    requires Encodable(a) && Encodable(b) && LeafPreimage(a) == LeafPreimage(b)
    ensures a == b
  {
    SplitTail(LEAF_DOMAIN + a.cycleId + a.recipient + a.asset + LittleEndian(a.amount, 8), LittleEndian(a.index, 4),
              LEAF_DOMAIN + b.cycleId + b.recipient + b.asset + LittleEndian(b.amount, 8), LittleEndian(b.index, 4));
    SplitTail(LEAF_DOMAIN + a.cycleId + a.recipient + a.asset, LittleEndian(a.amount, 8),
              LEAF_DOMAIN + b.cycleId + b.recipient + b.asset, LittleEndian(b.amount, 8));
    SplitTail(LEAF_DOMAIN + a.cycleId + a.recipient, a.asset, LEAF_DOMAIN + b.cycleId + b.recipient, b.asset);
    SplitTail(LEAF_DOMAIN + a.cycleId, a.recipient, LEAF_DOMAIN + b.cycleId, b.recipient);
    SplitTail(LEAF_DOMAIN, a.cycleId, LEAF_DOMAIN, b.cycleId);
    Pow256Widths();
    ReadsBack(a.amount, 8);
    ReadsBack(b.amount, 8);
    ReadsBack(a.index, 4);
    ReadsBack(b.index, 4);
  }

  datatype Leaf = Leaf(index: nat, recipient: Bytes32, amount: int, hash: Bytes32, proof: seq<Bytes32>)

  datatype Manifest = Manifest(cycleId: Bytes32, asset: Bytes32, root: Bytes32, total: int, leaves: seq<Leaf>)

  datatype Cycle = Cycle(cycleId: Bytes32, asset: Bytes32, allocations: seq<Allocation>)

  function EntryAt(c: Cycle, i: nat): Entry
    requires i < |c.allocations|
  {
    Entry(c.cycleId, c.asset, c.allocations[i].recipient, c.allocations[i].amount, i)
  }

  predicate GoodRow(c: Cycle, i: nat)
    requires i < |c.allocations|
  {
    && 0 < c.allocations[i].amount && Encodable(EntryAt(c, i))
    && forall j :: 0 <= j < i ==> c.allocations[j].recipient != c.allocations[i].recipient
  }

  predicate Valid(c: Cycle) {
    c.allocations != [] && forall i :: 0 <= i < |c.allocations| ==> GoodRow(c, i)
  }

  function LeafPreimages(c: Cycle): (leaves: seq<seq<Byte>>)
    requires Valid(c)
    ensures |leaves| == |c.allocations| && forall i :: 0 <= i < |leaves| ==> |leaves[i]| == 129
  {
    seq(|c.allocations|, i requires 0 <= i < |c.allocations| && GoodRow(c, i) => LeafPreimage(EntryAt(c, i)))
  }

  function Amounts(c: Cycle): (s: seq<int>)
    ensures |s| == |c.allocations|
  {
    seq(|c.allocations|, i requires 0 <= i < |c.allocations| => c.allocations[i].amount)
  }

  function LeafAt(c: Cycle, hashes: seq<Bytes32>, levels: seq<seq<Bytes32>>, i: nat): Leaf
    requires i < |c.allocations| == |hashes|
  {
    Leaf(i, c.allocations[i].recipient, c.allocations[i].amount, hashes[i], Proof(levels, i))
  }

  /** The manifest, leaf by leaf. */
  ghost predicate IsManifest(h: Hash, c: Cycle, m: Manifest)
    requires Valid(c)
  {
    var hashes := LeafHashes(h, LeafPreimages(c));
    && m.cycleId == c.cycleId && m.asset == c.asset
    && m.root == Root(h, hashes) && m.total == Sum(Amounts(c)) && |m.leaves| == |c.allocations|
    && forall i :: 0 <= i < |m.leaves| ==> m.leaves[i] == LeafAt(c, hashes, Levels(h, hashes), i)
  }

  method HashLeaves(h: Hash, c: Cycle) returns (r: Result<seq<Bytes32>, Error>)
    requires c.allocations != []
    ensures r.Ok? <==> Valid(c)
    ensures r.Ok? ==> r.value == LeafHashes(h, LeafPreimages(c))
  {
    var seen: set<Bytes32> := {};
    var hashes: seq<Bytes32> := [];
    for i := 0 to |c.allocations|
      invariant seen == set j | 0 <= j < i :: c.allocations[j].recipient
      invariant |hashes| == i
      invariant forall j :: 0 <= j < i ==> GoodRow(c, j) && hashes[j] == h(LeafPreimage(EntryAt(c, j)))
    {
      var row := c.allocations[i];
      if row.recipient in seen {
        assert !GoodRow(c, i);
        return Err(DuplicateRecipient);
      }
      if row.amount <= 0 {
        assert !GoodRow(c, i);
        return Err(BadAmount);
      }
      if !Encodable(EntryAt(c, i)) {
        assert !GoodRow(c, i);
        return Err(OutOfRange);
      }
      seen := seen + {row.recipient};
      hashes := hashes + [h(LeafPreimage(EntryAt(c, i)))];
    }
    r := Ok(hashes);
  }

  method BuildLeaves(c: Cycle, hashes: seq<Bytes32>, levels: seq<seq<Bytes32>>)
    returns (leaves: seq<Leaf>, total: int)
    requires |hashes| == |c.allocations| && levels != []
    ensures |leaves| == |hashes| && forall i :: 0 <= i < |leaves| ==> leaves[i] == LeafAt(c, hashes, levels, i)
    ensures total == Sum(Amounts(c))
  {
    leaves, total := [], 0;
    for i := 0 to |hashes|
      invariant |leaves| == i && total == Sum(Amounts(c)[..i])
      invariant forall j :: 0 <= j < i ==> leaves[j] == LeafAt(c, hashes, levels, j)
    {
      var proof := BuildProof(levels, i);
      leaves := leaves + [Leaf(i, c.allocations[i].recipient, c.allocations[i].amount, hashes[i], proof)];
      SumTake(Amounts(c), i);
      total := total + c.allocations[i].amount;
    }
    assert Amounts(c)[..|hashes|] == Amounts(c);
  }

  method BuildRewardManifest(h: Hash, c: Cycle) returns (r: Result<Manifest, Error>)
    ensures r.Ok? <==> Valid(c)
    ensures r.Ok? ==> IsManifest(h, c, r.value)
  {
    if c.allocations == [] {
      return Err(NoAllocations);
    }
    var hashed := HashLeaves(h, c);
    if hashed.Err? {
      return Err(hashed.error);
    }
    var hashes := hashed.value;
    var levels := BuildLevels(h, hashes);
    var leaves, total := BuildLeaves(c, hashes, levels);
    RootIsLastLevel(h, hashes);
    r := Ok(Manifest(c.cycleId, c.asset, levels[|levels| - 1][0], total, leaves));
  }

  /** Exactly which lists of allocations get a manifest. */
  lemma AcceptedAllocations(c: Cycle)
    ensures Valid(c) <==>
      && 1 <= |c.allocations| <= U32_LIMIT
      && (forall i :: 0 <= i < |c.allocations| ==> 0 < c.allocations[i].amount < U64_LIMIT)
      && (forall i, j :: 0 <= i < j < |c.allocations| ==> c.allocations[i].recipient != c.allocations[j].recipient)
  {
    if Valid(c) {
      assert GoodRow(c, |c.allocations| - 1);
      forall i | 0 <= i < |c.allocations| ensures 0 < c.allocations[i].amount < U64_LIMIT {
        assert GoodRow(c, i);
      }
      forall i, j | 0 <= i < j < |c.allocations| ensures c.allocations[i].recipient != c.allocations[j].recipient {
        assert GoodRow(c, j);
      }
    }
  }

  /** The manifest lists the allocations in order, and their total. */
  lemma ManifestLists(h: Hash, c: Cycle, m: Manifest)
    requires Valid(c) && IsManifest(h, c, m)
    ensures m.cycleId == c.cycleId && m.asset == c.asset && |m.leaves| == |c.allocations|
    ensures forall i :: 0 <= i < |m.leaves| ==>
      && m.leaves[i].index == i && m.leaves[i].recipient == c.allocations[i].recipient
      && m.leaves[i].amount == c.allocations[i].amount
    ensures m.total == Sum(seq(|c.allocations|, i requires 0 <= i < |c.allocations| => c.allocations[i].amount))
  {
    assert Amounts(c) == seq(|c.allocations|, i requires 0 <= i < |c.allocations| => c.allocations[i].amount);
  }

  // ----- verification

  predicate AllDigests(proof: seq<seq<Byte>>) {
    forall k :: 0 <= k < |proof| ==> |proof[k]| == 32
  }

  function Verify(h: Hash, e: Entry, proof: seq<seq<Byte>>, root: seq<Byte>): Result<bool, Error> {
    if !Encodable(e) then Err(OutOfRange)
    else if !AllDigests(proof) || |root| != 32 then Err(BadProof)
    else Ok(Fold(h, h(LeafPreimage(e)), proof) == root)
  }

  method VerifyRewardProof(h: Hash, e: Entry, proof: seq<seq<Byte>>, root: seq<Byte>)
    returns (r: Result<bool, Error>)
    ensures r == Verify(h, e, proof, root)
  {
    if !Encodable(e) {
      return Err(OutOfRange);
    }
    if !AllDigests(proof) || |root| != 32 {
      return Err(BadProof);
    }
    var node := FoldProof(h, h(LeafPreimage(e)), proof);
    r := Ok(node == root);
  }

  /**
   A claim of any cycle, asset, recipient, amount, index and proof verifies against a
   manifest's root exactly when it is that manifest's leaf at that index, with the proof
   emitted for it, provided nothing hashed on the way collides.
   */
  lemma VerifiesExactlyItsLeaves(h: Hash, c: Cycle, m: Manifest, e: Entry, proof: seq<seq<Byte>>)
    requires Valid(c) && IsManifest(h, c, m)
    requires Encodable(e) && AllDigests(proof) ==>
               CollisionFree(h, AllPreimages(h, LeafPreimages(c), LeafPreimage(e), proof))
    ensures Verify(h, e, proof, m.root) == Ok(true) <==>
      && e.cycleId == m.cycleId && e.asset == m.asset && 0 <= e.index < |m.leaves|
      && e.recipient == m.leaves[e.index].recipient && e.amount == m.leaves[e.index].amount
      && proof == m.leaves[e.index].proof
  {
    if 0 <= e.index < |m.leaves| {
      assert GoodRow(c, e.index);
    }
    if Encodable(e) && AllDigests(proof) {
      var leaves, leaf := LeafPreimages(c), LeafPreimage(e);
      AcceptsExactlyEmittedProofs(h, leaves, leaf, proof);
      forall j | 0 <= j < |leaves| && leaves[j] == leaf ensures e == EntryAt(c, j) {
        assert GoodRow(c, j);
        PreimageInjective(e, EntryAt(c, j));
      }
    }
  }

  /**
   What verifying answers: an error for an amount of more than eight bytes or an index of more
   than four, then for a node or a root that is not 32 bytes long, and otherwise whether
   the fold of the leaf's own hash is the root.
   */
  lemma {:induction false} VerifyOutcome(h: Hash, e: Entry, proof: seq<seq<Byte>>, root: seq<Byte>)
    ensures Verify(h, e, proof, root) == Err(OutOfRange) <==>
      e.amount < 0 || e.amount > 0xffff_ffff_ffff_ffff || e.index < 0 || e.index > 0xffff_ffff
    ensures Verify(h, e, proof, root) == Err(BadProof) <==>
      && 0 <= e.amount <= 0xffff_ffff_ffff_ffff && 0 <= e.index <= 0xffff_ffff
      && (|root| != 32 || exists i :: 0 <= i < |proof| && |proof[i]| != 32)
    ensures Verify(h, e, proof, root).Ok? ==>
      && Encodable(e) && AllDigests(proof)
      && Verify(h, e, proof, root).value == (Fold(h, h(LeafPreimage(e)), proof) == root)
  {
  }
}
