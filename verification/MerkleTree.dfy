/**
 The tree both manifests build: sorted-pair hashing, an odd last node promoted, one
 sibling per level in a proof. The hash is a parameter; results that need it ask only that
 it does not collide on the byte strings that building and verifying actually hash.
 */
module MerkleTree {
  import opened Bytes

  type Hash = seq<Byte> -> Bytes32

  // ----- sorted pairs

  /** Byte-wise lexicographic comparison: is `a` not after `b`? */
  predicate NotAfter(a: seq<Byte>, b: seq<Byte>) {
    a == [] || (b != [] && (a[0] < b[0] || (a[0] == b[0] && NotAfter(a[1..], b[1..]))))
  }

  function PairPreimage(a: Bytes32, b: Bytes32): (p: seq<Byte>)
    ensures |p| == 64
  {
    if NotAfter(a, b) then a + b else b + a
  }

  function PairHash(h: Hash, a: Bytes32, b: Bytes32): Bytes32 {
    h(PairPreimage(a, b))
  }

  lemma {:induction false} ComparisonIsTotalOrder(a: seq<Byte>, b: seq<Byte>)
    ensures NotAfter(a, b) || NotAfter(b, a)
    ensures NotAfter(a, b) && NotAfter(b, a) ==> a == b
  {
    if a != [] && b != [] && a[0] == b[0] {
      ComparisonIsTotalOrder(a[1..], b[1..]);
      assert a == [a[0]] + a[1..] && b == [b[0]] + b[1..];
    }
  }

  /** A pair's preimage does not depend on the order of its members, and determines them. */
  lemma PairPreimageUnordered(a: Bytes32, b: Bytes32, c: Bytes32, d: Bytes32)
    ensures PairPreimage(a, b) == PairPreimage(c, d) <==> (a == c && b == d) || (a == d && b == c)
  {
    ComparisonIsTotalOrder(a, b);
    ComparisonIsTotalOrder(c, d);
    var p, q := PairPreimage(a, b), PairPreimage(c, d);
    assert p[..32] == (if NotAfter(a, b) then a else b) && p[32..] == (if NotAfter(a, b) then b else a);
    assert q[..32] == (if NotAfter(c, d) then c else d) && q[32..] == (if NotAfter(c, d) then d else c);
  }

  lemma {:induction false} FirstDifferenceDecides(a: seq<Byte>, b: seq<Byte>, k: nat)
    requires k < |a| && k < |b| && a[..k] == b[..k] && a[k] < b[k]
    ensures NotAfter(a, b) && !NotAfter(b, a)
  {
    if k != 0 {
      assert a[..k][0] == b[..k][0] && a[..k][1..] == a[1..][..k - 1] && b[..k][1..] == b[1..][..k - 1];
      FirstDifferenceDecides(a[1..], b[1..], k - 1);
    }
  }

  /** The hash that is smaller at the first byte where the two differ comes first. */
  lemma SmallerFirst(a: Bytes32, b: Bytes32, k: nat)
    requires k < 32 && a[..k] == b[..k] && a[k] < b[k]
    ensures PairPreimage(a, b) == a + b && PairPreimage(b, a) == a + b
  {
    FirstDifferenceDecides(a, b, k);
  }

  // ----- levels and proofs

  function NextAt(h: Hash, level: seq<Bytes32>, j: nat): Bytes32
    requires 2 * j < |level|
  {
    if 2 * j + 1 < |level| then PairHash(h, level[2 * j], level[2 * j + 1]) else level[2 * j]
  }

  function Next(h: Hash, level: seq<Bytes32>): (next: seq<Bytes32>)
    ensures |next| == (|level| + 1) / 2
  {
    seq((|level| + 1) / 2, j requires 0 <= j < (|level| + 1) / 2 => NextAt(h, level, j))
  }

  function Levels(h: Hash, level: seq<Bytes32>): (levels: seq<seq<Bytes32>>)
    requires level != []
    ensures |levels| >= 1 && levels[0] == level && |levels[|levels| - 1]| == 1
    decreases |level|
  {
    if |level| == 1 then [level] else [level] + Levels(h, Next(h, level))
  }

  function Root(h: Hash, level: seq<Bytes32>): Bytes32
    requires level != []
    decreases |level|
  {
    if |level| == 1 then level[0] else Root(h, Next(h, level))
  }

  function Sibling(position: nat): nat {
    if position % 2 == 0 then position + 1 else position - 1
  }

  lemma {:induction false} RootIsLastLevel(h: Hash, level: seq<Bytes32>)
    requires level != []
    ensures var levels := Levels(h, level); levels[|levels| - 1][0] == Root(h, level)
    decreases |level|
  {
    if |level| > 1 {
      RootIsLastLevel(h, Next(h, level));
    }
  }

  /** Small trees in full: one leaf, two leaves in either order, and three with the last promoted. */
  lemma {:induction false} SmallTrees(h: Hash, a: Bytes32, b: Bytes32, c: Bytes32, k: nat)
    requires k < 32 && a[..k] == b[..k] && a[k] < b[k]
    ensures Root(h, [a]) == a
    ensures Root(h, [a, b]) == h(a + b) && Root(h, [b, a]) == h(a + b)
    ensures Root(h, [a, b, c]) == PairHash(h, h(a + b), c)
  {
    SmallerFirst(a, b, k);
    assert Next(h, [a, b]) == [h(a + b)] && Next(h, [b, a]) == [h(a + b)];
    assert Next(h, [a, b, c]) == [h(a + b), c];
    assert Next(h, [h(a + b), c]) == [PairHash(h, h(a + b), c)];
    assert Root(h, [a, b]) == Root(h, [h(a + b)]) && Root(h, [b, a]) == Root(h, [h(a + b)]);
    assert Root(h, [a, b, c]) == Root(h, [h(a + b), c]) == Root(h, [PairHash(h, h(a + b), c)]);
  }

  /** The proof of the node at `position` of the lowest of `levels`. */
  function Proof(levels: seq<seq<Bytes32>>, position: nat): seq<Bytes32> {
    if |levels| <= 1 then []
    else (if Sibling(position) < |levels[0]| then [levels[0][Sibling(position)]] else [])
         + Proof(levels[1..], position / 2)
  }

  /** What verification computes from a node and a proof. */
  function Fold(h: Hash, node: Bytes32, proof: seq<Bytes32>): Bytes32
    decreases |proof|
  {
    if proof == [] then node else Fold(h, PairHash(h, node, proof[0]), proof[1..])
  }

  method BuildNext(h: Hash, current: seq<Bytes32>) returns (next: seq<Bytes32>)
    ensures next == Next(h, current)
  {
    next := [];
    var index := 0;
    while index < |current|
      invariant index == 2 * |next| && |next| <= (|current| + 1) / 2
      invariant forall j :: 0 <= j < |next| ==> next[j] == NextAt(h, current, j)
    {
      var node := if index + 1 < |current| then PairHash(h, current[index], current[index + 1])
                  else current[index];
      next := next + [node];
      index := index + 2;
    }
  }

  lemma {:induction false} LevelsStep(h: Hash, done: seq<seq<Bytes32>>, current: seq<Bytes32>, next: seq<Bytes32>)
    requires 1 < |current| && next == Next(h, current)
    ensures done + Levels(h, current) == (done + [current]) + Levels(h, next)
  {
  }

  method BuildLevels(h: Hash, leaves: seq<Bytes32>) returns (levels: seq<seq<Bytes32>>)
    requires leaves != []
    ensures levels == Levels(h, leaves)
  {
    levels := [];
    var current := leaves;
    while |current| > 1
      invariant current != []
      invariant Levels(h, leaves) == levels + Levels(h, current)
      decreases |current|
    {
      var next := BuildNext(h, current);
      LevelsStep(h, levels, current, next);
      levels := levels + [current];
      current := next;
    }
    levels := levels + [current];
  }

  method BuildProof(levels: seq<seq<Bytes32>>, index: nat) returns (proof: seq<Bytes32>)
    requires levels != []
    ensures proof == Proof(levels, index)
  {
    proof := [];
    var position := index;
    for depth := 0 to |levels| - 1
      invariant Proof(levels, index) == proof + Proof(levels[depth..], position)
    {
      var sibling := if position % 2 == 0 then position + 1 else position - 1;
      assert levels[depth..][0] == levels[depth] && levels[depth..][1..] == levels[depth + 1..];
      if sibling < |levels[depth]| {
        proof := proof + [levels[depth][sibling]];
      }
      position := position / 2;
    }
  }

  method FoldProof(h: Hash, leaf: Bytes32, proof: seq<Bytes32>) returns (node: Bytes32)
    ensures node == Fold(h, leaf, proof)
  {
    node := leaf;
    for k := 0 to |proof|
      invariant Fold(h, leaf, proof) == Fold(h, node, proof[k..])
    {
      assert proof[k..][0] == proof[k] && proof[k..][1..] == proof[k + 1..];
      node := PairHash(h, node, proof[k]);
    }
  }

  // ----- completeness

  /** One level of a proof, and what its sibling makes of the node. */
  lemma {:induction false} ProofStep(h: Hash, level: seq<Bytes32>, position: nat)
    requires 1 < |level| && position < |level|
    ensures position / 2 < |Next(h, level)|
    ensures var sibling, up := Sibling(position), Proof(Levels(h, Next(h, level)), position / 2);
      if sibling < |level| then
        && Next(h, level)[position / 2] == PairHash(h, level[position], level[sibling])
        && Proof(Levels(h, level), position) == [level[sibling]] + up
      else
        && Next(h, level)[position / 2] == level[position]
        && Proof(Levels(h, level), position) == up
  {
    ProofHead(h, level, position);
    ParentOf(h, level, position);
  }

  lemma ParentOf(h: Hash, level: seq<Bytes32>, position: nat)
    requires position < |level|
    ensures position / 2 < |Next(h, level)|
    ensures Next(h, level)[position / 2]
         == if Sibling(position) < |level| then PairHash(h, level[position], level[Sibling(position)]) else level[position]
  {
    var up := position / 2;
    assert Next(h, level)[up] == NextAt(h, level, up);
    if position % 2 == 1 {
      assert position == 2 * up + 1;
      PairHashSwaps(h, level[position - 1], level[position]);
    }
  }

  lemma PairHashSwaps(h: Hash, a: Bytes32, b: Bytes32)
    ensures PairHash(h, a, b) == PairHash(h, b, a)
  {
    PairPreimageUnordered(a, b, b, a);
  }

  lemma {:induction false} ProofHead(h: Hash, level: seq<Bytes32>, position: nat)
    requires 1 < |level| && position < |level|
    ensures var sibling, up := Sibling(position), Proof(Levels(h, Next(h, level)), position / 2);
      Proof(Levels(h, level), position) == (if sibling < |level| then [level[sibling]] else []) + up
  {
    assert Levels(h, level)[1..] == Levels(h, Next(h, level));
  }

  /** Every leaf's emitted proof folds to the root, whatever the hash. */
  lemma {:induction false} ProofsVerify(h: Hash, level: seq<Bytes32>, position: nat)
    requires position < |level|
    ensures Fold(h, level[position], Proof(Levels(h, level), position)) == Root(h, level)
    decreases |level|
  {
    if |level| > 1 {
      ProofStep(h, level, position);
      ProofsVerify(h, Next(h, level), position / 2);
    }
  }

  function Pow2(n: nat): nat {
    if n == 0 then 1 else 2 * Pow2(n - 1)
  }

  /** No proof is longer than the binary logarithm of the number of leaves, rounded up. */
  lemma {:induction false} ProofIsShort(h: Hash, level: seq<Bytes32>, position: nat, d: nat)
    requires position < |level| <= Pow2(d)
    ensures |Proof(Levels(h, level), position)| <= d
    decreases d
  {
    if |level| > 1 {
      assert Pow2(0) == 1;
      assert |Next(h, level)| <= Pow2(d - 1);
      ProofIsShort(h, Next(h, level), position / 2, d - 1);
      var up := Proof(Levels(h, Next(h, level)), position / 2);
      assert |Proof(Levels(h, level), position)| <= 1 + |up| by { ProofStep(h, level, position); }
    }
  }

  // ----- soundness

  /** Everything hashed above a level while building. */
  function TreePreimages(h: Hash, level: seq<Bytes32>): set<seq<Byte>>
    decreases |level|
  {
    if |level| <= 1 then {}
    else (set j | 0 <= j < |level| / 2 :: PairPreimage(level[2 * j], level[2 * j + 1]))
         + TreePreimages(h, Next(h, level))
  }

  /** Everything hashed while folding a proof. */
  function ChainPreimages(h: Hash, node: Bytes32, proof: seq<Bytes32>): set<seq<Byte>>
    decreases |proof|
  {
    if proof == [] then {}
    else {PairPreimage(node, proof[0])} + ChainPreimages(h, PairHash(h, node, proof[0]), proof[1..])
  }

  ghost predicate CollisionFree(h: Hash, preimages: set<seq<Byte>>) {
    forall x, y :: x in preimages && y in preimages && h(x) == h(y) ==> x == y
  }

  lemma {:induction false} FoldStep(h: Hash, node: Bytes32, proof: seq<Bytes32>, k: nat)
    requires k < |proof|
    ensures Fold(h, node, proof[..k + 1]) == PairHash(h, Fold(h, node, proof[..k]), proof[k])
    ensures PairPreimage(Fold(h, node, proof[..k]), proof[k]) in ChainPreimages(h, node, proof)
    decreases k
  {
    if k == 0 {
      assert proof[..1] == [proof[0]] && proof[..0] == [];
    } else {
      var up, rest := PairHash(h, node, proof[0]), proof[1..];
      FoldStep(h, up, rest, k - 1);
      assert proof[..k + 1][1..] == rest[..k] && proof[..k][1..] == rest[..k - 1];
    }
  }

  /** A hashed leaf equals a hashed pair nowhere, because their preimages differ in length. */
  lemma LeafIsNoPair(h: Hash, preimages: set<seq<Byte>>, leaf: seq<Byte>, a: Bytes32, b: Bytes32)
    requires CollisionFree(h, preimages) && leaf in preimages && PairPreimage(a, b) in preimages
    requires |leaf| != 64
    ensures h(leaf) != PairHash(h, a, b)
  {
  }

  /**
   Any chain that starts from a hashed leaf and reaches the root passes through the given
   level, and from there on its proof is the emitted one.
   */
  lemma {:induction false} ChainMeetsLevel(h: Hash, preimages: set<seq<Byte>>, leaf: seq<Byte>,
                                           proof: seq<Bytes32>, level: seq<Bytes32>) returns (k: nat, j: nat)
    requires level != [] && CollisionFree(h, preimages) && |leaf| != 64 && leaf in preimages
    requires ChainPreimages(h, h(leaf), proof) <= preimages && TreePreimages(h, level) <= preimages
    requires Fold(h, h(leaf), proof) == Root(h, level)
    ensures k <= |proof| && j < |level|
    ensures Fold(h, h(leaf), proof[..k]) == level[j]
    ensures proof[k..] == Proof(Levels(h, level), j)
    decreases |level|
  {
    if |level| == 1 {
      k, j := |proof|, 0;
      assert proof[..k] == proof;
    } else {
      var k1, j1 := ChainMeetsLevel(h, preimages, leaf, proof, Next(h, level));
      assert Next(h, level)[j1] == NextAt(h, level, j1);
      k, j := LevelBelow(h, preimages, leaf, proof, level, k1, j1);
    }
  }

  /** From a node of the next level down to a node of this one. */
  lemma LevelBelow(h: Hash, preimages: set<seq<Byte>>, leaf: seq<Byte>, proof: seq<Bytes32>,
                   level: seq<Bytes32>, k1: nat, j1: nat) returns (k: nat, j: nat)
    requires 1 < |level| && CollisionFree(h, preimages) && |leaf| != 64 && leaf in preimages
    requires ChainPreimages(h, h(leaf), proof) <= preimages && TreePreimages(h, level) <= preimages
    requires k1 <= |proof| && j1 < |Next(h, level)|
    requires Fold(h, h(leaf), proof[..k1]) == NextAt(h, level, j1)
    requires proof[k1..] == Proof(Levels(h, Next(h, level)), j1)
    ensures k <= |proof| && j < |level|
    ensures Fold(h, h(leaf), proof[..k]) == level[j]
    ensures proof[k..] == Proof(Levels(h, level), j)
  {
    if 2 * j1 + 1 < |level| {
      k := PairBelow(h, preimages, leaf, proof, level, k1, j1);
      j := if Fold(h, h(leaf), proof[..k]) == level[2 * j1] && proof[k] == level[2 * j1 + 1]
           then 2 * j1 else 2 * j1 + 1;
      PairProof(h, level, j1, j);
      SplitAt(proof, k);
    } else {
      k, j := k1, 2 * j1;
      LoneProof(h, level, j1);
    }
  }

  lemma PairBelow(h: Hash, preimages: set<seq<Byte>>, leaf: seq<Byte>, proof: seq<Bytes32>,
                  level: seq<Bytes32>, k1: nat, j1: nat) returns (k: nat)
    requires CollisionFree(h, preimages) && |leaf| != 64 && leaf in preimages && 2 * j1 + 1 < |level|
    requires ChainPreimages(h, h(leaf), proof) <= preimages && TreePreimages(h, level) <= preimages
    requires k1 <= |proof| && Fold(h, h(leaf), proof[..k1]) == NextAt(h, level, j1)
    ensures k + 1 == k1
    ensures var node := Fold(h, h(leaf), proof[..k]);
      (node == level[2 * j1] && proof[k] == level[2 * j1 + 1]) || (node == level[2 * j1 + 1] && proof[k] == level[2 * j1])
  {
    assert PairPreimage(level[2 * j1], level[2 * j1 + 1]) in TreePreimages(h, level);
    k := StepDown(h, preimages, leaf, proof, k1, level[2 * j1], level[2 * j1 + 1]);
  }

  lemma SplitAt(s: seq<Bytes32>, k: nat)
    requires k < |s|
    ensures s[k..] == [s[k]] + s[k + 1..]
  {
  }

  /** The proof of an unpaired node is its proof one level up. */
  lemma {:induction false} LoneProof(h: Hash, level: seq<Bytes32>, j1: nat)
    requires 1 < |level| && 2 * j1 + 1 == |level|
    ensures Proof(Levels(h, level), 2 * j1) == Proof(Levels(h, Next(h, level)), j1)
  {
    assert 2 * j1 / 2 == j1;
    ProofStep(h, level, 2 * j1);
  }

  /** The proof of either member of a pair is the other member and then the pair's proof. */
  lemma {:induction false} PairProof(h: Hash, level: seq<Bytes32>, j1: nat, j: nat)
    requires 2 * j1 + 1 < |level| && (j == 2 * j1 || j == 2 * j1 + 1)
    ensures Proof(Levels(h, level), j)
         == [level[if j == 2 * j1 then 2 * j1 + 1 else 2 * j1]] + Proof(Levels(h, Next(h, level)), j1)
  {
    assert j / 2 == j1;
    assert Sibling(j) == if j == 2 * j1 then 2 * j1 + 1 else 2 * j1;
    ProofStep(h, level, j);
  }

  /** A chain node that equals a hashed pair was itself hashed from that pair. */
  lemma StepDown(h: Hash, preimages: set<seq<Byte>>, leaf: seq<Byte>, proof: seq<Bytes32>, k1: nat,
                 a: Bytes32, b: Bytes32) returns (k: nat)
    requires CollisionFree(h, preimages) && |leaf| != 64 && leaf in preimages
    requires ChainPreimages(h, h(leaf), proof) <= preimages && PairPreimage(a, b) in preimages
    requires k1 <= |proof| && Fold(h, h(leaf), proof[..k1]) == PairHash(h, a, b)
    ensures k + 1 == k1
    ensures var node := Fold(h, h(leaf), proof[..k]);
      (node == a && proof[k] == b) || (node == b && proof[k] == a)
  {
    LeafIsNoPair(h, preimages, leaf, a, b);
    assert proof[..0] == [];
    k := k1 - 1;
    FoldStep(h, h(leaf), proof, k);
    PairPreimageUnordered(Fold(h, h(leaf), proof[..k]), proof[k], a, b);
  }

  /** After at least one step a chain is at no hashed leaf. */
  lemma {:induction false} ChainIsNoLeaf(h: Hash, preimages: set<seq<Byte>>, leaf: seq<Byte>, other: seq<Byte>,
                      proof: seq<Bytes32>, k: nat)
    requires CollisionFree(h, preimages) && other in preimages && |other| != 64
    requires ChainPreimages(h, h(leaf), proof) <= preimages && k <= |proof|
    ensures 0 < k ==> Fold(h, h(leaf), proof[..k]) != h(other)
  {
    if 0 < k {
      FoldStep(h, h(leaf), proof, k - 1);
      LeafIsNoPair(h, preimages, other, Fold(h, h(leaf), proof[..k - 1]), proof[k - 1]);
    }
  }

  function LeafHashes(h: Hash, leaves: seq<seq<Byte>>): (hashes: seq<Bytes32>)
    ensures |hashes| == |leaves|
  {
    seq(|leaves|, i requires 0 <= i < |leaves| => h(leaves[i]))
  }

  /** Everything hashed while building the tree over `leaves` and verifying `leaf` with `proof`. */
  function AllPreimages(h: Hash, leaves: seq<seq<Byte>>, leaf: seq<Byte>, proof: seq<Bytes32>): set<seq<Byte>> {
    (set i | 0 <= i < |leaves| :: leaves[i]) + TreePreimages(h, LeafHashes(h, leaves))
    + {leaf} + ChainPreimages(h, h(leaf), proof)
  }

  /**
   Soundness and completeness in one: if nothing that was hashed collides, a leaf and a
   proof of any length and content reach the root exactly when the leaf is in the tree and
   the proof is the one emitted for it.
   */
  lemma {:induction false} AcceptsExactlyEmittedProofs(h: Hash, leaves: seq<seq<Byte>>, leaf: seq<Byte>, proof: seq<Bytes32>)
    requires leaves != [] && |leaf| != 64 && forall i :: 0 <= i < |leaves| ==> |leaves[i]| != 64
    requires CollisionFree(h, AllPreimages(h, leaves, leaf, proof))
    ensures Fold(h, h(leaf), proof) == Root(h, LeafHashes(h, leaves))
      <==> exists j :: 0 <= j < |leaves| && leaves[j] == leaf
                       && proof == Proof(Levels(h, LeafHashes(h, leaves)), j)
  {
    var hashes, preimages := LeafHashes(h, leaves), AllPreimages(h, leaves, leaf, proof);
    if Fold(h, h(leaf), proof) == Root(h, hashes) {
      var k, j := ChainMeetsLevel(h, preimages, leaf, proof, hashes);
      assert leaves[j] in preimages;
      ChainIsNoLeaf(h, preimages, leaf, leaves[j], proof, k);
      assert proof[..0] == [] && proof[0..] == proof;
      assert leaves[j] == leaf;
    }
    if exists j :: 0 <= j < |leaves| && leaves[j] == leaf && proof == Proof(Levels(h, hashes), j) {
      var j :| 0 <= j < |leaves| && leaves[j] == leaf && proof == Proof(Levels(h, hashes), j);
      ProofsVerify(h, hashes, j);
    }
  }
}
