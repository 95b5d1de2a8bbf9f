/** Byte strings and the little-endian integers inside them. */
module Bytes {
  import opened Arith

  type Byte = b: int | 0 <= b < 256

  /** A 32-byte value: an address, an identifier or a digest. */
  type Bytes32 = s: seq<Byte> | |s| == 32 witness seq(32, _ => 0)

  function Pow256(n: nat): (p: nat)
    ensures 0 < p
  {
    if n == 0 then 1 else 256 * Pow256(n - 1)
  }

  /** The value of a little-endian byte string. */
  function Value(data: seq<Byte>): (v: nat)
  {
    if data == [] then 0 else data[0] + 256 * Value(data[1..])
  }

  /** The `width` low bytes of `v`, least significant first. */
  function LittleEndian(v: nat, width: nat): (data: seq<Byte>)
    ensures |data| == width
  {
    if width == 0 then [] else [v % 256] + LittleEndian(v / 256, width - 1)
  }

  lemma {:induction false} ValueBelow(data: seq<Byte>)
    ensures Value(data) < Pow256(|data|)
  {
    if data != [] {
      ValueBelow(data[1..]);
    }
  }

  /** Reading what was written returns it, for every value that fits. */
  lemma {:induction false} ReadsBack(v: nat, width: nat)
    requires v < Pow256(width)
    ensures Value(LittleEndian(v, width)) == v
  {
    if width != 0 {
      ReadsBack(v / 256, width - 1);
    }
  }

  /** Byte `k` of a little-endian number counts multiples of 256^k. */
  lemma {:induction false} ByteAt(v: nat, width: nat, k: nat)
    requires k < width
    ensures LittleEndian(v, width)[k] == v / Pow256(k) % 256
  {
    if k != 0 {
      ByteAt(v / 256, width - 1, k - 1);
      DivTwice(v, 256, Pow256(k - 1));
    }
  }

  lemma DivTwice(v: nat, a: nat, b: nat)
    requires 0 < a && 0 < b
    ensures 0 < a * b && v / a / b == v / (a * b)
  {
    var q := v / a / b;
    assert v / a == q * b + v / a % b;
    assert v == v / a * a + v % a;
    Spread(q, b, v / a % b, a);
    MulMono(v / a % b + 1, b, a);
    DivIs(v, a * b, q);
  }

  lemma Spread(q: int, b: int, r: int, a: int)
    ensures (q * b + r) * a == q * (a * b) + r * a
    ensures (r + 1) * a == r * a + a
  {
  }

  lemma Pow256Widths()
    ensures Pow256(4) == U32_LIMIT
    ensures Pow256(8) == U64_LIMIT
  {
    assert Pow256(2) == 0x1_0000;
    assert Pow256(4) == 0x1_0000_0000;
    assert Pow256(6) == 0x1_0000_0000_0000;
  }

  function U32At(data: seq<Byte>, offset: nat): (v: nat)
    requires offset + 4 <= |data|
    ensures v < U32_LIMIT
  {
    ValueBelow(data[offset..offset + 4]);
    Pow256Widths();
    Value(data[offset..offset + 4])
  }

  function U64At(data: seq<Byte>, offset: nat): (v: nat)
    requires offset + 8 <= |data|
    ensures v < U64_LIMIT
  {
    ValueBelow(data[offset..offset + 8]);
    Pow256Widths();
    Value(data[offset..offset + 8])
  }

  /** Two's complement. */
  function I64At(data: seq<Byte>, offset: nat): int
    requires offset + 8 <= |data|
  {
    var v := U64At(data, offset);
    if v < U64_LIMIT / 2 then v else v - U64_LIMIT
  }

  /** Equal concatenations with equally long tails have equal heads and tails. */
  lemma SplitTail(a: seq<Byte>, x: seq<Byte>, b: seq<Byte>, y: seq<Byte>)
    requires a + x == b + y && |x| == |y|
    ensures a == b && x == y
  {
    assert a == (a + x)[..|a|] && b == (b + y)[..|b|];
    assert x == (a + x)[|a|..] && y == (b + y)[|b|..];
  }
}
