/**
 Writing an agency policy account: the byte layout the decoder reads, as the inverse of
 `AgencyRouter.Read`, so that what is proved about policies is about account bytes.
 */
module PolicyBytes {
  import opened Wrappers
  import opened Arith
  import opened Bytes
  import opened AgencyRouter

  // ----- concatenated fields

  function Concat(fields: seq<seq<Byte>>): seq<Byte> {
    if fields == [] then [] else Concat(fields[..|fields| - 1]) + fields[|fields| - 1]
  }

  function Offset(fields: seq<seq<Byte>>, k: nat): nat
    requires k <= |fields|
  {
    if k == 0 then 0 else Offset(fields, k - 1) + |fields[k - 1]|
  }

  lemma {:induction false} ConcatLength(fields: seq<seq<Byte>>, k: nat)
    requires k <= |fields|
    ensures |Concat(fields[..k])| == Offset(fields, k)
  {
    if k != 0 {
      ConcatLength(fields, k - 1);
      assert fields[..k][..k - 1] == fields[..k - 1];
    }
  }

  lemma {:induction false} ConcatPrefix(fields: seq<seq<Byte>>, j: nat, k: nat)
    requires j <= k <= |fields|
    ensures Offset(fields, j) <= Offset(fields, k) == |Concat(fields[..k])|
    ensures Concat(fields[..k])[..Offset(fields, j)] == Concat(fields[..j])
    decreases k - j
  {
    ConcatLength(fields, j);
    ConcatLength(fields, k);
    if j < k {
      ConcatPrefix(fields, j, k - 1);
      assert fields[..k][..k - 1] == fields[..k - 1];
    } else {
      assert Concat(fields[..k])[..Offset(fields, k)] == Concat(fields[..k]);
    }
  }

  /** Each field is found at its offset. */
  lemma {:induction false} FieldAt(fields: seq<seq<Byte>>, k: nat)
    requires k < |fields|
    ensures Offset(fields, k) + |fields[k]| <= |Concat(fields)|
    ensures Concat(fields)[Offset(fields, k)..Offset(fields, k) + |fields[k]|] == fields[k]
  {
    var n := |fields|;
    assert fields[..n] == fields && fields[..k + 1][..k] == fields[..k];
    ConcatPrefix(fields, k, n);
    ConcatPrefix(fields, k + 1, n);
    var whole, before, upto := Concat(fields), Concat(fields[..k]), Concat(fields[..k + 1]);
    assert upto == before + fields[k];
    assert whole[Offset(fields, k)..Offset(fields, k + 1)] == upto[Offset(fields, k)..];
  }

  // ----- lists of integers

  function Integers32(s: seq<nat>): (data: seq<Byte>)
    ensures |data| == 4 * |s|
  {
    if s == [] then []
    else
      var n := |s| - 1;
      Integers32(s[..n]) + LittleEndian(s[n], 4)
  }

  function Integers64(s: seq<nat>): (data: seq<Byte>)
    ensures |data| == 8 * |s|
  {
    if s == [] then []
    else
      var n := |s| - 1;
      Integers64(s[..n]) + LittleEndian(s[n], 8)
  }

  predicate Below(s: seq<nat>, limit: nat) {
    forall i :: 0 <= i < |s| ==> s[i] < limit
  }

  lemma BelowSplits(s: seq<nat>, limit: nat, n: nat)
    requires Below(s, limit) && n < |s|
    ensures Below(s[..n], limit) && s[n] < limit
  {
  }

  lemma SplitSlice(data: seq<Byte>, a: nat, b: nat, c: nat, front: seq<Byte>, last: seq<Byte>)
    requires a + |front| == b && b + |last| == c <= |data| && data[a..c] == front + last
    ensures data[a..b] == front && data[b..c] == last
  {
    var part := data[a..c];
    assert part[..|front|] == front && part[|front|..] == last;
    assert data[a..b] == part[..|front|] && data[b..c] == part[|front|..];
  }

  /** A list read where it was written, one integer at a time. */
  lemma {:induction false} U32sWritten(data: seq<Byte>, offset: nat, s: seq<nat>, end: nat)
    requires end == offset + 4 * |s| <= |data| && data[offset..end] == Integers32(s)
    requires Below(s, U32_LIMIT)
    ensures U32s(data, offset, |s|) == s
  {
    if s != [] {
      var n := |s| - 1;
      LastOf32(data, offset, s, n, end - 4, end);
      BelowSplits(s, U32_LIMIT, n);
      U32sWritten(data, offset, s[..n], end - 4);
      U32Is(data, end - 4, s[n]);
      NextU32(data, offset, s, n, end - 4);
    }
  }

  lemma {:induction false} LastOf32(data: seq<Byte>, offset: nat, s: seq<nat>, n: nat, at: nat, end: nat)
    requires |s| == n + 1 && at == offset + 4 * n && end == at + 4 <= |data| && data[offset..end] == Integers32(s)
    ensures data[offset..at] == Integers32(s[..n]) && data[at..end] == LittleEndian(s[n], 4)
  {
    SplitSlice(data, offset, at, end, Integers32(s[..n]), LittleEndian(s[n], 4));
  }

  lemma {:induction false} NextU32(data: seq<Byte>, offset: nat, s: seq<nat>, n: nat, at: nat)
    requires |s| == n + 1 && at == offset + 4 * n && at + 4 <= |data|
    requires U32s(data, offset, n) == s[..n] && U32At(data, at) == s[n]
    ensures U32s(data, offset, n + 1) == s
  {
    assert s == s[..n] + [s[n]];
  }

  lemma {:induction false} U32Is(data: seq<Byte>, at: nat, v: nat)
    requires at + 4 <= |data| && data[at..at + 4] == LittleEndian(v, 4) && v < U32_LIMIT
    ensures U32At(data, at) == v
  {
    Pow256Widths();
    ReadsBack(v, 4);
  }

  lemma {:induction false} U64sWritten(data: seq<Byte>, offset: nat, s: seq<nat>, end: nat)
    requires end == offset + 8 * |s| <= |data| && data[offset..end] == Integers64(s)
    requires Below(s, U64_LIMIT)
    ensures U64s(data, offset, |s|) == s
  {
    if s != [] {
      var n := |s| - 1;
      LastOf64(data, offset, s, n, end - 8, end);
      BelowSplits(s, U64_LIMIT, n);
      U64sWritten(data, offset, s[..n], end - 8);
      U64Is(data, end - 8, s[n]);
      NextU64(data, offset, s, n, end - 8);
    }
  }

  lemma {:induction false} LastOf64(data: seq<Byte>, offset: nat, s: seq<nat>, n: nat, at: nat, end: nat)
    requires |s| == n + 1 && at == offset + 8 * n && end == at + 8 <= |data| && data[offset..end] == Integers64(s)
    ensures data[offset..at] == Integers64(s[..n]) && data[at..end] == LittleEndian(s[n], 8)
  {
    SplitSlice(data, offset, at, end, Integers64(s[..n]), LittleEndian(s[n], 8));
  }

  lemma {:induction false} NextU64(data: seq<Byte>, offset: nat, s: seq<nat>, n: nat, at: nat)
    requires |s| == n + 1 && at == offset + 8 * n && at + 8 <= |data|
    requires U64s(data, offset, n) == s[..n] && U64At(data, at) == s[n]
    ensures U64s(data, offset, n + 1) == s
  {
    assert s == s[..n] + [s[n]];
  }

  lemma {:induction false} U64Is(data: seq<Byte>, at: nat, v: nat)
    requires at + 8 <= |data| && data[at..at + 8] == LittleEndian(v, 8) && v < U64_LIMIT
    ensures U64At(data, at) == v
  {
    Pow256Widths();
    ReadsBack(v, 8);
  }

  // ----- the account

  datatype Identity = Identity(mint: Bytes32, creator: Bytes32, authority: Bytes32, bump: Byte)

  /** Every number fits its field. */
  predicate Encodable(p: Policy) {
    && Shape(p) && p.settled < U64_LIMIT && p.configRevision < U64_LIMIT && p.promotionSequence < U32_LIMIT
    && p.selectedMask < 256 && p.completedMask < 256
    && -(U64_LIMIT as int) / 2 <= p.lastPromotionAt < U64_LIMIT / 2
    && (forall i :: 0 <= i < 7 ==> p.protocolUnits[i] < U32_LIMIT)
    && (forall i :: 0 <= i < 8 ==> p.paid[i] < U64_LIMIT && p.withdrawn[i] < U64_LIMIT)
    && (forall i :: 0 <= i < 3 ==> p.directedUnits[i] < U32_LIMIT && p.directedReleased[i] < U64_LIMIT && p.agentSpent[i] < U64_LIMIT)
  }

  /** Two's complement in 64 bits. */
  function Unsigned64(v: int): (n: nat)
    requires -(U64_LIMIT as int) / 2 <= v < U64_LIMIT / 2
  {
    if v < 0 then v + U64_LIMIT else v
  }

  function Fields(p: Policy, id: Identity): (fields: seq<seq<Byte>>)
    requires Encodable(p)
    ensures |fields| == 18
  {
    [POLICY_DISCRIMINATOR, id.mint, id.creator, id.authority,
     Integers32(p.protocolUnits), LittleEndian(p.settled, 8), Integers64(p.paid), Integers64(p.withdrawn),
     Integers32(p.directedUnits), Integers64(p.directedReleased), [p.selectedMask], Integers64(p.agentSpent),
     [p.completedMask], LittleEndian(Unsigned64(p.lastPromotionAt), 8), LittleEndian(p.promotionSequence, 4),
     p.promotionRecipient, LittleEndian(p.configRevision, 8), [id.bump]]
  }

  function Written(p: Policy, id: Identity): seq<Byte>
    requires Encodable(p)
  {
    Concat(Fields(p, id))
  }

  lemma {:induction false} Offsets(f: seq<seq<Byte>>, p: Policy, id: Identity)
    requires Encodable(p) && f == Fields(p, id)
    ensures Offset(f, 0) == 0 && Offset(f, 1) == 8 && Offset(f, 2) == 40 && Offset(f, 3) == 72 && Offset(f, 4) == 104
    ensures Offset(f, 5) == 132 && Offset(f, 6) == 140 && Offset(f, 7) == 204 && Offset(f, 8) == 268 && Offset(f, 9) == 280
    ensures Offset(f, 10) == 304 && Offset(f, 11) == 305 && Offset(f, 12) == 329 && Offset(f, 13) == 330
    ensures Offset(f, 14) == 338 && Offset(f, 15) == 342 && Offset(f, 16) == 374 && Offset(f, 17) == 382
    ensures Offset(f, 18) == 383
  {
  }

  /** The bytes of a written policy, field by field. */
  predicate LaidOut(data: seq<Byte>, p: Policy, id: Identity)
    requires Encodable(p)
  {
    && |data| == 383
    && data[0..8] == POLICY_DISCRIMINATOR && data[8..40] == id.mint && data[40..72] == id.creator && data[72..104] == id.authority
    && data[104..132] == Integers32(p.protocolUnits) && data[132..140] == LittleEndian(p.settled, 8)
    && data[140..204] == Integers64(p.paid) && data[204..268] == Integers64(p.withdrawn)
    && data[268..280] == Integers32(p.directedUnits) && data[280..304] == Integers64(p.directedReleased)
    && data[304..305] == [p.selectedMask] && data[305..329] == Integers64(p.agentSpent)
    && data[329..330] == [p.completedMask] && data[330..338] == LittleEndian(Unsigned64(p.lastPromotionAt), 8)
    && data[338..342] == LittleEndian(p.promotionSequence, 4) && data[342..374] == p.promotionRecipient
    && data[374..382] == LittleEndian(p.configRevision, 8) && data[382..383] == [id.bump]
  }

  lemma WrittenIsLaidOut(p: Policy, id: Identity)
    requires Encodable(p)
    ensures LaidOut(Written(p, id), p, id)
  {
    var f := Fields(p, id);
    Offsets(f, p, id);
    ConcatLength(f, 18);
    assert f[..18] == f;
    forall k | 0 <= k < 18
      ensures Offset(f, k) + |f[k]| <= |Concat(f)| && Concat(f)[Offset(f, k)..Offset(f, k) + |f[k]|] == f[k]
    {
      FieldAt(f, k);
    }
  }

  lemma {:induction false} ListsWritten(data: seq<Byte>, p: Policy, id: Identity)
    requires Encodable(p) && LaidOut(data, p, id)
    ensures U32s(data, 104, 7) == p.protocolUnits && U64s(data, 140, 8) == p.paid && U64s(data, 204, 8) == p.withdrawn
    ensures U32s(data, 268, 3) == p.directedUnits && U64s(data, 280, 3) == p.directedReleased && U64s(data, 305, 3) == p.agentSpent
  {
    U32sWritten(data, 104, p.protocolUnits, 132);
    U64sWritten(data, 140, p.paid, 204);
    U64sWritten(data, 204, p.withdrawn, 268);
    U32sWritten(data, 268, p.directedUnits, 280);
    U64sWritten(data, 280, p.directedReleased, 304);
    U64sWritten(data, 305, p.agentSpent, 329);
  }

  lemma {:induction false} NumbersWritten(data: seq<Byte>, p: Policy, id: Identity)
    requires Encodable(p) && LaidOut(data, p, id)
    ensures U64At(data, 132) == p.settled && I64At(data, 330) == p.lastPromotionAt
    ensures U32At(data, 338) == p.promotionSequence && U64At(data, 374) == p.configRevision
    ensures data[304] == p.selectedMask && data[329] == p.completedMask
  {
    U64Is(data, 132, p.settled);
    U64Is(data, 330, Unsigned64(p.lastPromotionAt));
    U32Is(data, 338, p.promotionSequence);
    U64Is(data, 374, p.configRevision);
    assert data[304] == data[304..305][0] && data[329] == data[329..330][0];
  }

  /** Reading what was written gives the policy back. */
  lemma {:induction false} ReadsWritten(data: seq<Byte>, p: Policy, id: Identity)
    requires Encodable(p) && LaidOut(data, p, id)
    ensures Read(data) == p
  {
    ListsWritten(data, p, id);
    NumbersWritten(data, p, id);
  }

  /** Reading undoes writing, and a written account is accepted exactly when its ledger agrees. */
  lemma AcceptsWritten(p: Policy, id: Identity, program: Bytes32)
    requires Encodable(p)
    ensures |Written(p, id)| == 383 && Read(Written(p, id)) == p
    ensures var e := Expected(program, id.mint, id.creator, id.authority, id.bump, None, None, None);
      Accepts(Account(program, false, Written(p, id)), e) <==> MoneyAgrees(p) && ActivityAgrees(p)
  {
    var data := Written(p, id);
    WrittenIsLaidOut(p, id);
    ReadsWritten(data, p, id);
    assert data[..8] == data[0..8] && data[382] == data[382..383][0];
  }

  lemma ExampleFits(p: Policy)
    requires OneOperationsLamportWithdrawn(p)
    ensures Encodable(p)
  {
  }

  lemma GrownFits(p: Policy)
    requires OneOperationsLamportWithdrawn(p) && ValidUnits(p.protocolUnits)
    ensures CategoryTargets(9, p.protocolUnits).Ok? && Encodable(Settled(p, 9))
  {
    ExampleFits(p);
    PaidIsTargets(p, 9);
  }

  lemma Example(recipient: Bytes32) returns (p: Policy)
    ensures OneOperationsLamportWithdrawn(p) && p.promotionRecipient == recipient
  {
    p := Policy(Published(), 8, [6, 1, 0, 0, 0, 0, 0, 1], [0, 1, 0, 0, 0, 0, 0, 0],
                [8_000_000, 0, 0], [0, 0, 0], 0, [0, 0, 0], 0, 0, 0, recipient, 1);
  }

  /** Account bytes that the decoder accepts, and refuses when nothing but one more lamport is settled. */
  lemma AcceptedBytesThenRefused(id: Identity, program: Bytes32, recipient: Bytes32) returns (p: Policy)
    requires !IsDefaultAddress(recipient)
    ensures Encodable(p) && CategoryTargets(9, p.protocolUnits).Ok? && Encodable(Settled(p, 9))
    ensures var e := Expected(program, id.mint, id.creator, id.authority, id.bump, None, None, None);
      && Accepts(Account(program, false, Written(p, id)), e)
      && !Accepts(Account(program, false, Written(Settled(p, 9), id)), e)
  {
    p := Example(recipient);
    ExampleFits(p);
    PublishedIsValid();
    GrownFits(p);
    AcceptedThenRefused(p);
    AcceptsWritten(p, id, program);
    AcceptsWritten(Settled(p, 9), id, program);
  }
}
