/**
 * The byte-index form of `simdsort4`, kept in the source as a commented-out
 * alternative to the live routine. It computes each pass's selector as byte
 * indices and gathers with `pshufb`: the 32-bit compare mask, ANDed with
 * bytes of -4 (or -8) and added to a per-byte base, names either the lane's
 * own four bytes or its partner's. It realizes the same three passes as the
 * live routine, so both compute the same function.
 */
module ByteSort4 {
  import opened FixedWidth
  import opened Networks
  import opened Sse
  import opened SimdSort4

  /** `pass1_add4s`, `pass2_add4s`, `pass3_add4s`. */
  const Pass1Add4s: Vec16 := [4, 5, 6, 7, 4, 5, 6, 7, 12, 13, 14, 15, 12, 13, 14, 15]
  const Pass2Add4s: Vec16 := [8, 9, 10, 11, 12, 13, 14, 15, 8, 9, 10, 11, 12, 13, 14, 15]
  const Pass3Add4s: Vec16 := [0, 1, 2, 3, 8, 9, 10, 11, 8, 9, 10, 11, 12, 13, 14, 15]

  /** The byte indices a pass hands to `pshufb`: the compare mask of `a` against its
      partners `shuffled`, ANDed with bytes of `m`, plus `base`. */
  function MaskedIndex(a: Vec4, shuffled: Vec4, m: Int8, base: Vec16): Vec16 {
    AddEpi8(AndSi128Bytes(BytesOf(CmpGtEpi32(shuffled, a)), Set1Epi8(m)), base)
  }

  function Pass1Index(a: Vec4): Vec16 {
    MaskedIndex(a, ShuffleEpi32(a, 177), -4, Pass1Add4s)
  }

  function Pass2Index(a: Vec4): Vec16 {
    MaskedIndex(a, ShuffleEpi32(a, 78), -8, Pass2Add4s)
  }

  function Pass3Index(a: Vec4): Vec16 {
    MaskedIndex(a, ShuffleEpi32(a, 216), -4, Pass3Add4s)
  }

  /** A pass: gather the bytes of `a` named by `idx` and read the result as lanes. */
  function Gather(a: Vec4, idx: Vec16): Vec4 {
    LanesOf(ShuffleEpi8(BytesOf(a), idx))
  }

  /** The four index bytes of lane k name the four bytes of lane j, in order. */
  predicate PointsAt(idx: Vec16, k: int, j: int)
    requires 0 <= k < 4
  {
    idx[4 * k] == 4 * j && idx[4 * k + 1] == 4 * j + 1 && idx[4 * k + 2] == 4 * j + 2 && idx[4 * k + 3] == 4 * j + 3
  }

  /** The bytes of a masked index: each lies in a compare mask lane that is all ones
      or all zeros, so byte n is m + base[n] when the partner compared greater and
      base[n] otherwise. */
  lemma MaskedIndexBytes(a: Vec4, shuffled: Vec4, m: Int8, base: Vec16)
    requires forall n :: 0 <= n < 16 ==> -0x80 <= m + base[n] < 0x80
    ensures IsMaskedIndex(MaskedIndex(a, shuffled, m, base), a, shuffled, m, base)
  {
    var idx := MaskedIndex(a, shuffled, m, base);
    forall n | 0 <= n < 16
      ensures idx[n] == if shuffled[n / 4] > a[n / 4] then m + base[n] else base[n]
    {
      MaskBytes(n % 4);
    }
  }

  /** The bytes `idx` holds when it is the masked index of `a` against `shuffled`. */
  predicate IsMaskedIndex(idx: Vec16, a: Vec4, shuffled: Vec4, m: Int8, base: Vec16) {
    forall n :: 0 <= n < 16 ==> idx[n] == if shuffled[n / 4] > a[n / 4] then m + base[n] else base[n]
  }

  /** The index bytes of lane k point at lane `hi` when lane k's partner p compares
      greater and at lane `lo` otherwise, when m + base and base name those lanes. */
  lemma MaskedLane(idx: Vec16, a: Vec4, shuffled: Vec4, m: Int8, base: Vec16, k: int, p: int, hi: int, lo: int)
    requires IsMaskedIndex(idx, a, shuffled, m, base)
    requires 0 <= k < 4 && 0 <= p < 4 && shuffled[k] == a[p] && PointsAt(base, k, lo) && m == 4 * (hi - lo)
    ensures PointsAt(idx, k, if a[p] > a[k] then hi else lo)
  {
    var n := 4 * k;
    assert n / 4 == k && (n + 1) / 4 == k && (n + 2) / 4 == k && (n + 3) / 4 == k;
    assert idx[n] == if shuffled[k] > a[k] then m + base[n] else base[n];
    assert idx[n + 1] == if shuffled[k] > a[k] then m + base[n + 1] else base[n + 1];
    assert idx[n + 2] == if shuffled[k] > a[k] then m + base[n + 2] else base[n + 2];
    assert idx[n + 3] == if shuffled[k] > a[k] then m + base[n + 3] else base[n + 3];
  }

  /** Lane k of a gather whose index bytes for lane k point at lane j is lane j. */
  lemma GatherLane(a: Vec4, idx: Vec16, k: int, j: int)
    requires 0 <= k < 4 && 0 <= j < 4 && PointsAt(idx, k, j)
    ensures Gather(a, idx)[k] == a[j]
  {
    var src := BytesOf(a);
    var b := ShuffleEpi8(src, idx);
    var n := 4 * j;
    assert n / 4 == j && n % 4 == 0 && (n + 1) / 4 == j && (n + 1) % 4 == 1;
    assert (n + 2) / 4 == j && (n + 2) % 4 == 2 && (n + 3) / 4 == j && (n + 3) % 4 == 3;
    assert n % 16 == n && (n + 1) % 16 == n + 1 && (n + 2) % 16 == n + 2 && (n + 3) % 16 == n + 3;
    ShuffledByte(src, idx, 4 * k, n);
    ShuffledByte(src, idx, 4 * k + 1, n + 1);
    ShuffledByte(src, idx, 4 * k + 2, n + 2);
    ShuffledByte(src, idx, 4 * k + 3, n + 3);
    JoinLaneBytes(a[j]);
  }

  /** Byte m of a `pshufb` whose index byte m is n, for 0 <= n < 16, is byte n of the source. */
  lemma ShuffledByte(src: Vec16, idx: Vec16, m: int, n: int)
    requires 0 <= m < 16 && 0 <= n < 16 && idx[m] == n
    ensures ShuffleEpi8(src, idx)[m] == src[n]
  {
  }

  /** A gather whose index bytes point every lane k at lane jk takes lane jk of `a`. */
  lemma GatherLanes(a: Vec4, idx: Vec16, j0: int, j1: int, j2: int, j3: int)
    requires 0 <= j0 < 4 && 0 <= j1 < 4 && 0 <= j2 < 4 && 0 <= j3 < 4
    requires PointsAt(idx, 0, j0) && PointsAt(idx, 1, j1) && PointsAt(idx, 2, j2) && PointsAt(idx, 3, j3)
    ensures Gather(a, idx) == [a[j0], a[j1], a[j2], a[j3]]
  {
    GatherLane(a, idx, 0, j0);
    GatherLane(a, idx, 1, j1);
    GatherLane(a, idx, 2, j2);
    GatherLane(a, idx, 3, j3);
    LanesEqual(Gather(a, idx), [a[j0], a[j1], a[j2], a[j3]]);
  }

  /** Left unmasked, each base names a lane's own bytes or its partner's. */
  lemma BasesPoint()
    ensures PointsAt(Pass1Add4s, 0, 1) && PointsAt(Pass1Add4s, 1, 1) && PointsAt(Pass1Add4s, 2, 3) && PointsAt(Pass1Add4s, 3, 3)
    ensures PointsAt(Pass2Add4s, 0, 2) && PointsAt(Pass2Add4s, 1, 3) && PointsAt(Pass2Add4s, 2, 2) && PointsAt(Pass2Add4s, 3, 3)
    ensures PointsAt(Pass3Add4s, 0, 0) && PointsAt(Pass3Add4s, 1, 2) && PointsAt(Pass3Add4s, 2, 2) && PointsAt(Pass3Add4s, 3, 3)
  {
  }

  /** Pass 1 points lanes 0 and 2 at the smaller, lanes 1 and 3 at the larger of
      their pair (0,1) or (2,3): an all-ones mask moves a base of 4 or 12 down by 4. */
  lemma Pass1Points(a: Vec4)
    ensures var idx := Pass1Index(a);
      && PointsAt(idx, 0, if a[1] > a[0] then 0 else 1) && PointsAt(idx, 1, if a[0] > a[1] then 0 else 1)
      && PointsAt(idx, 2, if a[3] > a[2] then 2 else 3) && PointsAt(idx, 3, if a[2] > a[3] then 2 else 3)
  {
    ShuffleImmediates(a);
    BasesPoint();
    MaskedIndexBytes(a, ShuffleEpi32(a, 177), -4, Pass1Add4s);
    Pass1PointsFor(Pass1Index(a), a, ShuffleEpi32(a, 177), Pass1Add4s);
  }

  /** The pointing of Pass1Points, for any bytes laid out as its masked index. */
  lemma Pass1PointsFor(idx: Vec16, a: Vec4, shuffled: Vec4, base: Vec16)
    requires IsMaskedIndex(idx, a, shuffled, -4, base)
    requires shuffled[0] == a[1] && shuffled[1] == a[0] && shuffled[2] == a[3] && shuffled[3] == a[2]
    requires PointsAt(base, 0, 1) && PointsAt(base, 1, 1) && PointsAt(base, 2, 3) && PointsAt(base, 3, 3)
    ensures PointsAt(idx, 0, if a[1] > a[0] then 0 else 1) && PointsAt(idx, 1, if a[0] > a[1] then 0 else 1)
      && PointsAt(idx, 2, if a[3] > a[2] then 2 else 3) && PointsAt(idx, 3, if a[2] > a[3] then 2 else 3)
  {
    MaskedLane(idx, a, shuffled, -4, base, 0, 1, 0, 1);
    MaskedLane(idx, a, shuffled, -4, base, 1, 0, 0, 1);
    MaskedLane(idx, a, shuffled, -4, base, 2, 3, 2, 3);
    MaskedLane(idx, a, shuffled, -4, base, 3, 2, 2, 3);
  }

  /** Pass 2 points lanes 0 and 1 at the smaller, lanes 2 and 3 at the larger of
      their pair (0,2) or (1,3): an all-ones mask moves a base of 8 or 12 down by 8. */
  lemma Pass2Points(a: Vec4)
    ensures var idx := Pass2Index(a);
      && PointsAt(idx, 0, if a[2] > a[0] then 0 else 2) && PointsAt(idx, 1, if a[3] > a[1] then 1 else 3)
      && PointsAt(idx, 2, if a[0] > a[2] then 0 else 2) && PointsAt(idx, 3, if a[1] > a[3] then 1 else 3)
  {
    ShuffleImmediates(a);
    BasesPoint();
    MaskedIndexBytes(a, ShuffleEpi32(a, 78), -8, Pass2Add4s);
    Pass2PointsFor(Pass2Index(a), a, ShuffleEpi32(a, 78), Pass2Add4s);
  }

  /** The pointing of Pass2Points, for any bytes laid out as its masked index. */
  lemma Pass2PointsFor(idx: Vec16, a: Vec4, shuffled: Vec4, base: Vec16)
    requires IsMaskedIndex(idx, a, shuffled, -8, base)
    requires shuffled[0] == a[2] && shuffled[1] == a[3] && shuffled[2] == a[0] && shuffled[3] == a[1]
    requires PointsAt(base, 0, 2) && PointsAt(base, 1, 3) && PointsAt(base, 2, 2) && PointsAt(base, 3, 3)
    ensures PointsAt(idx, 0, if a[2] > a[0] then 0 else 2) && PointsAt(idx, 1, if a[3] > a[1] then 1 else 3)
      && PointsAt(idx, 2, if a[0] > a[2] then 0 else 2) && PointsAt(idx, 3, if a[1] > a[3] then 1 else 3)
  {
    MaskedLane(idx, a, shuffled, -8, base, 0, 2, 0, 2);
    MaskedLane(idx, a, shuffled, -8, base, 1, 3, 1, 3);
    MaskedLane(idx, a, shuffled, -8, base, 2, 0, 0, 2);
    MaskedLane(idx, a, shuffled, -8, base, 3, 1, 1, 3);
  }

  /** A lane compared with itself has a zero mask, so its index bytes are the base
      bytes and point where the base points. */
  lemma SelfLane(idx: Vec16, a: Vec4, shuffled: Vec4, m: Int8, base: Vec16, k: int, j: int)
    requires IsMaskedIndex(idx, a, shuffled, m, base)
    requires 0 <= k < 4 && shuffled[k] == a[k] && PointsAt(base, k, j)
    ensures PointsAt(idx, k, j)
  {
    var n := 4 * k;
    assert n / 4 == k && (n + 1) / 4 == k && (n + 2) / 4 == k && (n + 3) / 4 == k;
    assert idx[n] == base[n] && idx[n + 1] == base[n + 1];
    assert idx[n + 2] == base[n + 2] && idx[n + 3] == base[n + 3];
  }

  /** Pass 3 points lane 1 at the smaller and lane 2 at the larger of lanes 1 and 2;
      lanes 0 and 3 are compared with themselves and point at themselves. */
  lemma Pass3Points(a: Vec4)
    ensures var idx := Pass3Index(a);
      && PointsAt(idx, 0, 0) && PointsAt(idx, 1, if a[2] > a[1] then 1 else 2)
      && PointsAt(idx, 2, if a[1] > a[2] then 1 else 2) && PointsAt(idx, 3, 3)
  {
    ShuffleImmediates(a);
    BasesPoint();
    MaskedIndexBytes(a, ShuffleEpi32(a, 216), -4, Pass3Add4s);
    Pass3PointsFor(Pass3Index(a), a, ShuffleEpi32(a, 216), Pass3Add4s);
  }

  /** The pointing of Pass3Points, for any bytes laid out as its masked index. */
  lemma Pass3PointsFor(idx: Vec16, a: Vec4, shuffled: Vec4, base: Vec16)
    requires IsMaskedIndex(idx, a, shuffled, -4, base)
    requires shuffled[0] == a[0] && shuffled[1] == a[2] && shuffled[2] == a[1] && shuffled[3] == a[3]
    requires PointsAt(base, 0, 0) && PointsAt(base, 1, 2) && PointsAt(base, 2, 2) && PointsAt(base, 3, 3)
    ensures PointsAt(idx, 0, 0) && PointsAt(idx, 1, if a[2] > a[1] then 1 else 2)
      && PointsAt(idx, 2, if a[1] > a[2] then 1 else 2) && PointsAt(idx, 3, 3)
  {
    SelfLane(idx, a, shuffled, -4, base, 0, 0);
    MaskedLane(idx, a, shuffled, -4, base, 1, 2, 1, 2);
    MaskedLane(idx, a, shuffled, -4, base, 2, 1, 1, 2);
    SelfLane(idx, a, shuffled, -4, base, 3, 3);
  }

  /** Byte pass 1 is the compare-exchanges (0,1) and (2,3). */
  lemma BytePass1Exchanges(a: Vec4)
    ensures Gather(a, Pass1Index(a)) == Apply(a, Pass1)
  {
    Pass1Points(a);
    BytePass1Gathers(a, Pass1Index(a));
  }

  /** Any index pointing lanes the way pass 1 does gathers the pass-1 result. */
  lemma BytePass1Gathers(a: Vec4, idx: Vec16)
    requires PointsAt(idx, 0, if a[1] > a[0] then 0 else 1) && PointsAt(idx, 1, if a[0] > a[1] then 0 else 1)
    requires PointsAt(idx, 2, if a[3] > a[2] then 2 else 3) && PointsAt(idx, 3, if a[2] > a[3] then 2 else 3)
    ensures Gather(a, idx) == Apply(a, Pass1)
  {
    var j0, j1, j2, j3 := if a[1] > a[0] then 0 else 1, if a[0] > a[1] then 0 else 1, if a[3] > a[2] then 2 else 3, if a[2] > a[3] then 2 else 3;
    GatherLanes(a, idx, j0, j1, j2, j3);
    Pass1Picks(a, j0, j1, j2, j3);
  }

  /** Lanes taken the way pass 1 takes them are the pass-1 compare-exchanges. */
  lemma Pass1Picks(a: Vec4, j0: int, j1: int, j2: int, j3: int)
    requires SelectsMin(a, 0, 1, j0) && SelectsMax(a, 1, 0, j1) && SelectsMin(a, 2, 3, j2) && SelectsMax(a, 3, 2, j3)
    ensures 0 <= j0 < 4 && 0 <= j1 < 4 && 0 <= j2 < 4 && 0 <= j3 < 4
    ensures [a[j0], a[j1], a[j2], a[j3]] == Apply(a, Pass1)
  {
    LanesEqual([a[j0], a[j1], a[j2], a[j3]], Apply(a, Pass1));
  }


  /** Byte pass 2 is the compare-exchanges (0,2) and (1,3). */
  lemma BytePass2Exchanges(a: Vec4)
    ensures Gather(a, Pass2Index(a)) == Apply(a, Pass2)
  {
    Pass2Points(a);
    BytePass2Gathers(a, Pass2Index(a));
  }

  /** Any index pointing lanes the way pass 2 does gathers the pass-2 result. */
  lemma BytePass2Gathers(a: Vec4, idx: Vec16)
    requires PointsAt(idx, 0, if a[2] > a[0] then 0 else 2) && PointsAt(idx, 1, if a[3] > a[1] then 1 else 3)
    requires PointsAt(idx, 2, if a[0] > a[2] then 0 else 2) && PointsAt(idx, 3, if a[1] > a[3] then 1 else 3)
    ensures Gather(a, idx) == Apply(a, Pass2)
  {
    var j0, j1, j2, j3 := if a[2] > a[0] then 0 else 2, if a[3] > a[1] then 1 else 3, if a[0] > a[2] then 0 else 2, if a[1] > a[3] then 1 else 3;
    GatherLanes(a, idx, j0, j1, j2, j3);
    Pass2Picks(a, j0, j1, j2, j3);
  }

  /** Lanes taken the way pass 2 takes them are the pass-2 compare-exchanges. */
  lemma Pass2Picks(a: Vec4, j0: int, j1: int, j2: int, j3: int)
    requires SelectsMin(a, 0, 2, j0) && SelectsMin(a, 1, 3, j1) && SelectsMax(a, 2, 0, j2) && SelectsMax(a, 3, 1, j3)
    ensures 0 <= j0 < 4 && 0 <= j1 < 4 && 0 <= j2 < 4 && 0 <= j3 < 4
    ensures [a[j0], a[j1], a[j2], a[j3]] == Apply(a, Pass2)
  {
    LanesEqual([a[j0], a[j1], a[j2], a[j3]], Apply(a, Pass2));
  }


  /** Byte pass 3 is the compare-exchange (1,2). */
  lemma BytePass3Exchanges(a: Vec4)
    ensures Gather(a, Pass3Index(a)) == Apply(a, Pass3)
  {
    Pass3Points(a);
    BytePass3Gathers(a, Pass3Index(a));
  }

  /** Any index pointing lanes the way pass 3 does gathers the pass-3 result. */
  lemma BytePass3Gathers(a: Vec4, idx: Vec16)
    requires PointsAt(idx, 0, 0) && PointsAt(idx, 1, if a[2] > a[1] then 1 else 2)
    requires PointsAt(idx, 2, if a[1] > a[2] then 1 else 2) && PointsAt(idx, 3, 3)
    ensures Gather(a, idx) == Apply(a, Pass3)
  {
    var j0, j1, j2, j3 := 0, if a[2] > a[1] then 1 else 2, if a[1] > a[2] then 1 else 2, 3;
    GatherLanes(a, idx, j0, j1, j2, j3);
    Pass3Picks(a, j0, j1, j2, j3);
  }

  /** Lanes taken the way pass 3 takes them are the pass-3 compare-exchanges. */
  lemma Pass3Picks(a: Vec4, j0: int, j1: int, j2: int, j3: int)
    requires j0 == 0 && SelectsMin(a, 1, 2, j1) && SelectsMax(a, 2, 1, j2) && j3 == 3
    ensures 0 <= j0 < 4 && 0 <= j1 < 4 && 0 <= j2 < 4 && 0 <= j3 < 4
    ensures [a[j0], a[j1], a[j2], a[j3]] == Apply(a, Pass3)
  {
    LanesEqual([a[j0], a[j1], a[j2], a[j3]], Apply(a, Pass3));
  }


  /** Each byte pass computes what the matching `permutevar` pass of the live routine computes. */
  lemma PassesAgree(a: Vec4)
    ensures Gather(a, Pass1Index(a)) == PermuteVarPs(a, Pass1Selector(a))
    ensures Gather(a, Pass2Index(a)) == PermuteVarPs(a, Pass2Selector(a))
    ensures Gather(a, Pass3Index(a)) == PermuteVarPs(a, Pass3Selector(a))
  {
    BytePass1Exchanges(a);
    BytePass2Exchanges(a);
    BytePass3Exchanges(a);
    Pass1Exchanges(a);
    Pass2Exchanges(a);
    Pass3Exchanges(a);
  }

  /** Sorts `v[0..4]` in place as signed 32-bit values, gathering bytes with `pshufb`. */
  method ByteSimdSort4(v: array<Int32>)
    requires v.Length >= 4
    modifies v
    ensures v[..4] == Apply(old(v[..4]), Network4)
    ensures Sorted(v[..4]) && multiset(v[..4]) == multiset(old(v[..4]))
    ensures v[4..] == old(v[4..])
  {
    var a: Vec4 := v[..4];  // _mm_loadu_si128
    ghost var input := a;
    Network4Sorts(input);
    var b: Vec4;
    var idx: Vec16;

    b := ShuffleEpi32(a, 177);
    b := CmpGtEpi32(b, a);
    idx := AndSi128Bytes(BytesOf(b), Set1Epi8(-4));
    idx := AddEpi8(idx, Pass1Add4s);
    BytePass1Exchanges(a);
    a := LanesOf(ShuffleEpi8(BytesOf(a), idx));
    assert a == Apply(input, Pass1);

    b := ShuffleEpi32(a, 78);
    b := CmpGtEpi32(b, a);
    idx := AndSi128Bytes(BytesOf(b), Set1Epi8(-8));
    idx := AddEpi8(idx, Pass2Add4s);
    BytePass2Exchanges(a);
    a := LanesOf(ShuffleEpi8(BytesOf(a), idx));
    assert a == Apply(Apply(input, Pass1), Pass2);

    b := ShuffleEpi32(a, 216);
    b := CmpGtEpi32(b, a);
    idx := AndSi128Bytes(BytesOf(b), Set1Epi8(-4));
    idx := AddEpi8(idx, Pass3Add4s);
    BytePass3Exchanges(a);
    a := LanesOf(ShuffleEpi8(BytesOf(a), idx));
    assert a == Apply(input, Network4);

    StoreU(v, a);
  }
}
