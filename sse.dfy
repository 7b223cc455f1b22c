/**
 * The SSE/AVX intrinsics the vector sorts use, as pure functions on the
 * lanes of one 128-bit register. A register holding 32-bit lanes is a `Vec4`
 * (lane 0 first); one holding byte lanes is a `Vec16`. Lane arithmetic is
 * two's complement.
 */
module Sse {
  import opened FixedWidth

  type Vec4 = s: seq<Int32> | |s| == 4 witness [0, 0, 0, 0]

  type Vec16 = s: seq<Int8> | |s| == 16 witness [0, 0, 0, 0, 0, 0, 0, 0, 0, 0, 0, 0, 0, 0, 0, 0]

  // ---------------------------------------------------------------------------
  // 32-bit lanes
  // ---------------------------------------------------------------------------

  /** The source lane that bits 2k+1..2k of an 8-bit immediate select for lane k. */
  function ShuffleLane(imm: int, k: int): (j: int)
    requires 0 <= imm < 256 && 0 <= k < 4
    ensures 0 <= j < 4
  {
    (if k == 0 then imm else if k == 1 then imm / 4 else if k == 2 then imm / 16 else imm / 64) % 4
  }

  /** `_mm_shuffle_epi32(a, imm)`: lane k of the result is lane ShuffleLane(imm, k) of `a`. */
  function ShuffleEpi32(a: Vec4, imm: int): (r: Vec4)
    requires 0 <= imm < 256
    ensures forall k {:trigger r[k]} :: 0 <= k < 4 ==> r[k] == a[ShuffleLane(imm, k)]
  {
    seq(4, k requires 0 <= k < 4 => a[ShuffleLane(imm, k)])
  }

  /** `_mm_cmpgt_epi32(a, b)`: a signed compare giving an all-ones (-1) or all-zeros lane. */
  function CmpGtEpi32(a: Vec4, b: Vec4): (r: Vec4)
    ensures forall k {:trigger r[k]} :: 0 <= k < 4 ==> (r[k] == -1 <==> a[k] > b[k]) && (r[k] == 0 <==> a[k] <= b[k])
  {
    seq(4, k requires 0 <= k < 4 => if a[k] > b[k] then -1 else 0)
  }

  /** `_mm_add_epi32(a, b)`: lane-wise addition modulo 2^32; a sum in range is exact. */
  function AddEpi32(a: Vec4, b: Vec4): (r: Vec4)
    ensures forall k {:trigger r[k]} :: 0 <= k < 4 && -0x8000_0000 <= a[k] + b[k] < 0x8000_0000 ==> r[k] == a[k] + b[k]
    ensures forall k {:trigger r[k]} :: 0 <= k < 4 ==> (r[k] as int - (a[k] as int + b[k] as int)) % TwoTo32 == 0
  {
    seq(4, k requires 0 <= k < 4 => Wrap32(a[k] as int + b[k] as int))
  }

  /** `_mm_and_si128(a, b)` on a register read as 32-bit lanes. */
  function AndSi128(a: Vec4, b: Vec4): (r: Vec4)
    ensures forall k {:trigger r[k]} :: 0 <= k < 4 && a[k] == -1 ==> r[k] == b[k]
    ensures forall k {:trigger r[k]} :: 0 <= k < 4 && a[k] == 0 ==> r[k] == 0
  {
    seq(4, k requires 0 <= k < 4 => And32(a[k], b[k]))
  }

  /** Four copies of the byte `u`, least significant first. */
  function Splat4(u: nat): (m: nat)
    requires u < TwoTo8
    ensures m < TwoTo32
    ensures m % 0x100 == u && m / 0x100 % 0x100 == u && m / 0x1_0000 % 0x100 == u && m / 0x100_0000 == u
  {
    var m2 := u + 0x100 * u;
    var m3 := u + 0x100 * m2;
    var m := u + 0x100 * m3;
    DigitSplit(u, m3);
    DigitSplit(u, m2);
    DigitSplit(u, u);
    assert m == (u + 0x100 * u) + 0x1_0000 * m2;
    assert m == (u + 0x100 * u + 0x1_0000 * u) + 0x100_0000 * u;
    m
  }

  /** The base-256 digits of r + 256 * q. */
  lemma DigitSplit(r: nat, q: nat)
    requires r < 0x100
    ensures (r + 0x100 * q) % 0x100 == r && (r + 0x100 * q) / 0x100 == q
  {
  }

  /** `_mm_set1_epi8(x)` read as 32-bit lanes: every byte of every lane is `x`. */
  function Set1Epi8As32(x: Int8): (r: Vec4)
    ensures forall k {:trigger r[k]} :: 0 <= k < 4 ==> Unsigned32(r[k]) == Splat4(Unsigned8(x))
  {
    var lane := Wrap32(Splat4(Unsigned8(x)));
    [lane, lane, lane, lane]
  }

  /** `_mm_permutevar_ps(a, sel)`: lane k of the result is the lane of `a` named by
      the low two bits of lane k of `sel` (the float cast around it changes no bits). */
  function PermuteVarPs(a: Vec4, sel: Vec4): (r: Vec4)
    ensures forall k {:trigger r[k]} :: 0 <= k < 4 ==> r[k] == a[sel[k] % 4]
  {
    seq(4, k requires 0 <= k < 4 => a[Unsigned32(sel[k]) % 4])
  }

  // ---------------------------------------------------------------------------
  // Byte lanes
  // ---------------------------------------------------------------------------

  /** `_mm_shuffle_epi8(a, idx)` (pshufb): a lane whose index byte has its high bit
      set becomes 0; otherwise it takes the lane of `a` named by the index's low four bits. */
  function ShuffleEpi8(a: Vec16, idx: Vec16): (r: Vec16)
    ensures forall k {:trigger r[k]} :: 0 <= k < 16 ==> r[k] == if idx[k] < 0 then 0 else a[idx[k] % 16]
  {
    seq(16, k requires 0 <= k < 16 =>
      var u := Unsigned8(idx[k]);
      if u >= 0x80 then 0 else a[u % 16])
  }

  /** `_mm_cmpgt_epi8(a, b)`: a signed compare giving an all-ones (-1) or all-zeros byte. */
  function CmpGtEpi8(a: Vec16, b: Vec16): (r: Vec16)
    ensures forall k {:trigger r[k]} :: 0 <= k < 16 ==> (r[k] == -1 <==> a[k] > b[k]) && (r[k] == 0 <==> a[k] <= b[k])
  {
    seq(16, k requires 0 <= k < 16 => if a[k] > b[k] then -1 else 0)
  }

  /** `_mm_add_epi8(a, b)`: lane-wise addition modulo 2^8; a sum in range is exact. */
  function AddEpi8(a: Vec16, b: Vec16): (r: Vec16)
    ensures forall k {:trigger r[k]} :: 0 <= k < 16 && -0x80 <= a[k] + b[k] < 0x80 ==> r[k] == a[k] + b[k]
    ensures forall k {:trigger r[k]} :: 0 <= k < 16 ==> (r[k] as int - (a[k] as int + b[k] as int)) % TwoTo8 == 0
  {
    seq(16, k requires 0 <= k < 16 => Wrap8(a[k] as int + b[k] as int))
  }

  /** `_mm_and_si128(a, b)` on a register read as byte lanes. */
  function AndSi128Bytes(a: Vec16, b: Vec16): (r: Vec16)
    ensures forall k {:trigger r[k]} :: 0 <= k < 16 && a[k] == -1 ==> r[k] == b[k]
    ensures forall k {:trigger r[k]} :: 0 <= k < 16 && a[k] == 0 ==> r[k] == 0
  {
    seq(16, k requires 0 <= k < 16 => And8(a[k], b[k]))
  }

  /** `_mm_cvtsi32_si128(x)`: the four bytes of `x` (least significant first) in
      lanes 0..3, every other lane zero. */
  function CvtSi32Si128(x: seq<Int8>): (r: Vec16)
    requires |x| == 4
    ensures r[..4] == x
    ensures forall k :: 4 <= k < 16 ==> r[k] == 0
  {
    x + [0, 0, 0, 0, 0, 0, 0, 0, 0, 0, 0, 0]
  }

  /** `_mm_insert_epi16(a, x, imm)`: the low 16 bits of `x`, given as their two bytes
      `w`, replace 16-bit lane `imm`, that is byte lanes 2*imm and 2*imm+1. */
  function InsertEpi16(a: Vec16, w: seq<Int8>, imm: int): (r: Vec16)
    requires |w| == 2 && 0 <= imm < 8
    ensures r[2 * imm] == w[0] && r[2 * imm + 1] == w[1]
    ensures forall k {:trigger r[k]} :: 0 <= k < 16 && k != 2 * imm && k != 2 * imm + 1 ==> r[k] == a[k]
  {
    a[2 * imm := w[0]][2 * imm + 1 := w[1]]
  }

  /** `_mm_cvtsi128_si32(a)`: the four bytes of lanes 0..3, as the 32-bit value they form. */
  function CvtSi128Si32(a: Vec16): (x: seq<Int8>)
    ensures |x| == 4 && forall k :: 0 <= k < 4 ==> x[k] == a[k]
  {
    a[..4]
  }

  /** `_mm_extract_epi16(a, imm)`: the two bytes of 16-bit lane `imm`. */
  function ExtractEpi16(a: Vec16, imm: int): (w: seq<Int8>)
    requires 0 <= imm < 8
    ensures |w| == 2 && w[0] == a[2 * imm] && w[1] == a[2 * imm + 1]
  {
    a[2 * imm..2 * imm + 2]
  }

  /** `_mm_set1_epi8(x)`: every byte lane is `x`. */
  function Set1Epi8(x: Int8): (r: Vec16)
    ensures forall k {:trigger r[k]} :: 0 <= k < 16 ==> r[k] == x
  {
    seq(16, k => x)
  }

  // ---------------------------------------------------------------------------
  // One register, two views
  // ---------------------------------------------------------------------------

  /** Byte i (0 least significant) of the two's-complement pattern of `x`. */
  function LaneByte(x: Int32, i: int): Int8
    requires 0 <= i < 4
  {
    var u := Unsigned32(x);
    Wrap8((if i == 0 then u else if i == 1 then u / 0x100 else if i == 2 then u / 0x1_0000 else u / 0x100_0000) % 0x100)
  }

  /** The 32-bit value whose bytes, least significant first, are b0..b3. */
  function Join4(b0: Int8, b1: Int8, b2: Int8, b3: Int8): Int32 {
    Wrap32(Unsigned8(b0) + 0x100 * Unsigned8(b1) + 0x1_0000 * Unsigned8(b2) + 0x100_0000 * Unsigned8(b3))
  }

  /** A register of 32-bit lanes read as its sixteen bytes (x86 is little-endian). */
  function BytesOf(a: Vec4): (r: Vec16)
    ensures forall k {:trigger r[k]} :: 0 <= k < 16 ==> r[k] == LaneByte(a[k / 4], k % 4)
  {
    seq(16, k requires 0 <= k < 16 => LaneByte(a[k / 4], k % 4))
  }

  /** A register of bytes read as four 32-bit lanes. */
  function LanesOf(b: Vec16): (r: Vec4)
    ensures forall k {:trigger r[k]} :: 0 <= k < 4 ==> r[k] == Join4(b[4 * k], b[4 * k + 1], b[4 * k + 2], b[4 * k + 3])
  {
    seq(4, k requires 0 <= k < 4 => Join4(b[4 * k], b[4 * k + 1], b[4 * k + 2], b[4 * k + 3]))
  }

  /** Splitting a 32-bit value into its bytes and joining them gives the value back. */
  lemma JoinLaneBytes(x: Int32)
    ensures Join4(LaneByte(x, 0), LaneByte(x, 1), LaneByte(x, 2), LaneByte(x, 3)) == x
  {
    var u := Unsigned32(x);
    Digits(u);
    var d0, d1, d2, d3 := Unsigned8(LaneByte(x, 0)), Unsigned8(LaneByte(x, 1)), Unsigned8(LaneByte(x, 2)), Unsigned8(LaneByte(x, 3));
    assert d0 == u % 0x100 by { ByteOfDigit(u % 0x100); }
    assert d1 == u / 0x100 % 0x100 by { ByteOfDigit(u / 0x100 % 0x100); }
    assert d2 == u / 0x1_0000 % 0x100 by { ByteOfDigit(u / 0x1_0000 % 0x100); }
    assert d3 == u / 0x100_0000 % 0x100 by { ByteOfDigit(u / 0x100_0000 % 0x100); }
    assert d0 + 0x100 * d1 + 0x1_0000 * d2 + 0x100_0000 * d3 == u;
    WrapUnsigned(x);
  }

  /** Truncating the unsigned reading of a 32-bit value gives the value back. */
  lemma WrapUnsigned(x: Int32)
    ensures Wrap32(Unsigned32(x)) == x
  {
  }

  /** The base-256 digits of a 32-bit pattern. */
  lemma Digits(u: nat)
    requires u < TwoTo32
    ensures u == u % 0x100 + 0x100 * (u / 0x100 % 0x100) + 0x1_0000 * (u / 0x1_0000 % 0x100)
      + 0x100_0000 * (u / 0x100_0000 % 0x100)
  {
    var q1 := u / 0x100;
    var q2 := q1 / 0x100;
    var q3 := q2 / 0x100;
    assert u == u % 0x100 + 0x100 * q1;
    assert q1 == q1 % 0x100 + 0x100 * q2;
    assert q2 == q2 % 0x100 + 0x100 * q3;
    assert u / 0x1_0000 == q2;
    assert u / 0x100_0000 == q3;
    assert q3 < 0x100;
  }

  /** A byte value 0..255 survives the trip to a signed byte and back. */
  lemma ByteOfDigit(d: int)
    requires 0 <= d < 0x100
    ensures Unsigned8(Wrap8(d)) == d
  {
  }

  /** Reading a register as bytes and back as lanes changes nothing. */
  lemma LanesOfBytesOf(a: Vec4)
    ensures LanesOf(BytesOf(a)) == a
  {
    var r := LanesOf(BytesOf(a));
    LaneOfBytes(a, 0);
    LaneOfBytes(a, 1);
    LaneOfBytes(a, 2);
    LaneOfBytes(a, 3);
    assert r == [a[0], a[1], a[2], a[3]];
  }

  /** Lane k of the lane view of the byte view of `a` is lane k of `a`. */
  lemma LaneOfBytes(a: Vec4, k: int)
    requires 0 <= k < 4
    ensures LanesOf(BytesOf(a))[k] == a[k]
  {
    var b := BytesOf(a);
    var i := 4 * k;
    assert i / 4 == k && i % 4 == 0 && (i + 1) / 4 == k && (i + 1) % 4 == 1;
    assert (i + 2) / 4 == k && (i + 2) % 4 == 2 && (i + 3) / 4 == k && (i + 3) % 4 == 3;
    assert b[i] == LaneByte(a[k], 0) && b[i + 1] == LaneByte(a[k], 1);
    assert b[i + 2] == LaneByte(a[k], 2) && b[i + 3] == LaneByte(a[k], 3);
    JoinLaneBytes(a[k]);
  }

  /** Every byte of an all-ones lane is all ones, every byte of a zero lane is zero. */
  lemma MaskBytes(i: int)
    requires 0 <= i < 4
    ensures LaneByte(-1, i) == -1 && LaneByte(0, i) == 0
  {
    assert Unsigned32(-1) == 0xFFFF_FFFF;
    assert Wrap8(0xFF) == -1;
    if i == 1 {
      assert 0xFFFF_FFFF / 0x100 % 0x100 == 0xFF;
    } else if i == 2 {
      assert 0xFFFF_FFFF / 0x1_0000 % 0x100 == 0xFF;
    } else if i == 3 {
      assert 0xFFFF_FFFF / 0x100_0000 % 0x100 == 0xFF;
    }
  }

  // ---------------------------------------------------------------------------
  // Facts about particular operands
  // ---------------------------------------------------------------------------

  /** The three immediates of the 4-lane sort: 177 swaps neighbours, 78 swaps halves,
      216 swaps the middle two lanes. */
  lemma ShuffleImmediates(a: Vec4)
    ensures ShuffleEpi32(a, 177) == [a[1], a[0], a[3], a[2]]
    ensures ShuffleEpi32(a, 78) == [a[2], a[3], a[0], a[1]]
    ensures ShuffleEpi32(a, 216) == [a[0], a[2], a[1], a[3]]
  {
  }

  /** `_mm_set1_epi8(-2)` read as 32-bit lanes is 0xFEFEFEFE in every lane. */
  lemma SetMinusTwo()
    ensures Set1Epi8As32(-2) == [-16843010, -16843010, -16843010, -16843010]
  {
    assert Splat4(254) == 0xFEFE_FEFE;
  }

  /** Added to a small constant c, 0xFEFEFEFE acts on the low two bits as an offset of -2. */
  lemma MinusTwoOffset(c: Int32)
    requires -4 <= c <= 4
    ensures Wrap32(-16843010 + c) % 4 == (c - 2) % 4
  {
  }
}
