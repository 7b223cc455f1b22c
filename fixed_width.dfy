/**
 * Fixed-width signed integers as the machine holds them: `int32_t` and
 * `int8_t` lane values, two's-complement wrap-around of an addition, and the
 * bitwise AND of two bit patterns.
 */
module FixedWidth {

  const TwoTo8: int := 0x100
  const TwoTo32: int := 0x1_0000_0000

  /** A signed 32-bit value (`int`, `int32_t`). */
  type Int32 = x: int | -0x8000_0000 <= x < 0x8000_0000

  /** A signed 8-bit value (`char` on the target, `int8_t`). */
  type Int8 = x: int | -0x80 <= x < 0x80

  function Pow2(w: nat): (r: nat)
    ensures r >= 1
  {
    if w == 0 then 1 else 2 * Pow2(w - 1)
  }

  /** Two's-complement truncation of a mathematical integer to 32 bits. */
  function Wrap32(x: int): (r: Int32)
    ensures -0x8000_0000 <= x < 0x8000_0000 ==> r == x
    ensures (r - x) % TwoTo32 == 0
  {
    (x + 0x8000_0000) % TwoTo32 - 0x8000_0000
  }

  /** Two's-complement truncation of a mathematical integer to 8 bits. */
  function Wrap8(x: int): (r: Int8)
    ensures -0x80 <= x < 0x80 ==> r == x
    ensures (r - x) % TwoTo8 == 0
  {
    (x + 0x80) % TwoTo8 - 0x80
  }

  /** The bit pattern of a 32-bit value, read as an unsigned number. */
  function Unsigned32(x: Int32): (u: nat)
    ensures u < TwoTo32
  {
    if x < 0 then x + TwoTo32 else x
  }

  /** The bit pattern of an 8-bit value, read as an unsigned number. */
  function Unsigned8(x: Int8): (u: nat)
    ensures u < TwoTo8
  {
    if x < 0 then x + TwoTo8 else x
  }

  /** Bitwise AND of the low `w` bits of two unsigned numbers. */
  function AndBits(x: nat, y: nat, w: nat): (r: nat)
    ensures r <= x && r <= y
    ensures r < Pow2(w)
  {
    if w == 0 then 0
    else 2 * AndBits(x / 2, y / 2, w - 1) + (if x % 2 == 1 && y % 2 == 1 then 1 else 0)
  }

  /** AND with all ones keeps the other operand's bits. */
  lemma {:induction false} AndBitsAllOnes(y: nat, w: nat)
    requires y < Pow2(w)
    ensures AndBits(Pow2(w) - 1, y, w) == y
  {
    if w > 0 {
      assert (Pow2(w) - 1) / 2 == Pow2(w - 1) - 1 && (Pow2(w) - 1) % 2 == 1;
      AndBitsAllOnes(y / 2, w - 1);
    }
  }

  /** AND with all zeros clears every bit. */
  lemma {:induction false} AndBitsZero(y: nat, w: nat)
    ensures AndBits(0, y, w) == 0
  {
    if w > 0 {
      AndBitsZero(y / 2, w - 1);
    }
  }

  /** 32 bits are 2^32 values. */
  lemma Pow2Of32()
    ensures Pow2(32) == TwoTo32 && Pow2(8) == TwoTo8
  {
    assert Pow2(8) == 0x100;
    assert Pow2(16) == 0x1_0000 by { assert Pow2(16) == Pow2(8) * 0x100; }
    assert Pow2(24) == 0x100_0000;
  }

  /** The bitwise AND of two 32-bit values. An all-ones (-1) or all-zeros
      operand, the only masks a compare produces, is read off directly; the
      general case ANDs the two bit patterns. And32IsBitwise shows that the
      shortcuts agree with the bit patterns. */
  function And32(x: Int32, y: Int32): Int32 {
    if x == -1 then y
    else if x == 0 then 0
    else Wrap32(AndBits(Unsigned32(x), Unsigned32(y), 32))
  }

  /** The bitwise AND of two 8-bit values, with the same shortcuts. */
  function And8(x: Int8, y: Int8): Int8 {
    if x == -1 then y
    else if x == 0 then 0
    else Wrap8(AndBits(Unsigned8(x), Unsigned8(y), 8))
  }

  /** And32 is the AND of the two's-complement bit patterns for every pair of values. */
  lemma And32IsBitwise(x: Int32, y: Int32)
    ensures And32(x, y) == Wrap32(AndBits(Unsigned32(x), Unsigned32(y), 32))
  {
    AndBitsOnes32(y);
    AndBitsZero(Unsigned32(y), 32);
  }

  /** And8 is the AND of the two's-complement bit patterns for every pair of values. */
  lemma And8IsBitwise(x: Int8, y: Int8)
    ensures And8(x, y) == Wrap8(AndBits(Unsigned8(x), Unsigned8(y), 8))
  {
    AndBitsOnes8(y);
    AndBitsZero(Unsigned8(y), 8);
  }

  lemma AndBitsOnes32(y: Int32)
    ensures AndBits(TwoTo32 - 1, Unsigned32(y), 32) == Unsigned32(y)
  {
    Pow2Of32();
    AndBitsAllOnes(Unsigned32(y), 32);
  }

  lemma AndBitsOnes8(y: Int8)
    ensures AndBits(TwoTo8 - 1, Unsigned8(y), 8) == Unsigned8(y)
  {
    Pow2Of32();
    AndBitsAllOnes(Unsigned8(y), 8);
  }
}
