/**
 * Fixed-width arithmetic shared by the firmware model: the ranges of the C
 * integer types, little-endian composition of bytes into register words,
 * masked register updates, and the ALIGN / ALIGN_DOWN rounding helpers.
 */
module Bits {
  const U8: int := 0x100
  const U16: int := 0x1_0000
  const U32: int := 0x1_0000_0000
  const U64: int := 0x1_0000_0000_0000_0000

  type u8 = x: int | 0 <= x < 0x100
  type u16 = x: int | 0 <= x < 0x1_0000
  type u32 = x: int | 0 <= x < 0x1_0000_0000
  type u64 = x: int | 0 <= x < 0x1_0000_0000_0000_0000

  /** The low byte of a 32-bit value (a C cast to u8). */
  function Lo8(v: bv32): bv8 { (v & 0xff) as bv8 }

  /** The low and the high half of a 32-bit value (`v & 0xffff`, `v >> 16`). */
  function Lo16(v: bv32): bv16 { (v & 0xffff) as bv16 }
  function Hi16(v: bv32): bv16 { (v >> 16) as bv16 }

  /** Byte `i` (0 = least significant) of a 32-bit little-endian value. */
  function ByteOf(v: bv32, i: int): bv8 {
    if i <= 0 then Lo8(v)
    else if i == 1 then Lo8(v >> 8)
    else if i == 2 then Lo8(v >> 16)
    else Lo8(v >> 24)
  }

  /** Two bytes, lowest address first, read as a little-endian 16-bit value. */
  function Join16(b0: bv8, b1: bv8): bv16 {
    (b1 as bv16 << 8) | (b0 as bv16)
  }

  /** Four bytes, lowest address first, read as a little-endian 32-bit value. */
  function Join32(b0: bv8, b1: bv8, b2: bv8, b3: bv8): bv32 {
    (b3 as bv32 << 24) | (b2 as bv32 << 16) | (b1 as bv32 << 8) | (b0 as bv32)
  }

  /** A 16-bit value above a byte, as one 24-bit quantity. */
  function Join24(hi: bv16, lo: bv8): bv32 {
    (hi as bv32 << 8) | lo as bv32
  }

  /** Both parts can be read back from a Join24 value, which stays below 2^24. */
  lemma Join24Parts(hi: bv16, lo: bv8)
    ensures Join24(hi, lo) >> 8 == hi as bv32
    ensures Join24(hi, lo) & 0xff == lo as bv32
    ensures Join24(hi, lo) < 0x100_0000
  {}

  /** Splitting a composed word gives back the bytes it was composed of. */
  lemma Join32Bytes(b0: bv8, b1: bv8, b2: bv8, b3: bv8)
    ensures ByteOf(Join32(b0, b1, b2, b3), 0) == b0
    ensures ByteOf(Join32(b0, b1, b2, b3), 1) == b1
    ensures ByteOf(Join32(b0, b1, b2, b3), 2) == b2
    ensures ByteOf(Join32(b0, b1, b2, b3), 3) == b3
  {}

  lemma Join16Bytes(b0: bv8, b1: bv8)
    ensures ByteOf(Join16(b0, b1) as bv32, 0) == b0
    ensures ByteOf(Join16(b0, b1) as bv32, 1) == b1
  {}

  /** Composing the bytes of a word gives back the word. */
  lemma BytesJoin32(v: bv32)
    ensures Join32(ByteOf(v, 0), ByteOf(v, 1), ByteOf(v, 2), ByteOf(v, 3)) == v
  {}

  lemma BytesJoin16(v: bv16)
    ensures Join16(ByteOf(v as bv32, 0), ByteOf(v as bv32, 1)) == v
  {}

  /** A number below 256 survives the round trip through a byte. */
  lemma ByteRound(x: int)
    requires 0 <= x < 256
    ensures (x as bv8) as int == x
  {
    assert x % 256 == x;
  }

  /**
   * A register byte after a write of `v`: the bits set in `w` take the
   * written value, the others keep their current value.
   */
  function Merge(cur: bv8, v: bv8, w: bv8): bv8 { (cur & !w) | (v & w) }

  function Merge32(cur: bv32, v: bv32, w: bv32): bv32 { (cur & !w) | (v & w) }

  /** Through a full mask a write replaces the whole dword. */
  lemma MergeFull32(cur: bv32, v: bv32)
    ensures Merge32(cur, v, 0xffff_ffff) == v
  {}

  /** A mask update that clears nothing only sets bits. */
  lemma MaskSetOnly(v: bv16, on: bv16)
    ensures (v & !0) | on == v | on
  {}

  /** Writing back the value read before another write restores a byte. */
  lemma MergeRestore(a: bv8, x: bv8, w: bv8)
    ensures Merge(Merge(a, x, w), a, w) == a
  {}

  /** Byte-wise merging is word-wise merging of the composed words. */
  lemma JoinMerge(a0: bv8, a1: bv8, a2: bv8, a3: bv8, x: bv32, w0: bv8, w1: bv8, w2: bv8, w3: bv8)
    ensures Join32(Merge(a0, ByteOf(x, 0), w0), Merge(a1, ByteOf(x, 1), w1),
                   Merge(a2, ByteOf(x, 2), w2), Merge(a3, ByteOf(x, 3), w3))
            == Merge32(Join32(a0, a1, a2, a3), x, Join32(w0, w1, w2, w3))
  {}

  // ---------------------------------------------------------------------
  // Alignment (ALIGN and ALIGN_DOWN of the firmware's types.h)
  // ---------------------------------------------------------------------

  /** x rounded down to a multiple of a. */
  function AlignDown(x: int, a: int): (r: int)
    requires x >= 0 && a > 0
    ensures 0 <= r <= x < r + a
    ensures r % a == 0
  {
    DivMulBounds(x, a);
    x / a * a
  }

  /** x rounded up to a multiple of a. */
  function AlignUp(x: int, a: int): (r: int)
    requires x >= 0 && a > 0
    ensures x <= r < x + a
    ensures r % a == 0
  {
    DivMulBounds(x + a - 1, a);
    (x + a - 1) / a * a
  }

  /** ALIGN on a u64: the sum `x + a - 1` wraps modulo 2^64 before masking. */
  function AlignUp64(x: int, a: int): (r: int)
    requires 0 <= x < U64 && a > 0
    ensures 0 <= r < U64
  {
    AlignUp(x, a) % U64
  }

  /** A multiple of a is already aligned. */
  lemma AlignUpExact(x: int, a: int)
    requires x >= 0 && a > 0 && x % a == 0
    ensures AlignUp(x, a) == x
  {
    var q := x / a;
    assert x == q * a;
    DivModUnique(x + a - 1, a, q, a - 1);
  }

  /** Without wrap-around ALIGN on a u64 is exact rounding up. */
  lemma AlignUp64Exact(x: int, a: int)
    requires 0 <= x && a > 0 && x + a <= U64
    ensures AlignUp64(x, a) == AlignUp(x, a)
  {
    var r := AlignUp(x, a);
    assert 0 <= r < U64;
    DivModUnique(r, U64, 0, r);
  }

  lemma DivMulBounds(x: int, a: int)
    requires x >= 0 && a > 0
    ensures 0 <= x / a * a <= x < x / a * a + a
    ensures (x / a * a) % a == 0
  {
    var q := x / a;
    assert x == q * a + x % a;
    assert (q * a) % a == 0 by { MulMod(q, a); }
  }

  lemma MulMod(q: int, a: int)
    requires q >= 0 && a > 0
    ensures (q * a) % a == 0
  {
    DivModUnique(q * a, a, q, 0);
  }

  /** Euclidean division has a unique quotient and remainder. */
  lemma DivModUnique(x: int, a: int, q: int, r: int)
    requires a > 0 && 0 <= r < a && x == q * a + r
    ensures x / a == q && x % a == r
  {
    var q' := x / a;
    var r' := x % a;
    assert x == q' * a + r';
    assert (q - q') * a == r' - r;
    if q - q' >= 1 {
      MulAtLeast(q - q', a);
    } else if q' - q >= 1 {
      MulAtLeast(q' - q, a);
    }
  }

  /** Reducing a partial sum first does not change the reduced total. */
  lemma ModAdd(x: int, y: int, m: int)
    requires x >= 0 && y >= 0 && m > 0
    ensures (x % m + y) % m == (x + y) % m
  {
    var q1 := x / m;
    var s := x % m + y;
    var q2 := s / m;
    assert x == q1 * m + x % m;
    assert s == q2 * m + s % m;
    assert x + y == (q1 + q2) * m + s % m;
    DivModUnique(x + y, m, q1 + q2, s % m);
  }

  lemma MulAtLeast(d: int, a: int)
    requires d >= 1 && a > 0
    ensures d * a >= a
  {}

  /** Powers of two: 1, 2, 4, ... */
  ghost predicate IsPow2(x: int)
    decreases if x > 0 then x else 0
  {
    x == 1 || (x > 1 && x % 2 == 0 && IsPow2(x / 2))
  }

  /** Of two powers of two, the larger is a multiple of the smaller. */
  lemma {:induction false} Pow2Multiple(a: int, b: int)
    requires IsPow2(a) && IsPow2(b) && a <= b
    ensures b % a == 0
    decreases b
  {
    if a == b {
    } else if a == 1 {
    } else {
      assert a > 1 && b > 1;
      Pow2Multiple(a / 2, b / 2);
      var k := (b / 2) / (a / 2);
      assert b / 2 == k * (a / 2);
      assert b == k * a;
      MulMod(k, a);
    }
  }

  /** A multiple of a multiple of `a` is a multiple of `a`. */
  lemma MultipleTrans(x: int, a: int, b: int)
    requires x >= 0 && a > 0 && b > 0 && b % a == 0 && x % b == 0
    ensures x % a == 0
  {
    var j := b / a;
    var i := x / b;
    assert b == j * a;
    assert x == i * b;
    assert x == (i * j) * a;
    assert i * j >= 0;
    MulMod(i * j, a);
  }
}
