/**
 * Unsigned 64-bit integers and the bit operations the snowflake generator
 * uses on them, written over unbounded integers: a left shift that drops
 * the bits pushed past bit 63, bitwise OR, and the reinterpretation of a
 * u64 as an i64 that Rust's `as i64` performs.
 */
module Bits {

  const U64_LIMIT: int := 0x1_0000_0000_0000_0000
  const I64_MIN: int := -0x8000_0000_0000_0000
  const I64_MAX: int := 0x7FFF_FFFF_FFFF_FFFF
  const I32_MIN: int := -0x8000_0000
  const I32_MAX: int := 0x7FFF_FFFF

  type U64 = x: int | 0 <= x < 0x1_0000_0000_0000_0000
  type I64 = x: int | -0x8000_0000_0000_0000 <= x <= 0x7FFF_FFFF_FFFF_FFFF
  type I32 = x: int | -0x8000_0000 <= x <= 0x7FFF_FFFF
  type I16 = x: int | -0x8000 <= x <= 0x7FFF
  type U16 = x: int | 0 <= x < 0x1_0000
  type Byte = x: int | 0 <= x < 0x100

  /** `x as u64` on an i16: sign extension, so negative values land at the top of the range. */
  function I16AsU64(x: I16): (r: U64)
    ensures x >= 0 ==> r == x
    ensures x < 0 ==> r == x + U64_LIMIT && r >= U64_LIMIT - 0x8000
  {
    if x >= 0 then x else x + U64_LIMIT
  }

  function Pow2(k: nat): (r: nat)
    ensures r >= 1
  {
    if k == 0 then 1 else 2 * Pow2(k - 1)
  }

  /** Bitwise OR of two non-negative integers, one bit at a time from the lowest. */
  function BitOr(a: nat, b: nat): nat
    decreases a + b
  {
    if a == 0 && b == 0 then 0
    else 2 * BitOr(a / 2, b / 2) + (if a % 2 == 1 || b % 2 == 1 then 1 else 0)
  }

  /** `x as u16` on an i16, and back. */
  function I16AsU16(x: I16): (r: U16)
    ensures x >= 0 ==> r == x
    ensures x < 0 ==> r == x + 0x1_0000
  {
    if x >= 0 then x else x + 0x1_0000
  }

  function U16AsI16(x: U16): (r: I16)
    ensures x <= 0x7FFF ==> r == x
    ensures x > 0x7FFF ==> r == x - 0x1_0000
  {
    if x >= 0x8000 then x - 0x1_0000 else x
  }

  /** Casting an i16 to u16 and back gives the value back. */
  lemma I16U16RoundTrip(x: I16)
    ensures U16AsI16(I16AsU16(x)) == x
  {
  }

  /** `x as i16` on a u64: the low 16 bits, read as two's complement. */
  function U64AsI16(x: U64): (r: I16)
    ensures x <= 0x7FFF ==> r == x
    ensures (r - x) % 0x1_0000 == 0
  {
    var low := x % 0x1_0000;
    if low >= 0x8000 then low - 0x1_0000 else low
  }

  /** Bitwise AND of two non-negative integers, one bit at a time from the lowest. */
  function BitAnd(a: nat, b: nat): nat
    decreases a + b
  {
    if a == 0 || b == 0 then 0
    else 2 * BitAnd(a / 2, b / 2) + (if a % 2 == 1 && b % 2 == 1 then 1 else 0)
  }

  /** `x << k` on a u64: the product modulo 2^64. */
  function Shl64(x: U64, k: nat): U64 {
    (x * Pow2(k)) % U64_LIMIT
  }

  /** `x as i64` on a u64: values with bit 63 set become negative. */
  function AsI64(x: U64): (r: I64)
    ensures 0 <= x < 0x8000_0000_0000_0000 ==> r == x
    ensures 0x8000_0000_0000_0000 <= x ==> r == x - U64_LIMIT
  {
    if x < 0x8000_0000_0000_0000 then x else x - U64_LIMIT
  }

  lemma Pow2Values()
    ensures Pow2(10) == 0x400 && Pow2(12) == 0x1000 && Pow2(22) == 0x40_0000
    ensures Pow2(64) == U64_LIMIT
  {
    assert Pow2(2) == 4;
    assert Pow2(4) == 16;
    assert Pow2(8) == 256;
    assert Pow2(10) == 0x400;
    assert Pow2(12) == 0x1000;
    assert Pow2(16) == 0x1_0000;
    assert Pow2(22) == 0x40_0000;
    assert Pow2(32) == 0x1_0000_0000 by { Pow2Add(16, 16); }
    Pow2Add(32, 32);
  }

  lemma {:induction false} Pow2Add(j: nat, k: nat)
    ensures Pow2(j + k) == Pow2(j) * Pow2(k)
  {
    if j > 0 {
      Pow2Add(j - 1, k);
    }
  }

  lemma {:induction false} BitOrZero(a: nat)
    ensures BitOr(a, 0) == a
    decreases a
  {
    if a > 0 {
      BitOrZero(a / 2);
    }
  }

  /** ORing a value into bits that are zero is addition. */
  lemma {:induction false} BitOrLowBits(a: nat, b: nat, k: nat)
    requires b < Pow2(k)
    ensures BitOr(a * Pow2(k), b) == a * Pow2(k) + b
  {
    if k == 0 {
      BitOrZero(a * Pow2(k));
    } else {
      var h := a * Pow2(k - 1);
      assert a * Pow2(k) == 2 * h;
      BitOrLowBits(a, b / 2, k - 1);
      if h == 0 && b == 0 {
      } else {
        assert (2 * h) / 2 == h && (2 * h) % 2 == 0;
      }
    }
  }

  /** OR never sets a bit above the highest bit of its operands. */
  lemma {:induction false} BitOrBound(a: nat, b: nat, n: nat)
    requires a < Pow2(n) && b < Pow2(n)
    ensures BitOr(a, b) < Pow2(n)
    decreases a + b
  {
    if (a != 0 || b != 0) && n > 0 {
      BitOrBound(a / 2, b / 2, n - 1);
    }
  }

  lemma MulSign(t: int, m: int)
    requires m > 0
    ensures t >= 1 ==> t * m >= m
    ensures t <= -1 ==> t * m <= -m
  {
    assert t * m - m == (t - 1) * m;
    assert t * m + m == (t + 1) * m;
  }

  /** Quotient and remainder are determined by any decomposition with the remainder in range. */
  lemma DivModUnique(x: int, q: int, m: int, r: int)
    requires 0 < m && 0 <= r < m && x == q * m + r
    ensures x / m == q && x % m == r
  {
    var d := x / m;
    assert x == d * m + x % m;
    assert (d - q) * m == r - x % m by {
      assert (d - q) * m == d * m - q * m;
    }
    MulSign(d - q, m);
  }

  lemma ModDouble(a: nat, p: nat)
    requires p >= 1
    ensures a % (2 * p) == 2 * ((a / 2) % p) + a % 2
  {
    var h := a / 2;
    var q := h / p;
    var r := h % p;
    assert h == q * p + r;
    assert a == 2 * h + a % 2;
    assert a == q * (2 * p) + (2 * r + a % 2) by {
      assert 2 * (q * p) == q * (2 * p);
    }
    DivModUnique(a, q, 2 * p, 2 * r + a % 2);
  }

  lemma BitAndOdd(a: nat, c: nat)
    requires a > 0
    ensures BitAnd(a, 2 * c + 1) == 2 * BitAnd(a / 2, c) + a % 2
  {
    assert (2 * c + 1) / 2 == c && (2 * c + 1) % 2 == 1;
  }

  /** One bit of the mask induction: from the mask for `p` on `a / 2` to the mask for `2 * p` on `a`. */
  lemma MaskStep(a: nat, h: nat, p: nat, c: nat)
    requires a > 0 && h == a / 2 && p >= 1 && c == p - 1
    requires BitAnd(h, c) == h % p
    ensures BitAnd(a, 2 * c + 1) == a % (2 * p)
  {
    BitAndOdd(a, c);
    ModDouble(a, p);
  }

  /** Masking with 2^k - 1 keeps the low k bits: it is the remainder modulo 2^k. */
  lemma {:induction false} BitAndLowMask(a: nat, k: nat)
    ensures BitAnd(a, Pow2(k) - 1) == a % Pow2(k)
  {
    if k == 0 {
      assert Pow2(k) - 1 == 0;
    } else if a == 0 {
    } else {
      var p := Pow2(k - 1);
      assert Pow2(k) == 2 * p;
      BitAndLowMask(a / 2, k - 1);
      MaskStep(a, a / 2, p, p - 1);
      assert Pow2(k) - 1 == 2 * (p - 1) + 1;
    }
  }
}
