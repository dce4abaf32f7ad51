/**
 Rust's fixed-width unsigned integers and the primitive operations on them that the
 colour arithmetic of `Rgb24` is built from: the `as u8` cast, `Ord::min` / `Ord::max`,
 `u8::saturating_add`, `u8::saturating_sub` and the wrapping `u32` multiplication of a
 release build.
 */
module Primitives {

  /** Rust `u8`. */
  type u8 = x: int | 0 <= x < 0x100

  /** Rust `u32`. */
  type u32 = x: int | 0 <= x < 0x1_0000_0000

  /** Rust `u64`, wide enough for the product of a `u8` and a `u32`. */
  type u64 = x: int | 0 <= x < 0x1_0000_0000_0000_0000

  /** `u8::MAX`. */
  const U8_MAX: u8 := 0xFF

  /** `u32::MAX`. */
  const U32_MAX: u32 := 0xFFFF_FFFF

  /** The exact integer `v` clamped into the range of `u8`: the meaning every
      saturating operation of the library is meant to have. */
  function Saturate(v: int): u8 {
    if v < 0 then 0 else if v > U8_MAX then U8_MAX else v
  }

  /** The `as u8` cast of an unsigned value: keeps the low eight bits. */
  function AsU8(v: nat): (r: u8)
    ensures v <= U8_MAX ==> r == v
  {
    v % 0x100
  }

  // Rust's `Ord::min` and `Ord::max` are generic; the library uses them at `u8`, and
  // at `u32` for the clamps, and the corrected overflow model uses `min` at `u64`.
  // Each instance is written out at its own type, as the subset types require.

  /** `Ord::min` on `u32`: the first argument unless the second is strictly smaller. */
  function MinU32(a: u32, b: u32): (r: u32)
    ensures r <= a && r <= b
    ensures r == a || r == b
  {
    if a <= b then a else b
  }

  /** `Ord::min` on `u64`. */
  function MinU64(a: u64, b: u64): (r: u64)
    ensures r <= a && r <= b
    ensures r == a || r == b
  {
    if a <= b then a else b
  }

  /** `Ord::max` on `u8`: the second argument unless the first is strictly larger. */
  function MaxU8(a: u8, b: u8): (r: u8)
    ensures r >= a && r >= b
    ensures r == a || r == b
  {
    if a <= b then b else a
  }

  /** `Ord::min` on `u8`. */
  function MinU8(a: u8, b: u8): (r: u8)
    ensures r <= a && r <= b
    ensures r == a || r == b
  {
    if a <= b then a else b
  }

  /** `u8::saturating_add`: the wrapped sum, replaced by `u8::MAX` when the addition
      carried out of the eighth bit (the wrapped sum is then below an operand). */
  function SaturatingAddU8(a: u8, b: u8): (r: u8)
    ensures r == Saturate(a + b)
  {
    var sum := (a + b) % 0x100;
    if sum < a then U8_MAX else sum
  }

  /** `u8::saturating_sub`: the wrapped difference, replaced by 0 when the subtraction
      borrowed (the wrapped difference is then above the minuend). */
  function SaturatingSubU8(a: u8, b: u8): (r: u8)
    ensures r == Saturate(a - b)
  {
    var diff := (a - b) % 0x100;
    if diff > a then 0 else diff
  }

  /** `u32` multiplication of a release build, which wraps modulo 2^32. */
  function WrappingMulU32(a: u32, b: u32): (r: u32)
    ensures a * b <= U32_MAX ==> r == a * b
  {
    (a * b) % 0x1_0000_0000
  }

  /** Monotonicity of multiplication of naturals, used for the bounds on every
      wide intermediate product. */
  lemma MulLe(a: nat, b: nat, bigA: nat, bigB: nat)
    requires a <= bigA && b <= bigB
    ensures a * b <= bigA * bigB
  {
    assert a * b <= bigA * b;
    assert bigA * b <= bigA * bigB;
  }

  /** `p <= d * q` with `d > 0` gives `p / d <= q`. */
  lemma DivLeWhenLeMul(p: nat, d: nat, q: nat)
    requires d > 0 && p <= q * d
    ensures p / d <= q
  {
    if p / d > q {
      assert p / d >= q + 1;
      MulLe(q + 1, d, p / d, d);
      assert false;
    }
  }

  /** Dividing by a positive integer never increases a natural number. */
  lemma DivShrinks(c: nat, d: nat)
    requires d > 0
    ensures c / d <= c
  {
    MulLe(c, 1, c, d);
    DivLeWhenLeMul(c, d, c);
  }

  /** Floor division is determined by the quotient-remainder decomposition. */
  lemma DivUnique(c: int, d: int, q: int, rem: int)
    requires d > 0 && 0 <= rem < d && c == q * d + rem
    ensures c / d == q
  {
    var q0 := c / d;
    assert (q - q0) * d == c % d - rem;
    if q > q0 {
      MulLe(1, d, q - q0, d);
      assert false;
    } else if q < q0 {
      MulLe(1, d, q0 - q, d);
      assert false;
    }
  }

  lemma MulDivCancel(c: nat, d: nat)
    requires d > 0
    ensures (c * d) / d == c
  {
    DivUnique(c * d, d, c, 0);
  }

  lemma DivOfSmaller(c: nat, d: nat)
    requires c < d
    ensures c / d == 0
  {
    DivUnique(c, d, 0, c);
  }

  lemma DivMonotone(p: nat, q: nat, d: nat)
    requires p <= q && d > 0
    ensures p / d <= q / d
  {
    if p / d > q / d {
      var k := p / d - q / d;
      MulLe(1, d, k, d);
      assert false;
    }
  }

  /** Dividing by `s` and then by `t` is dividing by `s * t`. */
  lemma DivDiv(c: nat, s: nat, t: nat)
    requires s > 0 && t > 0
    ensures (c / s) / t == c / (s * t)
  {
    var q1, r1 := c / s, c % s;
    var q2, r2 := q1 / t, q1 % t;
    assert s * q1 == s * (t * q2 + r2) == (s * t) * q2 + s * r2;
    MulLe(s, r2, s, t - 1);
    assert s * (t - 1) + s == s * t;
    DivUnique(c, s * t, q2, s * r2 + r1);
  }
}
