/**
 The `Rgb24` colour value: three `u8` channels and the channel-wise operations on them.
 `new` and `new_grey` build the value directly; `floor`, `ceil`, `saturating_add` and
 `saturating_sub` apply a primitive (`Ord::max`, `Ord::min`, `u8::saturating_add`,
 `u8::saturating_sub`) to each channel. The five scalar and normalised operations are
 built, as in the library, from a nested `single_channel` helper applied to the red,
 green and blue channels independently; each helper computes in `u32` and narrows with
 `as u8`, and its contract states the exact integer it yields, which shows that the
 narrowing never truncates.
 */
module Rgb {
  import opened Primitives

  /** A 24-bit colour. */
  datatype Rgb24 = Rgb24(r: u8, g: u8, b: u8)

  /** Names of the three channels, so that a contract can speak of all of them at once. */
  datatype Channel = R | G | B

  function Get(x: Rgb24, ch: Channel): u8 {
    match ch
    case R => x.r
    case G => x.g
    case B => x.b
  }

  /** Two colours are equal exactly when they agree on every channel. */
  lemma Extensionality(x: Rgb24, y: Rgb24)
    ensures (forall ch :: Get(x, ch) == Get(y, ch)) <==> x == y
  {
    if forall ch :: Get(x, ch) == Get(y, ch) {
      assert Get(x, R) == Get(y, R);
      assert Get(x, G) == Get(y, G);
      assert Get(x, B) == Get(y, B);
    }
  }

  /** Every channel of `x` is at most the same channel of `y`. */
  predicate ChannelwiseLe(x: Rgb24, y: Rgb24) {
    x.r <= y.r && x.g <= y.g && x.b <= y.b
  }

  predicate IsGrey(x: Rgb24) {
    x.r == x.g == x.b
  }

  const BLACK: Rgb24 := Rgb24(0, 0, 0)
  const WHITE: Rgb24 := Rgb24(U8_MAX, U8_MAX, U8_MAX)

  // ---------------------------------------------------------------- construction

  function New(r: u8, g: u8, b: u8): (x: Rgb24)
    ensures Get(x, R) == r && Get(x, G) == g && Get(x, B) == b
  {
    Rgb24(r, g, b)
  }

  function NewGrey(c: u8): (x: Rgb24)
    ensures IsGrey(x) && x.r == c
  {
    New(c, c, c)
  }

  // ---------------------------------------------------------------- clamps

  /** `floor(min)`: every channel raised to at least `minimum`. */
  function Floor(x: Rgb24, minimum: u8): (y: Rgb24)
    ensures ChannelwiseLe(x, y)
    ensures forall ch :: Get(y, ch) >= minimum
    ensures forall ch :: Get(y, ch) == Get(x, ch) || Get(y, ch) == minimum
  {
    Rgb24(MaxU8(x.r, minimum), MaxU8(x.g, minimum), MaxU8(x.b, minimum))
  }

  /** `ceil(max)`: every channel lowered to at most `maximum`. */
  function Ceil(x: Rgb24, maximum: u8): (y: Rgb24)
    ensures ChannelwiseLe(y, x)
    ensures forall ch :: Get(y, ch) <= maximum
    ensures forall ch :: Get(y, ch) == Get(x, ch) || Get(y, ch) == maximum
  {
    Rgb24(MinU8(x.r, maximum), MinU8(x.g, maximum), MinU8(x.b, maximum))
  }

  // ---------------------------------------------------------------- additive

  /** `saturating_add`: the exact channel sums, clamped at 255. */
  function SaturatingAdd(x: Rgb24, y: Rgb24): (z: Rgb24)
    ensures forall ch :: Get(z, ch) == Saturate(Get(x, ch) + Get(y, ch))
  {
    Rgb24(SaturatingAddU8(x.r, y.r), SaturatingAddU8(x.g, y.g), SaturatingAddU8(x.b, y.b))
  }

  /** `saturating_sub`: the exact channel differences, clamped at 0. */
  function SaturatingSub(x: Rgb24, y: Rgb24): (z: Rgb24)
    ensures forall ch :: Get(z, ch) == Saturate(Get(x, ch) - Get(y, ch))
  {
    Rgb24(SaturatingSubU8(x.r, y.r), SaturatingSubU8(x.g, y.g), SaturatingSubU8(x.b, y.b))
  }

  // ---------------------------------------------------------------- scalar

  /** The `u32` products `channel * scalar` of all three channels fit in `u32`. A
      debug build panics when one of them does not; see the release-build model for
      what happens otherwise. */
  predicate ProductsFitU32(x: Rgb24, scalar: u32) {
    x.r * scalar <= U32_MAX && x.g * scalar <= U32_MAX && x.b * scalar <= U32_MAX
  }

  /** The `single_channel` helper of `saturating_scalar_mul`. */
  function ScalarMulChannel(c: u8, scalar: u32): (r: u8)
    requires c * scalar <= U32_MAX
    ensures r == Saturate(c * scalar)
  {
    var product: u32 := c * scalar;
    AsU8(MinU32(product, U8_MAX))
  }

  /** `saturating_scalar_mul(scalar)`. */
  function SaturatingScalarMul(x: Rgb24, scalar: u32): (y: Rgb24)
    requires ProductsFitU32(x, scalar)
    ensures forall ch :: Get(y, ch) == Saturate(Get(x, ch) * scalar)
  {
    Rgb24(ScalarMulChannel(x.r, scalar), ScalarMulChannel(x.g, scalar), ScalarMulChannel(x.b, scalar))
  }

  /** The `single_channel` helper of `scalar_div`; its `.min(255)` never binds. */
  function ScalarDivChannel(c: u8, scalar: u32): (r: u8)
    requires scalar != 0
    ensures r == c / scalar && r <= c
    ensures MinU32(c / scalar, U8_MAX) == c / scalar
  {
    DivShrinks(c, scalar);
    var quotient: u32 := c / scalar;
    AsU8(MinU32(quotient, U8_MAX))
  }

  /** `scalar_div(scalar)`: floor division of every channel; the library panics on a
      zero divisor whatever the colour. */
  function ScalarDiv(x: Rgb24, scalar: u32): (y: Rgb24)
    requires scalar != 0
    ensures forall ch :: Get(y, ch) == Get(x, ch) / scalar
    ensures ChannelwiseLe(y, x)
  {
    Rgb24(ScalarDivChannel(x.r, scalar), ScalarDivChannel(x.g, scalar), ScalarDivChannel(x.b, scalar))
  }

  /** The `single_channel` helper of `saturating_scalar_mul_div`: multiply, then
      divide, then clamp. */
  function ScalarMulDivChannel(c: u8, numerator: u32, denominator: u32): (r: u8)
    requires denominator != 0 && c * numerator <= U32_MAX
    ensures r == Saturate((c * numerator) / denominator)
  {
    var product: u32 := c * numerator;
    var quotient: u32 := product / denominator;
    AsU8(MinU32(quotient, U8_MAX))
  }

  /** `saturating_scalar_mul_div(numerator, denominator)`. */
  function SaturatingScalarMulDiv(x: Rgb24, numerator: u32, denominator: u32): (y: Rgb24)
    requires denominator != 0 && ProductsFitU32(x, numerator)
    ensures forall ch :: Get(y, ch) == Saturate((Get(x, ch) * numerator) / denominator)
  {
    Rgb24(ScalarMulDivChannel(x.r, numerator, denominator),
          ScalarMulDivChannel(x.g, numerator, denominator),
          ScalarMulDivChannel(x.b, numerator, denominator))
  }

  // ---------------------------------------------------------------- normalised

  /** The product of two channels read as fractions of 255, floored: the
      `single_channel` helper of both `normalised_mul` and `normalised_scalar_mul`
      (the library writes the same body twice). No clamp is needed: the result never
      exceeds either operand. */
  function NormalisedChannel(a: u8, b: u8): (r: u8)
    ensures r == (a * b) / U8_MAX
    ensures r <= a && r <= b
  {
    MulLe(a, b, U8_MAX, U8_MAX);
    var product: u32 := a * b;
    NormalisedBound(a, b);
    AsU8(product / U8_MAX)
  }

  lemma NormalisedBound(a: u8, b: u8)
    ensures (a * b) / U8_MAX <= a && (a * b) / U8_MAX <= b
  {
    MulLe(a, b, a, U8_MAX);
    MulLe(a, b, U8_MAX, b);
    DivLeWhenLeMul(a * b, U8_MAX, a);
    DivLeWhenLeMul(a * b, U8_MAX, b);
  }

  /** `normalised_mul(other)`. */
  function NormalisedMul(x: Rgb24, y: Rgb24): (z: Rgb24)
    ensures forall ch :: Get(z, ch) == (Get(x, ch) * Get(y, ch)) / U8_MAX
    ensures ChannelwiseLe(z, x) && ChannelwiseLe(z, y)
  {
    Rgb24(NormalisedChannel(x.r, y.r), NormalisedChannel(x.g, y.g), NormalisedChannel(x.b, y.b))
  }

  /** `normalised_scalar_mul(scalar)`. */
  function NormalisedScalarMul(x: Rgb24, scalar: u8): (y: Rgb24)
    ensures forall ch :: Get(y, ch) == (Get(x, ch) * scalar) / U8_MAX
    ensures ChannelwiseLe(y, x) && forall ch :: Get(y, ch) <= scalar
  {
    Rgb24(NormalisedChannel(x.r, scalar), NormalisedChannel(x.g, scalar), NormalisedChannel(x.b, scalar))
  }
}
