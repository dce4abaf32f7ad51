/**
 What `saturating_scalar_mul` and `saturating_scalar_mul_div` compute when the `u32`
 product `channel * scalar` overflows. A debug build panics there; that case is the
 `ProductsFitU32` precondition of the main model. A release build wraps the product
 modulo 2^32 and the result is no longer saturated. The wide variants form the product
 in `u64`, where it always fits, and keep the saturating meaning for every scalar.
 */
module ReleaseOverflow {
  import opened Primitives
  import opened Rgb

  // ---------------------------------------------------------------- as written, release build

  /** The `single_channel` helper of `saturating_scalar_mul` in a release build: the
      product is reduced modulo 2^32 before the clamp. */
  function ScalarMulChannelWrapping(c: u8, scalar: u32): (r: u8)
    ensures r == Saturate((c * scalar) % 0x1_0000_0000)
  {
    var product := WrappingMulU32(c, scalar);
    AsU8(MinU32(product, U8_MAX))
  }

  /** `saturating_scalar_mul` of a release build: every channel is the wrapped product,
      clamped; it agrees with the main model whenever the products fit. */
  function SaturatingScalarMulWrapping(x: Rgb24, scalar: u32): (y: Rgb24)
    ensures forall ch :: Get(y, ch) == Saturate((Get(x, ch) * scalar) % 0x1_0000_0000)
    ensures ProductsFitU32(x, scalar) ==> y == SaturatingScalarMul(x, scalar)
  {
    Rgb24(ScalarMulChannelWrapping(x.r, scalar),
          ScalarMulChannelWrapping(x.g, scalar),
          ScalarMulChannelWrapping(x.b, scalar))
  }

  /** The `single_channel` helper of `saturating_scalar_mul_div` in a release build:
      the product is reduced modulo 2^32 before the division and the clamp. */
  function ScalarMulDivChannelWrapping(c: u8, numerator: u32, denominator: u32): (r: u8)
    requires denominator != 0
    ensures r == Saturate(((c * numerator) % 0x1_0000_0000) / denominator)
  {
    var product := WrappingMulU32(c, numerator);
    ClampQuotient(product, denominator);
    AsU8(MinU32(product / denominator, U8_MAX))
  }

  /** The `.min(255) as u8` after a `u32` division saturates the quotient. */
  lemma ClampQuotient(p: u32, d: u32)
    requires d != 0
    ensures p / d <= U32_MAX && AsU8(MinU32(p / d, U8_MAX)) == Saturate(p / d)
  {
    DivShrinks(p, d);
  }

  /** `saturating_scalar_mul_div` of a release build: every channel is the wrapped
      product divided and clamped; it agrees with the main model whenever the products
      fit. */
  function SaturatingScalarMulDivWrapping(x: Rgb24, numerator: u32, denominator: u32): (y: Rgb24)
    requires denominator != 0
    ensures forall ch :: Get(y, ch) == Saturate(((Get(x, ch) * numerator) % 0x1_0000_0000) / denominator)
    ensures ProductsFitU32(x, numerator) ==> y == SaturatingScalarMulDiv(x, numerator, denominator)
  {
    Rgb24(ScalarMulDivChannelWrapping(x.r, numerator, denominator),
          ScalarMulDivChannelWrapping(x.g, numerator, denominator),
          ScalarMulDivChannelWrapping(x.b, numerator, denominator))
  }

  // ---------------------------------------------------------------- corrected: u64 intermediate

  /** The single-channel multiply with the product formed in `u64`. */
  function ScalarMulChannelWide(c: u8, scalar: u32): (r: u8)
    ensures r == Saturate(c * scalar)
  {
    MulLe(c, scalar, U8_MAX, U32_MAX);
    var product: u64 := c * scalar;
    AsU8(MinU64(product, U8_MAX))
  }

  /** Saturating scalar multiplication for every `u32` scalar. */
  function SaturatingScalarMulWide(x: Rgb24, scalar: u32): (y: Rgb24)
    ensures forall ch :: Get(y, ch) == Saturate(Get(x, ch) * scalar)
  {
    Rgb24(ScalarMulChannelWide(x.r, scalar),
          ScalarMulChannelWide(x.g, scalar),
          ScalarMulChannelWide(x.b, scalar))
  }

  /** Where the `u32` products fit, the wide multiplication is the library's. */
  lemma WideScalarMulAgreesWithMain(x: Rgb24, scalar: u32)
    requires ProductsFitU32(x, scalar)
    ensures SaturatingScalarMulWide(x, scalar) == SaturatingScalarMul(x, scalar)
  {
    Extensionality(SaturatingScalarMulWide(x, scalar), SaturatingScalarMul(x, scalar));
  }

  /** The single-channel multiply-divide with the product formed in `u64`. */
  function ScalarMulDivChannelWide(c: u8, numerator: u32, denominator: u32): (r: u8)
    requires denominator != 0
    ensures r == Saturate((c * numerator) / denominator)
  {
    MulLe(c, numerator, U8_MAX, U32_MAX);
    var product: u64 := c * numerator;
    DivShrinks(product, denominator);
    var quotient: u64 := product / denominator;
    AsU8(MinU64(quotient, U8_MAX))
  }

  /** Saturating multiply-divide for every `u32` numerator. */
  function SaturatingScalarMulDivWide(x: Rgb24, numerator: u32, denominator: u32): (y: Rgb24)
    requires denominator != 0
    ensures forall ch :: Get(y, ch) == Saturate((Get(x, ch) * numerator) / denominator)
  {
    Rgb24(ScalarMulDivChannelWide(x.r, numerator, denominator),
          ScalarMulDivChannelWide(x.g, numerator, denominator),
          ScalarMulDivChannelWide(x.b, numerator, denominator))
  }

  /** Where the `u32` products fit, the wide multiply-divide is the library's. */
  lemma WideMulDivAgreesWithMain(x: Rgb24, numerator: u32, denominator: u32)
    requires denominator != 0 && ProductsFitU32(x, numerator)
    ensures SaturatingScalarMulDivWide(x, numerator, denominator) == SaturatingScalarMulDiv(x, numerator, denominator)
  {
    Extensionality(SaturatingScalarMulDivWide(x, numerator, denominator),
                   SaturatingScalarMulDiv(x, numerator, denominator));
  }

  /** With the wide product, every scalar of 255 or more saturates every channel that
      is not zero, with no bound on the scalar. */
  lemma WideScalarMulSaturates(x: Rgb24, s: u32)
    requires s >= U8_MAX
    ensures forall ch :: Get(x, ch) > 0 ==> Get(SaturatingScalarMulWide(x, s), ch) == U8_MAX
  {
    forall ch | Get(x, ch) > 0
      ensures Get(SaturatingScalarMulWide(x, s), ch) == U8_MAX
    {
      MulLe(1, U8_MAX, Get(x, ch), s);
    }
  }

  /** With the wide product, scaling by `k / k` is the identity for every non-zero `k`. */
  lemma WideMulDivSameIsIdentity(x: Rgb24, k: u32)
    requires k != 0
    ensures SaturatingScalarMulDivWide(x, k, k) == x
  {
    var y := SaturatingScalarMulDivWide(x, k, k);
    forall ch ensures Get(y, ch) == Get(x, ch) {
      MulDivCancel(Get(x, ch), k);
    }
    Extensionality(y, x);
  }

  // ---------------------------------------------------------------- the discrepancy

  /** White times 16843010 (just above `u32::MAX / 255`) should saturate to white; the
      release build wraps 255 * 16843010 = 2^32 + 254 to 254 in every channel. */
  lemma WrappingScalarMulDoesNotSaturate()
    ensures !ProductsFitU32(WHITE, 16843010)
    ensures SaturatingScalarMulWrapping(WHITE, 16843010) == NewGrey(254)
    ensures SaturatingScalarMulWide(WHITE, 16843010) == WHITE
  {
  }

  /** White scaled by 16843010 / 16843010 should stay white; the release build wraps the
      product to 254 and the quotient is black. */
  lemma WrappingMulDivLosesColour()
    ensures !ProductsFitU32(WHITE, 16843010)
    ensures SaturatingScalarMulDivWrapping(WHITE, 16843010, 16843010) == BLACK
    ensures SaturatingScalarMulDivWide(WHITE, 16843010, 16843010) == WHITE
  {
    WideMulDivSameIsIdentity(WHITE, 16843010);
  }
}
