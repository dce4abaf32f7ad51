/**
 Laws of the `Rgb24` operations: identities, idempotence, commutativity, the bounds
 that make every narrowing safe, and the round trips that tie the operations to one
 another.
 */
module RgbLaws {
  import opened Primitives
  import opened Rgb

  /** Every channel of `x` is at least `m`. */
  predicate AllAtLeast(x: Rgb24, m: u8) {
    x.r >= m && x.g >= m && x.b >= m
  }

  /** Every channel of `x` is at most `m`. */
  predicate AllAtMost(x: Rgb24, m: u8) {
    x.r <= m && x.g <= m && x.b <= m
  }

  /** Channel-wise maximum of two colours. */
  function Join(x: Rgb24, y: Rgb24): Rgb24 {
    Rgb24(MaxU8(x.r, y.r), MaxU8(x.g, y.g), MaxU8(x.b, y.b))
  }

  // ---------------------------------------------------------------- construction

  /** `new` builds exactly the colour whose channels it is given. */
  lemma NewRoundTrip(x: Rgb24)
    ensures New(x.r, x.g, x.b) == x
  {
  }

  /** The colours `new_grey` builds are exactly the achromatic ones. */
  lemma GreyIffNewGrey(x: Rgb24)
    ensures IsGrey(x) <==> x == NewGrey(x.r)
    ensures NewGrey(x.r) == New(x.r, x.r, x.r)
  {
  }

  // ---------------------------------------------------------------- clamps

  lemma FloorZeroIsIdentity(x: Rgb24)
    ensures Floor(x, 0) == x
  {
  }

  lemma CeilMaxIsIdentity(x: Rgb24)
    ensures Ceil(x, U8_MAX) == x
  {
  }

  /** `floor(m)` is the least colour above `x` whose channels are all at least `m`. */
  lemma FloorIsLeastAbove(x: Rgb24, m: u8, y: Rgb24)
    ensures ChannelwiseLe(Floor(x, m), y) <==> ChannelwiseLe(x, y) && AllAtLeast(y, m)
  {
  }

  /** `ceil(m)` is the greatest colour below `x` whose channels are all at most `m`. */
  lemma CeilIsGreatestBelow(x: Rgb24, m: u8, y: Rgb24)
    ensures ChannelwiseLe(y, Ceil(x, m)) <==> ChannelwiseLe(y, x) && AllAtMost(y, m)
  {
  }

  /** Two floors in a row are one floor at the larger minimum; in particular
      `floor` is idempotent. */
  lemma FloorFloor(x: Rgb24, m: u8, n: u8)
    ensures Floor(Floor(x, m), n) == Floor(x, MaxU8(m, n))
    ensures Floor(Floor(x, m), m) == Floor(x, m)
  {
  }

  /** Two ceilings in a row are one ceiling at the smaller maximum; in particular
      `ceil` is idempotent. */
  lemma CeilCeil(x: Rgb24, m: u8, n: u8)
    ensures Ceil(Ceil(x, m), n) == Ceil(x, MinU8(m, n))
    ensures Ceil(Ceil(x, m), m) == Ceil(x, m)
  {
  }

  // ---------------------------------------------------------------- additive

  lemma SaturatingAddCommutative(x: Rgb24, y: Rgb24)
    ensures SaturatingAdd(x, y) == SaturatingAdd(y, x)
  {
    Extensionality(SaturatingAdd(x, y), SaturatingAdd(y, x));
  }

  /** Saturating at 255 after each addition is the same as saturating once at the
      end, so the grouping of several additions does not matter. */
  lemma SaturatingAddAssociative(x: Rgb24, y: Rgb24, z: Rgb24)
    ensures SaturatingAdd(SaturatingAdd(x, y), z) == SaturatingAdd(x, SaturatingAdd(y, z))
  {
    var left := SaturatingAdd(SaturatingAdd(x, y), z);
    var right := SaturatingAdd(x, SaturatingAdd(y, z));
    forall ch ensures Get(left, ch) == Saturate(Get(x, ch) + Get(y, ch) + Get(z, ch)) == Get(right, ch) {
    }
    Extensionality(left, right);
  }

  /** Adding never darkens a channel of either operand; black is the identity. */
  lemma SaturatingAddInflationary(x: Rgb24, y: Rgb24)
    ensures ChannelwiseLe(x, SaturatingAdd(x, y)) && ChannelwiseLe(y, SaturatingAdd(x, y))
    ensures SaturatingAdd(x, BLACK) == x
  {
    Extensionality(SaturatingAdd(x, BLACK), x);
  }

  /** Subtracting never brightens a channel of `x`; black is the identity and a
      colour minus itself is black. */
  lemma SaturatingSubDeflationary(x: Rgb24, y: Rgb24)
    ensures ChannelwiseLe(SaturatingSub(x, y), x)
    ensures SaturatingSub(x, BLACK) == x
    ensures SaturatingSub(x, x) == BLACK
  {
    Extensionality(SaturatingSub(x, BLACK), x);
    Extensionality(SaturatingSub(x, x), BLACK);
  }

  /** No channel sum of `x` and `y` exceeds 255. */
  predicate AddFits(x: Rgb24, y: Rgb24) {
    x.r + y.r <= U8_MAX && x.g + y.g <= U8_MAX && x.b + y.b <= U8_MAX
  }

  /** When no channel saturates, subtraction undoes addition. */
  lemma SubUndoesAdd(x: Rgb24, y: Rgb24)
    requires AddFits(x, y)
    ensures SaturatingSub(SaturatingAdd(x, y), y) == x
  {
    var z := SaturatingSub(SaturatingAdd(x, y), y);
    Extensionality(z, x);
  }

  /** Subtracting `y` and adding it back raises `x` to `y` channel by channel. */
  lemma AddAfterSubIsJoin(x: Rgb24, y: Rgb24)
    ensures SaturatingAdd(SaturatingSub(x, y), y) == Join(x, y)
  {
  }

  // ---------------------------------------------------------------- scalar multiplication

  lemma ScalarMulByOneAndZero(x: Rgb24)
    ensures ProductsFitU32(x, 1) && SaturatingScalarMul(x, 1) == x
    ensures ProductsFitU32(x, 0) && SaturatingScalarMul(x, 0) == BLACK
  {
    Extensionality(SaturatingScalarMul(x, 1), x);
    Extensionality(SaturatingScalarMul(x, 0), BLACK);
  }

  /** Multiplying by two is adding a colour to itself. */
  lemma ScalarMulTwoIsAddSelf(x: Rgb24)
    ensures ProductsFitU32(x, 2) && SaturatingScalarMul(x, 2) == SaturatingAdd(x, x)
  {
    Extensionality(SaturatingScalarMul(x, 2), SaturatingAdd(x, x));
  }

  /** A larger scalar never gives a darker channel. */
  lemma ScalarMulMonotone(x: Rgb24, s: u32, t: u32)
    requires s <= t && ProductsFitU32(x, t)
    ensures ProductsFitU32(x, s)
    ensures ChannelwiseLe(SaturatingScalarMul(x, s), SaturatingScalarMul(x, t))
  {
    MulLe(x.r, s, x.r, t);
    MulLe(x.g, s, x.g, t);
    MulLe(x.b, s, x.b, t);
    var lo, hi := SaturatingScalarMul(x, s), SaturatingScalarMul(x, t);
    assert Get(lo, R) <= Get(hi, R) && Get(lo, G) <= Get(hi, G) && Get(lo, B) <= Get(hi, B);
  }

  /** A scalar of 255 or more (whose products still fit in `u32`) saturates every
      channel that is not zero. */
  lemma ScalarMulLargeSaturates(x: Rgb24, s: u32)
    requires s >= U8_MAX && ProductsFitU32(x, s)
    ensures forall ch :: Get(x, ch) > 0 ==> Get(SaturatingScalarMul(x, s), ch) == U8_MAX
  {
    forall ch | Get(x, ch) > 0
      ensures Get(SaturatingScalarMul(x, s), ch) == U8_MAX
    {
      MulLe(1, U8_MAX, Get(x, ch), s);
    }
  }

  // ---------------------------------------------------------------- scalar division

  lemma ScalarDivByOneIsIdentity(x: Rgb24)
    ensures ScalarDiv(x, 1) == x
  {
    Extensionality(ScalarDiv(x, 1), x);
  }

  /** Every divisor above 255 gives black. */
  lemma ScalarDivLargeIsBlack(x: Rgb24, s: u32)
    requires s > U8_MAX
    ensures ScalarDiv(x, s) == BLACK
  {
    DivOfSmaller(x.r, s);
    DivOfSmaller(x.g, s);
    DivOfSmaller(x.b, s);
    Extensionality(ScalarDiv(x, s), BLACK);
  }

  /** No channel of `x` times `s` exceeds 255. */
  predicate MulStaysInRange(x: Rgb24, s: u32) {
    x.r * s <= U8_MAX && x.g * s <= U8_MAX && x.b * s <= U8_MAX
  }

  /** Division by `s` undoes multiplication by `s` when no channel saturated. */
  lemma ScalarDivUndoesMul(x: Rgb24, s: u32)
    requires s != 0 && MulStaysInRange(x, s)
    ensures ProductsFitU32(x, s) && ScalarDiv(SaturatingScalarMul(x, s), s) == x
  {
    var y := ScalarDiv(SaturatingScalarMul(x, s), s);
    forall ch ensures Get(y, ch) == Get(x, ch) {
      MulDivCancel(Get(x, ch), s);
    }
    Extensionality(y, x);
  }


  /** Two divisions in a row are one division by the product of the divisors. */
  lemma ScalarDivTwice(x: Rgb24, s: u32, t: u32)
    requires s != 0 && t != 0 && s * t <= U32_MAX
    ensures ScalarDiv(ScalarDiv(x, s), t) == ScalarDiv(x, s * t)
  {
    var y := ScalarDiv(ScalarDiv(x, s), t);
    forall ch ensures Get(y, ch) == Get(x, ch) / (s * t) {
      DivDiv(Get(x, ch), s, t);
    }
    Extensionality(y, ScalarDiv(x, s * t));
  }


  // ---------------------------------------------------------------- scalar multiply-divide

  /** With denominator 1, `saturating_scalar_mul_div` is `saturating_scalar_mul`. */
  lemma MulDivByOneIsScalarMul(x: Rgb24, n: u32)
    requires ProductsFitU32(x, n)
    ensures SaturatingScalarMulDiv(x, n, 1) == SaturatingScalarMul(x, n)
  {
    Extensionality(SaturatingScalarMulDiv(x, n, 1), SaturatingScalarMul(x, n));
  }

  /** With numerator 1, `saturating_scalar_mul_div` is `scalar_div`. */
  lemma MulDivOfOneIsScalarDiv(x: Rgb24, d: u32)
    requires d != 0
    ensures ProductsFitU32(x, 1) && SaturatingScalarMulDiv(x, 1, d) == ScalarDiv(x, d)
  {
    Extensionality(SaturatingScalarMulDiv(x, 1, d), ScalarDiv(x, d));
  }

  /** Scaling by `k / k` returns the colour unchanged: the product is formed before
      the division, so nothing is lost to rounding. */
  lemma MulDivSameIsIdentity(x: Rgb24, k: u32)
    requires k != 0 && ProductsFitU32(x, k)
    ensures SaturatingScalarMulDiv(x, k, k) == x
  {
    var y := SaturatingScalarMulDiv(x, k, k);
    forall ch ensures Get(y, ch) == Get(x, ch) {
      MulDivCancel(Get(x, ch), k);
    }
    Extensionality(y, x);
  }

  // ---------------------------------------------------------------- normalised

  lemma NormalisedMulCommutative(x: Rgb24, y: Rgb24)
    ensures NormalisedMul(x, y) == NormalisedMul(y, x)
  {
    Extensionality(NormalisedMul(x, y), NormalisedMul(y, x));
  }

  /** White (255 standing for 1.0) is the identity of `normalised_mul` on either
      side, and black annihilates. */
  lemma NormalisedMulWhiteAndBlack(x: Rgb24)
    ensures NormalisedMul(WHITE, x) == x && NormalisedMul(x, WHITE) == x
    ensures NormalisedMul(BLACK, x) == BLACK
  {
    Extensionality(NormalisedMul(WHITE, x), x);
    Extensionality(NormalisedMul(x, WHITE), x);
    Extensionality(NormalisedMul(BLACK, x), BLACK);
  }

  /** `normalised_scalar_mul(s)` is `normalised_mul` by the grey of level `s`; so 255
      is its identity and 0 gives black. */
  lemma NormalisedScalarMulIsGreyMul(x: Rgb24, s: u8)
    ensures NormalisedScalarMul(x, s) == NormalisedMul(x, NewGrey(s))
    ensures NormalisedScalarMul(x, U8_MAX) == x
    ensures NormalisedScalarMul(x, 0) == BLACK
  {
    Extensionality(NormalisedScalarMul(x, s), NormalisedMul(x, NewGrey(s)));
    NormalisedMulWhiteAndBlack(x);
  }

  /** A brighter operand never gives a darker product. */
  lemma NormalisedMulMonotone(x: Rgb24, x': Rgb24, y: Rgb24)
    requires ChannelwiseLe(x, x')
    ensures ChannelwiseLe(NormalisedMul(x, y), NormalisedMul(x', y))
  {
    forall ch ensures Get(NormalisedMul(x, y), ch) <= Get(NormalisedMul(x', y), ch) {
      MulLe(Get(x, ch), Get(y, ch), Get(x', ch), Get(y, ch));
      DivMonotone(Get(x, ch) * Get(y, ch), Get(x', ch) * Get(y, ch), U8_MAX);
    }
    assert Get(NormalisedMul(x, y), R) <= Get(NormalisedMul(x', y), R);
    assert Get(NormalisedMul(x, y), G) <= Get(NormalisedMul(x', y), G);
    assert Get(NormalisedMul(x, y), B) <= Get(NormalisedMul(x', y), B);
  }

}
