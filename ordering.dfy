/**
 The total order `Rgb24` derives: lexicographic on (red, green, blue), the order of
 the fields in the struct.
 */
module RgbOrder {
  import opened Primitives
  import opened Rgb

  datatype Ordering = Less | Equal | Greater

  function Reverse(o: Ordering): Ordering {
    match o
    case Less => Greater
    case Equal => Equal
    case Greater => Less
  }

  /** `Ord::cmp` on integers (the `u8` channels and the packed values). */
  function CmpInt(a: int, b: int): (o: Ordering)
    ensures o == Less <==> a < b
    ensures o == Greater <==> b < a
  {
    if a < b then Less else if a == b then Equal else Greater
  }

  /** The derived `Ord::cmp`: the first channel that differs decides. */
  function Cmp(x: Rgb24, y: Rgb24): (o: Ordering)
    ensures o == Equal <==> x == y
  {
    match CmpInt(x.r, y.r)
    case Equal => (
      match CmpInt(x.g, y.g)
      case Equal => CmpInt(x.b, y.b)
      case o => o)
    case o => o
  }

  /** The colour as one 24-bit number, red in the high byte and blue in the low byte. */
  function Packed(x: Rgb24): (n: nat)
    ensures n < 0x100_0000
  {
    x.r * 0x1_0000 + x.g * 0x100 + x.b
  }

  /** The derived order is the numeric order of the packed 24-bit values. */
  lemma CmpIsPackedOrder(x: Rgb24, y: Rgb24)
    ensures Cmp(x, y) == CmpInt(Packed(x), Packed(y))
  {
    var lowX, lowY := x.g * 0x100 + x.b, y.g * 0x100 + y.b;
    assert lowX < 0x1_0000 && lowY < 0x1_0000;
    if x.r < y.r {
      MulLe(x.r + 1, 0x1_0000, y.r, 0x1_0000);
    } else if x.r > y.r {
      MulLe(y.r + 1, 0x1_0000, x.r, 0x1_0000);
    } else if x.g < y.g {
      MulLe(x.g + 1, 0x100, y.g, 0x100);
    } else if x.g > y.g {
      MulLe(y.g + 1, 0x100, x.g, 0x100);
    }
  }

  /** The order is antisymmetric and transitive, hence a total order. */
  lemma CmpIsTotalOrder(x: Rgb24, y: Rgb24, z: Rgb24)
    ensures Cmp(y, x) == Reverse(Cmp(x, y))
    ensures Cmp(x, y) != Greater && Cmp(y, z) != Greater ==> Cmp(x, z) != Greater
  {
    CmpIsPackedOrder(x, y);
    CmpIsPackedOrder(y, x);
    CmpIsPackedOrder(y, z);
    CmpIsPackedOrder(x, z);
  }

  /** A colour that is no brighter in any channel is no greater in the order; so
      `saturating_add` and `floor` never move a colour down the order, and
      `saturating_sub` and `ceil` never move it up. */
  lemma ChannelwiseLeIsOrdered(x: Rgb24, y: Rgb24)
    requires ChannelwiseLe(x, y)
    ensures Cmp(x, y) != Greater
  {
  }
}
