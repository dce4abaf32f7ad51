# rgb24 — a verified model of the `Rgb24` colour value

`Rgb24` is a copyable 24-bit colour made of three `u8` channels: red, green and blue.
It has a closed set of channel-wise integer operations:

- two constructors;
- per-channel clamps (`floor` and `ceil`);
- saturating addition and subtraction;
- scalar multiplication, division and multiply-divide, each through a `u32` intermediate;
- "normalised" multiplication, in which 255 stands for 1.0.

Each operation is a pure function, so the model uses a datatype plus functions and lemmas:

- `primitives.dfy` (module `Primitives`) models the Rust integer semantics the library relies on. It has `u8`, `u32` and `u64` as subset types of `int`, and the truncating `as u8` cast. It also has `Ord::min` and `Ord::max`. `u8::saturating_add` and `u8::saturating_sub` are written as a wrapped result plus carry/borrow detection. The release build's wrapping `u32` multiply is there too, along with the arithmetic lemmas the bounds need.
- `rgb24.dfy` (module `Rgb`) has the datatype and the eleven operations. `New` and `NewGrey` build the datatype directly. `Floor`, `Ceil`, `SaturatingAdd` and `SaturatingSub` apply `MaxU8`, `MinU8`, `SaturatingAddU8` and `SaturatingSubU8` channel by channel, as the library applies `Ord::max`, `Ord::min`, `u8::saturating_add` and `u8::saturating_sub`. The other five operations (`SaturatingScalarMul`, `ScalarDiv`, `SaturatingScalarMulDiv`, `NormalisedMul` and `NormalisedScalarMul`) are each built from a single-channel helper that mirrors that method's nested `single_channel` function. Each such helper's contract gives the exact integer it returns. For example, `ScalarMulChannel` returns `Saturate(c * scalar)`. This shows that every narrowing `as u8` is lossless.
- `laws.dfy` (module `RgbLaws`) holds identities, idempotence, commutativity, associativity, monotonicity and the round trips between operations.
- `ordering.dfy` (module `RgbOrder`) models the derived lexicographic `Ord`.
- `overflow.dfy` (module `ReleaseOverflow`) models what a release build does when the `u32` product overflows. It also holds the corrected, wide-intermediate operations (see Findings).
- `examples.dfy` (module `RgbExamples`) states the library's unit tests as lemmas.

Division by zero panics in the library, so `ScalarDiv` and `SaturatingScalarMulDiv` require a non-zero divisor. This holds even for a black input, as the `div_by_zero` test shows.

A `u32` product `channel * scalar` that does not fit panics in a debug build. The main model therefore requires `ProductsFitU32`. Release-build wrapping is modelled separately.

Dafny's `/` is Euclidean and Rust's `/` truncates, but every division here has non-negative operands, where the two agree.

The library means these multiplications to saturate. Three things in src/lib.rs show this. The methods are named `saturating_scalar_mul` and `saturating_scalar_mul_div`. Both clamp with `.min(255)` (src/lib.rs:66, src/lib.rs:88). The test at src/lib.rs:156-159 expects scalar 10000 to turn (20,40,60) white. The code stops saturating once `channel * scalar` exceeds `u32::MAX`. The model follows the code and records the difference under Findings.

## Model

| member | source | states |
|---|---|---|
| `Primitives.AsU8` | src/lib.rs:66 | the `as u8` cast keeps the value of anything already at most 255 |
| `Primitives.MinU32` | src/lib.rs:66 | `Ord::min` on `u32` is at most both arguments and is one of them |
| `Primitives.MaxU8` | src/lib.rs:22 | `Ord::max` on `u8` is at least both arguments and is one of them |
| `Primitives.MinU8` | src/lib.rs:29 | `Ord::min` on `u8` is at most both arguments and is one of them |
| `Primitives.SaturatingAddU8` | src/lib.rs:51 | `u8::saturating_add` (wrapped sum, carry detected by the sum falling below an operand) equals the exact sum clamped to 255 |
| `Primitives.SaturatingSubU8` | src/lib.rs:58 | `u8::saturating_sub` (wrapped difference, borrow detected by the difference rising above the minuend) equals the exact difference clamped to 0 |
| `Primitives.WrappingMulU32` | src/lib.rs:65 | the release-build `u32` product equals the exact product whenever that fits in `u32` |
| `Rgb.Extensionality` | src/lib.rs:5-11 | the derived equality, in both directions: two colours agree on all three channels iff they are equal |
| `Rgb.New` | src/lib.rs:14-16 | `new(r, g, b)` has exactly the given channels |
| `Rgb.NewGrey` | src/lib.rs:17-19 | `new_grey(c)` is achromatic with level `c` |
| `Rgb.Floor` | src/lib.rs:20-26 | every channel is at least `min` and at least the input channel, and is one of those two values, channel by channel |
| `Rgb.Ceil` | src/lib.rs:27-33 | every channel is at most `max` and at most the input channel, and is one of those two values, channel by channel |
| `Rgb.SaturatingAdd` | src/lib.rs:49-55 | every channel is the exact sum clamped to 255 (never wraps) |
| `Rgb.SaturatingSub` | src/lib.rs:56-62 | every channel is the exact difference clamped to 0 (never wraps) |
| `Rgb.ScalarMulChannel` | src/lib.rs:64-67 | with the `u32` product in range, the result is `min(c * scalar, 255)`, so the `as u8` cast after `.min(255)` never truncates |
| `Rgb.SaturatingScalarMul` | src/lib.rs:63-73 | every channel is `min(ch * scalar, 255)`, provided every `u32` product fits |
| `Rgb.ScalarDivChannel` | src/lib.rs:75-78 | with a non-zero divisor, the result is the floor quotient and is at most the channel; the `.min(255)` leaves the quotient unchanged |
| `Rgb.ScalarDiv` | src/lib.rs:74-84 | with a non-zero divisor, every channel is the floor quotient and the result is no brighter than the input in any channel |
| `Rgb.ScalarMulDivChannel` | src/lib.rs:86-89 | multiply, then divide, then clamp: the result is `min((c * n) / d, 255)` |
| `Rgb.SaturatingScalarMulDiv` | src/lib.rs:85-95 | every channel is `min((ch * n) / d, 255)`, for `d != 0` and every `u32` product in range |
| `Rgb.NormalisedChannel` | src/lib.rs:97-99 | the result is `(a * b) / 255`, floored, and at most both `a` and `b`, so the unclamped `as u8` is lossless (the same helper appears again at src/lib.rs:107-109) |
| `Rgb.NormalisedBound` | src/lib.rs:98 | `(a * b) / 255` never exceeds either operand |
| `Rgb.NormalisedMul` | src/lib.rs:96-105 | every channel is `(a * b) / 255`, and the result is no brighter than either operand in any channel |
| `Rgb.NormalisedScalarMul` | src/lib.rs:106-115 | every channel is `(ch * s) / 255`, no brighter than the input channel and no greater than `s` |
| `RgbLaws.NewRoundTrip` | src/lib.rs:14-16 | rebuilding a colour from its own channels gives the same colour |
| `RgbLaws.GreyIffNewGrey` | src/lib.rs:17-19 | a colour is achromatic iff it equals `new_grey` of its red channel; `new_grey(c)` is `new(c, c, c)` |
| `RgbLaws.FloorZeroIsIdentity` | src/lib.rs:20-26 | `floor(0)` leaves every colour unchanged |
| `RgbLaws.CeilMaxIsIdentity` | src/lib.rs:27-33 | `ceil(255)` leaves every colour unchanged |
| `RgbLaws.FloorIsLeastAbove` | src/lib.rs:20-26 | `floor(m)` is the least colour channel-wise above `x` with all channels at least `m` (both directions) |
| `RgbLaws.CeilIsGreatestBelow` | src/lib.rs:27-33 | `ceil(m)` is the greatest colour channel-wise below `x` with all channels at most `m` (both directions) |
| `RgbLaws.FloorFloor` | src/lib.rs:20-26 | two floors compose into one at the larger minimum; `floor` is idempotent |
| `RgbLaws.CeilCeil` | src/lib.rs:27-33 | two ceilings compose into one at the smaller maximum; `ceil` is idempotent |
| `RgbLaws.SaturatingAddCommutative` | src/lib.rs:49-55 | `saturating_add` is commutative |
| `RgbLaws.SaturatingAddAssociative` | src/lib.rs:49-55 | `saturating_add` is associative |
| `RgbLaws.SaturatingAddInflationary` | src/lib.rs:49-55 | the sum is at least each operand in every channel; black is the identity |
| `RgbLaws.SaturatingSubDeflationary` | src/lib.rs:56-62 | the difference is at most `self` in every channel; black is the identity; a colour minus itself is black |
| `RgbLaws.SubUndoesAdd` | src/lib.rs:49-62 | when no channel sum exceeds 255, subtracting `y` undoes adding `y` |
| `RgbLaws.AddAfterSubIsJoin` | src/lib.rs:49-62 | subtracting `y` and then adding it back gives the channel-wise maximum of `x` and `y` |
| `RgbLaws.ScalarMulByOneAndZero` | src/lib.rs:63-73 | multiplying by 1 is the identity; multiplying by 0 gives black |
| `RgbLaws.ScalarMulTwoIsAddSelf` | src/lib.rs:49-73 | `saturating_scalar_mul(2)` equals `saturating_add` of a colour with itself |
| `RgbLaws.ScalarMulMonotone` | src/lib.rs:63-73 | a larger scalar never gives a darker channel |
| `RgbLaws.ScalarMulLargeSaturates` | src/lib.rs:63-73 | a scalar of at least 255 whose products still fit in `u32` saturates every non-zero channel to 255 |
| `RgbLaws.ScalarDivByOneIsIdentity` | src/lib.rs:74-84 | dividing by 1 is the identity |
| `RgbLaws.ScalarDivLargeIsBlack` | src/lib.rs:74-84 | every divisor above 255 gives black |
| `RgbLaws.ScalarDivUndoesMul` | src/lib.rs:63-84 | when no channel saturates, `scalar_div(s)` undoes `saturating_scalar_mul(s)` |
| `RgbLaws.ScalarDivTwice` | src/lib.rs:74-84 | dividing by `s` and then by `t` equals dividing by `s * t` |
| `RgbLaws.MulDivByOneIsScalarMul` | src/lib.rs:63-95 | with denominator 1, `saturating_scalar_mul_div(n, 1)` equals `saturating_scalar_mul(n)` |
| `RgbLaws.MulDivOfOneIsScalarDiv` | src/lib.rs:74-95 | with numerator 1, `saturating_scalar_mul_div(1, d)` equals `scalar_div(d)` |
| `RgbLaws.MulDivSameIsIdentity` | src/lib.rs:85-95 | scaling by `k / k` is the identity (multiply before divide loses nothing) |
| `RgbLaws.NormalisedMulCommutative` | src/lib.rs:96-105 | `normalised_mul` is commutative |
| `RgbLaws.NormalisedMulWhiteAndBlack` | src/lib.rs:96-105 | white is the identity on both sides; black annihilates |
| `RgbLaws.NormalisedScalarMulIsGreyMul` | src/lib.rs:96-115 | `normalised_scalar_mul(s)` equals `normalised_mul` by `new_grey(s)`; scalar 255 is the identity and 0 gives black |
| `RgbLaws.NormalisedMulMonotone` | src/lib.rs:96-105 | a brighter operand never gives a darker product |
| `RgbOrder.CmpInt` | src/lib.rs:5-10 | `Ord::cmp` on the `u8` fields: `Less` iff the first is smaller, `Greater` iff the second is smaller |
| `RgbOrder.Cmp` | src/lib.rs:5-11 | the derived `Ord::cmp` (red, then green, then blue) returns `Equal` iff the colours are equal |
| `RgbOrder.CmpIsPackedOrder` | src/lib.rs:5-11 | the derived order is the numeric order of the packed 24-bit value `r * 65536 + g * 256 + b` |
| `RgbOrder.CmpIsTotalOrder` | src/lib.rs:5 | the derived order is antisymmetric and transitive |
| `RgbOrder.ChannelwiseLeIsOrdered` | src/lib.rs:5-11 | a colour no brighter in any channel is never greater in the derived order |
| `ReleaseOverflow.ScalarMulChannelWrapping` | src/lib.rs:64-67 | in a release build the single-channel multiply is `min((c * scalar) mod 2^32, 255)` |
| `ReleaseOverflow.SaturatingScalarMulWrapping` | src/lib.rs:63-73 | in a release build every channel is `min((ch * scalar) mod 2^32, 255)`; this agrees with the main model whenever the products fit |
| `ReleaseOverflow.ScalarMulDivChannelWrapping` | src/lib.rs:86-89 | in a release build the single-channel multiply-divide is `min(((c * n) mod 2^32) / d, 255)` |
| `ReleaseOverflow.SaturatingScalarMulDivWrapping` | src/lib.rs:85-95 | in a release build every channel is `min(((ch * n) mod 2^32) / d, 255)`; this agrees with the main model whenever the products fit |
| `ReleaseOverflow.ScalarMulChannelWide` | src/lib.rs:64-67 | with a `u64` product the single-channel multiply is `min(c * scalar, 255)` for every `u32` scalar |
| `ReleaseOverflow.SaturatingScalarMulWide` | src/lib.rs:63-73 | every channel is `min(ch * scalar, 255)` for every `u32` scalar |
| `ReleaseOverflow.WideScalarMulAgreesWithMain` | src/lib.rs:63-73 | where every `u32` product fits, the wide multiplication equals the main model |
| `ReleaseOverflow.ScalarMulDivChannelWide` | src/lib.rs:86-89 | with a `u64` product the single-channel multiply-divide is `min((c * n) / d, 255)` for every `u32` numerator |
| `ReleaseOverflow.SaturatingScalarMulDivWide` | src/lib.rs:85-95 | every channel is `min((ch * n) / d, 255)` for every `u32` numerator |
| `ReleaseOverflow.WideMulDivAgreesWithMain` | src/lib.rs:85-95 | where every `u32` product fits, the wide multiply-divide equals the main model |
| `ReleaseOverflow.WideScalarMulSaturates` | src/lib.rs:63-73 | with the wide product, every scalar of at least 255 saturates every non-zero channel, with no bound on the scalar |
| `ReleaseOverflow.WideMulDivSameIsIdentity` | src/lib.rs:85-95 | with the wide product, scaling by `k / k` is the identity for every non-zero `k` |
| `ReleaseOverflow.WrappingScalarMulDoesNotSaturate` | src/lib.rs:65 | white times 16843010 overflows `u32`; the release build gives grey 254, the wide version white |
| `ReleaseOverflow.WrappingMulDivLosesColour` | src/lib.rs:87 | white scaled by 16843010 / 16843010 gives black in the release build and white in the wide version |
| `RgbExamples.AddExample` | src/lib.rs:122-128 | (255,0,200) + (0,255,200) = (255,255,255) |
| `RgbExamples.SubExample` | src/lib.rs:130-136 | (255,0,200) - (0,255,200) = (255,0,0) |
| `RgbExamples.MulDivExample` | src/lib.rs:138-148 | (1,2,3) * 1500 / 1000 = (1,3,4); (1,2,3) * 1500 / 1 = (255,255,255) |
| `RgbExamples.MulExample` | src/lib.rs:150-160 | (20,40,60) * 2 = (40,80,120); (20,40,60) * 10000 = (255,255,255) |
| `RgbExamples.DivExample` | src/lib.rs:162-169 | (20,40,60) / 2 = (10,20,30); (255,255,255) / 256 = (0,0,0) |
| `RgbExamples.NormalisedMulExample` | src/lib.rs:177-187 | white times (1,2,3) = (1,2,3); (255,127,0) times (10,20,30) = (10,9,0) |
| `RgbExamples.GreyExample` | src/lib.rs:189-192 | `new_grey(37)` = (37,37,37) |
| `RgbExamples.FloorExample` | src/lib.rs:194-197 | (100,5,0).floor(10) = (100,10,10) |
| `RgbExamples.CeilExample` | src/lib.rs:199-202 | (255,250,20).ceil(200) = (200,200,20) |
| `RgbExamples.NormalisedScalarMulExample` | src/lib.rs:204-210 | (255,128,0) scaled by 128 = (128,64,0) |

## Left out

- `to_f32_rgb` and `to_f32_rgba` (src/lib.rs:34-48): these are floating-point division by 255.0, and floating point is outside this integer model.
- The `serde` derive and `extern crate serde` (src/lib.rs:1-6): these are feature-gated serialisation glue over an external library.
- The derived `Debug` and `Hash` (src/lib.rs:5): these are compiler-generated and state nothing about the arithmetic. `PartialEq`/`Eq` appear as Dafny datatype equality (`Rgb.Extensionality`). `PartialOrd`/`Ord` appear as `RgbOrder.Cmp`.
- src/sample.rs (the uniform-sampling adapter): it draws from a caller-supplied random generator through the `rand` crate's traits, which cannot be modelled. It also calls `Rgb24::linear_interpolate`, which is not part of this model, so the sampling-range property is not stated.
- The `div_by_zero` test (src/lib.rs:171-175) expects a panic. A panic has no value to state, so it appears only as the `scalar != 0` precondition of `Rgb.ScalarDiv`, which no colour escapes.
- `Rgb.SaturatingScalarMul`, `Rgb.SaturatingScalarMulDiv`: these require every `u32` product `channel * scalar` to fit. They do not claim saturation for larger scalars, because a debug build panics there. Release-build wrapping is modelled in `ReleaseOverflow`.

## Findings

| source | as written | input that shows it | evidently intended | confidence | as-written member | corrected member |
|---|---|---|---|---|---|---|
| src/lib.rs:65 | `channel as u32 * scalar` overflows once `scalar > u32::MAX / 255`; a release build wraps it, and a debug build panics | white, `saturating_scalar_mul(16843010)`: 255 * 16843010 = 2^32 + 254 wraps to 254, giving (254,254,254) | the `saturating_` name, the `.min(255)` clamp at src/lib.rs:66 and the scalar-10000 test at src/lib.rs:156-159 all mean that every scalar of at least 255 saturates each non-zero channel to 255 | medium, not executed | `ReleaseOverflow.WrappingScalarMulDoesNotSaturate` | `ReleaseOverflow.SaturatingScalarMulWide` |
| src/lib.rs:87 | `(channel as u32) * numerator` overflows in the same way before the division | white, `saturating_scalar_mul_div(16843010, 16843010)`: the product wraps to 254, and 254 / 16843010 gives (0,0,0) | the `saturating_` name and the `.min(255)` clamp at src/lib.rs:88 mean the exact product divided by `d` and clamped; here, white unchanged | medium, not executed | `ReleaseOverflow.WrappingMulDivLosesColour` | `ReleaseOverflow.SaturatingScalarMulDivWide` |
