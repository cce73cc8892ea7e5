/**
 * Packed pixels and colours of the mean-colour / mean-image engine
 * (de.htw.mp.ui.DatasetViewer).
 *
 * A pixel is a Java `int` holding 0xAARRGGBB as `BufferedImage.getRGB`
 * delivers it.  Channels are read with `(rgb >> k) & 0xff`; on a
 * two's-complement int the arithmetic shift `>> k` is floor division by
 * 2^k and `& 0xff` keeps the non-negative remainder modulo 256, which is
 * exactly Dafny's `(rgb / 2^k) % 256` for positive divisors (Dafny's
 * `/` and `%` are Euclidean), so the model is exact for negative pixels too.
 */
module Pixels {

  /** One of the three colour channels the engine averages. */
  datatype Channel = Red | Green | Blue

  /** A `java.awt.Color` built from three channels. */
  datatype Color = Color(red: int, green: int, blue: int)

  /** `java.awt.Color.PINK`, returned when there is no image at all. */
  const PINK: Color := Color(255, 175, 175)

  /** `java.awt.Color.WHITE`, shown by the colour display after a reset. */
  const WHITE: Color := Color(255, 255, 255)

  /** 2^24: one step of the alpha byte of a packed pixel. */
  const ALPHA_UNIT: int := 0x100_0000

  /** Largest Java `int`. */
  const INT_MAX: int := 0x7FFF_FFFF

  /**
   * Largest number of channel values (each at most 255) whose sum still
   * fits a Java `int`: 255 * 8421504 <= INT_MAX < 255 * 8421505.
   */
  const MAX_SUMMED_CHANNELS: int := 8421504

  predicate InByteRange(v: int) { 0 <= v <= 255 }

  /** A colour `new Color(r, g, b)` accepts without throwing. */
  predicate ValidColor(c: Color)
  {
    InByteRange(c.red) && InByteRange(c.green) && InByteRange(c.blue)
  }

  function Shift(ch: Channel): (d: int)
    ensures d == 1 || d == 0x100 || d == 0x1_0000
  {
    match ch
    case Red => 0x1_0000
    case Green => 0x100
    case Blue => 1
  }

  /** `(rgb >> 16) & 0xff`, `(rgb >> 8) & 0xff` and `rgb & 0xff`. */
  function ChannelOf(rgb: int, ch: Channel): (v: int)
    ensures InByteRange(v)
  {
    (rgb / Shift(ch)) % 256
  }

  function ColorOf(rgb: int): (c: Color)
    ensures ValidColor(c)
  {
    Color(ChannelOf(rgb, Red), ChannelOf(rgb, Green), ChannelOf(rgb, Blue))
  }

  /**
   * `(r << 16) | (g << 8) | b` for channels already clamped to [0,255]: the
   * three fields do not overlap, so the bitwise or is a sum (OrOfFieldsIsSum).
   */
  function Pack(r: int, g: int, b: int): (rgb: int)
    requires InByteRange(r) && InByteRange(g) && InByteRange(b)
    ensures 0 <= rgb < ALPHA_UNIT
  {
    r * 0x1_0000 + g * 0x100 + b
  }

  /** `preventColorOverflow`: 255 above 255, 0 below 0, the input otherwise. */
  function PreventColorOverflow(singleColor: int): (fixedColor: int)
    ensures InByteRange(fixedColor)
    ensures singleColor > 255 ==> fixedColor == 255
    ensures singleColor < 0 ==> fixedColor == 0
    ensures InByteRange(singleColor) ==> fixedColor == singleColor
  {
    if singleColor > 255 then 255
    else if singleColor < 0 then 0
    else singleColor
  }

  /** The packing expression on 32-bit words equals the arithmetic sum Pack uses. */
  lemma OrOfFieldsIsSum(r: bv32, g: bv32, b: bv32)
    requires r < 256 && g < 256 && b < 256
    ensures (r << 16) | (g << 8) | b == r * 0x1_0000 + g * 0x100 + b
  {
  }

  /** Unpacking a packed pixel gives back the three channels. */
  lemma UnpackPack(r: int, g: int, b: int)
    requires InByteRange(r) && InByteRange(g) && InByteRange(b)
    ensures ChannelOf(Pack(r, g, b), Red) == r
    ensures ChannelOf(Pack(r, g, b), Green) == g
    ensures ChannelOf(Pack(r, g, b), Blue) == b
    ensures 0 <= Pack(r, g, b) < ALPHA_UNIT
  {
    UnpackRed(r, g, b);
    UnpackGreen(r, g, b);
    UnpackBlue(r, g, b);
  }

  lemma UnpackRed(r: int, g: int, b: int)
    requires InByteRange(r) && InByteRange(g) && InByteRange(b)
    ensures ChannelOf(Pack(r, g, b), Red) == r
  {
    var low := g * 0x100 + b;
    DivPlus(r, low, 0x1_0000);
    assert Pack(r, g, b) / 0x1_0000 == r;
  }

  lemma UnpackGreen(r: int, g: int, b: int)
    requires InByteRange(r) && InByteRange(g) && InByteRange(b)
    ensures ChannelOf(Pack(r, g, b), Green) == g
  {
    var hi := r * 0x100 + g;
    assert Pack(r, g, b) == hi * 0x100 + b;
    DivPlus(hi, b, 0x100);
    DivPlus(r, g, 256);
  }

  lemma UnpackBlue(r: int, g: int, b: int)
    requires InByteRange(r) && InByteRange(g) && InByteRange(b)
    ensures ChannelOf(Pack(r, g, b), Blue) == b
  {
    var hi := r * 0x100 + g;
    assert Pack(r, g, b) == hi * 0x100 + b;
    DivPlus(hi, b, 256);
  }

  /** The alpha byte (bits 24..31) never reaches a channel. */
  lemma {:induction false} ChannelIgnoresAlpha(rgb: int, alpha: int, ch: Channel)
    ensures ChannelOf(rgb + alpha * ALPHA_UNIT, ch) == ChannelOf(rgb, ch)
  {
    var d := Shift(ch);
    var k := ALPHA_UNIT / d;
    assert alpha * ALPHA_UNIT == (alpha * k) * d;
    DivShift(rgb, alpha * k, d);
    assert (rgb + alpha * ALPHA_UNIT) / d == rgb / d + alpha * k;
    assert alpha * k == (alpha * (k / 256)) * 256;
    ModShift(rgb / d, alpha * (k / 256), 256);
  }

  /** The clamp is idempotent. */
  lemma PreventColorOverflowIdempotent(v: int)
    ensures PreventColorOverflow(PreventColorOverflow(v)) == PreventColorOverflow(v)
  {
  }

  /** The clamp agrees with min(255, max(0, v)). */
  lemma PreventColorOverflowIsMinMax(v: int)
    ensures PreventColorOverflow(v) == Min(255, Max(0, v))
  {
  }

  /** An integer mean of in-range channel values is in range, so clamping it is a no-op. */
  lemma {:induction false} ClampOfMeanIsNoop(sum: int, n: int)
    requires n > 0 && 0 <= sum <= 255 * n
    ensures InByteRange(sum / n)
    ensures PreventColorOverflow(sum / n) == sum / n
  {
    DivUpper(sum, n);
  }

  function Min(a: int, b: int): int { if a <= b then a else b }
  function Max(a: int, b: int): int { if a >= b then a else b }

  // Small facts of integer division used above.

  lemma DivPlus(q: int, r: int, d: int)
    requires d > 0 && 0 <= r < d
    ensures (q * d + r) / d == q && (q * d + r) % d == r
  {
    var x := q * d + r;
    var q', r' := x / d, x % d;
    assert (q' - q) * d == r - r';
    if q' > q {
      MulAtLeast(q' - q, d);
    } else if q' < q {
      MulAtLeast(q - q', d);
    }
  }

  lemma MulAtLeast(a: int, d: int)
    requires a >= 1 && d > 0
    ensures a * d >= d
  {
  }

  lemma DivShift(x: int, k: int, d: int)
    requires d > 0
    ensures (x + k * d) / d == x / d + k
  {
    var q, r := x / d, x % d;
    assert x + k * d == (q + k) * d + r;
    DivPlus(q + k, r, d);
  }

  lemma ModShift(x: int, k: int, d: int)
    requires d > 0
    ensures (x + k * d) % d == x % d
  {
    var q, r := x / d, x % d;
    assert x + k * d == (q + k) * d + r;
    DivPlus(q + k, r, d);
  }

  lemma DivUpper(sum: int, n: int)
    requires n > 0 && 0 <= sum <= 255 * n
    ensures 0 <= sum / n <= 255
  {
    var q, r := sum / n, sum % n;
    assert sum == q * n + r;
  }
}
