/**
 * `DatasetViewer.getMeanColor`: the mean colour shown for a selection of
 * images, and the pooled mean colour over all of them that the method's
 * documentation promises.
 */
module MeanColor {
  import opened Pixels
  import opened Sums
  import opened Images

  /** One channel of a packed pixel, as a term of a sum. */
  function ChannelWeight(ch: Channel): int -> int
  {
    rgb => ChannelOf(rgb, ch)
  }

  /** The sum of one channel over a run of pixels. */
  function ChannelSum(pixels: seq<int>, ch: Channel): (s: int)
    ensures 0 <= s <= 255 * |pixels|
  {
    SumByAtLeast(pixels, ChannelWeight(ch), 0);
    SumByAtMost(pixels, ChannelWeight(ch), 255);
    SumBy(pixels, ChannelWeight(ch))
  }

  /**
   * The per-image average the loop body of getMeanColor computes: each
   * channel summed over all width * height pixels, divided (truncating)
   * by the pixel count.
   */
  function ImageMeanColor(img: Raster): (c: Color)
    requires Valid(img)
    ensures ValidColor(c)
  {
    var n := img.width * img.height;
    ClampOfMeanIsNoop(ChannelSum(img.pixels, Red), n);
    ClampOfMeanIsNoop(ChannelSum(img.pixels, Green), n);
    ClampOfMeanIsNoop(ChannelSum(img.pixels, Blue), n);
    Color(ChannelSum(img.pixels, Red) / n,
          ChannelSum(img.pixels, Green) / n,
          ChannelSum(img.pixels, Blue) / n)
  }

  /**
   * The colour getMeanColor reports: PINK for no images, otherwise the mean
   * of the last image alone.
   */
  function LastImageMeanColor(images: seq<Raster>): (c: Color)
    requires AllValid(images)
    ensures ValidColor(c)
  {
    if images == [] then PINK else ImageMeanColor(images[|images| - 1])
  }

  /**
   * getMeanColor as written: PINK for no images; otherwise every image's
   * average overwrites the previous one, so the last image alone decides
   * the result.  The bound on pixel counts keeps every channel sum inside
   * a Java `int`, where the source's arithmetic and this model agree.
   */
  method GetMeanColor(images: seq<Raster>) returns (c: Color)
    requires AllValid(images)
    requires forall i :: 0 <= i < |images| ==> |images[i].pixels| <= MAX_SUMMED_CHANNELS
    ensures images == [] ==> c == PINK
    ensures images != [] ==> c == ImageMeanColor(images[|images| - 1])
    ensures c == LastImageMeanColor(images)
    ensures ValidColor(c)
  {
    var avrRed, avrGreen, avrBlue := 0, 0, 0;
    if |images| == 0 {
      return PINK;
    }
    for k := 0 to |images|
      invariant k > 0 ==> Color(avrRed, avrGreen, avrBlue) == ImageMeanColor(images[k - 1])
    {
      var width, height := images[k].width, images[k].height;
      var red, green, blue := SumChannels(images[k]);
      avrRed := red / (width * height);
      avrGreen := green / (width * height);
      avrBlue := blue / (width * height);
    }
    c := Color(avrRed, avrGreen, avrBlue);
  }

  /**
   * The two pixel loops of getMeanColor: every pixel of the raster, row by
   * row, adds its red, green and blue value to the running sums.
   */
  method SumChannels(img: Raster) returns (red: int, green: int, blue: int)
    requires Valid(img) && |img.pixels| <= MAX_SUMMED_CHANNELS
    ensures red == ChannelSum(img.pixels, Red)
    ensures green == ChannelSum(img.pixels, Green)
    ensures blue == ChannelSum(img.pixels, Blue)
    ensures red <= INT_MAX && green <= INT_MAX && blue <= INT_MAX
  {
    var width, height := img.width, img.height;
    var pixels := img.pixels;
    red, green, blue := 0, 0, 0;
    for y := 0 to height
      invariant red == ChannelSum(pixels[..y * width], Red)
      invariant green == ChannelSum(pixels[..y * width], Green)
      invariant blue == ChannelSum(pixels[..y * width], Blue)
    {
      RowMajorInRange(0, y, width, height);
      for x := 0 to width
        invariant y * width + x <= |pixels|
        invariant red == ChannelSum(pixels[..y * width + x], Red)
        invariant green == ChannelSum(pixels[..y * width + x], Green)
        invariant blue == ChannelSum(pixels[..y * width + x], Blue)
        invariant red <= INT_MAX && green <= INT_MAX && blue <= INT_MAX
      {
        RowMajorInRange(x, y, width, height);
        var pos := y * width + x;
        var rgb := pixels[pos];
        red := red + ChannelOf(rgb, Red);
        green := green + ChannelOf(rgb, Green);
        blue := blue + ChannelOf(rgb, Blue);
        SumByStep(pixels, pos, ChannelWeight(Red));
        SumByStep(pixels, pos, ChannelWeight(Green));
        SumByStep(pixels, pos, ChannelWeight(Blue));
      }
      assert y * width + width == (y + 1) * width;
    }
    assert pixels[..height * width] == pixels;
  }

  /** An image of one solid colour has that colour as its mean. */
  lemma SolidImageMeanColor(img: Raster, rgb: int)
    requires Valid(img)
    requires forall k :: 0 <= k < |img.pixels| ==> img.pixels[k] == rgb
    ensures ImageMeanColor(img) == ColorOf(rgb)
  {
    var n := img.width * img.height;
    SumByConstant(img.pixels, ChannelWeight(Red), ChannelOf(rgb, Red));
    SumByConstant(img.pixels, ChannelWeight(Green), ChannelOf(rgb, Green));
    SumByConstant(img.pixels, ChannelWeight(Blue), ChannelOf(rgb, Blue));
    DivPlus(ChannelOf(rgb, Red), 0, n);
    DivPlus(ChannelOf(rgb, Green), 0, n);
    DivPlus(ChannelOf(rgb, Blue), 0, n);
  }

  // ------------------------------------------------------------------
  // The mean colour of all given images, as documented.

  /** The number of pixels of an image, as a term of a sum over images. */
  const PixelCount: Raster -> int := (img: Raster) => |img.pixels|

  /** 255 times the pixel count: the largest possible channel sum of an image. */
  const ScaledPixelCount: Raster -> int := (img: Raster) => 255 * |img.pixels|

  function ImageChannelSum(ch: Channel): Raster -> int
  {
    (img: Raster) => ChannelSum(img.pixels, ch)
  }

  /** Sum of one channel over every pixel of every image, at most 255 per pixel. */
  function PooledChannelSum(images: seq<Raster>, ch: Channel): (s: int)
    ensures 0 <= s <= 255 * SumBy(images, PixelCount)
  {
    SumByAtLeast(images, ImageChannelSum(ch), 0);
    SumByMonotone(images, ImageChannelSum(ch), ScaledPixelCount);
    SumByScale(images, PixelCount, ScaledPixelCount, 255);
    SumBy(images, ImageChannelSum(ch))
  }

  /**
   * The mean colour of all given images: every channel summed over all
   * pixels of all images and divided by the total pixel count; PINK when
   * there are no images.
   */
  function PooledMeanColor(images: seq<Raster>): (c: Color)
    requires AllValid(images)
    ensures images == [] ==> c == PINK
    ensures ValidColor(c)
  {
    if images == [] then PINK
    else
      SumByAtLeast(images, PixelCount, 1);
      var n := SumBy(images, PixelCount);
      ClampOfMeanIsNoop(PooledChannelSum(images, Red), n);
      ClampOfMeanIsNoop(PooledChannelSum(images, Green), n);
      ClampOfMeanIsNoop(PooledChannelSum(images, Blue), n);
      Color(PooledChannelSum(images, Red) / n,
            PooledChannelSum(images, Green) / n,
            PooledChannelSum(images, Blue) / n)
  }

  /** The pooled mean does not depend on the order the images are given in. */
  lemma PooledMeanColorPermutation(xs: seq<Raster>, ys: seq<Raster>)
    requires AllValid(xs) && AllValid(ys)
    requires multiset(xs) == multiset(ys)
    ensures PooledMeanColor(xs) == PooledMeanColor(ys)
  {
    if xs != [] {
      assert xs[0] in multiset(ys);
      SumByPermutation(xs, ys, PixelCount);
      SumByPermutation(xs, ys, ImageChannelSum(Red));
      SumByPermutation(xs, ys, ImageChannelSum(Green));
      SumByPermutation(xs, ys, ImageChannelSum(Blue));
    } else {
      assert |multiset(ys)| == 0;
    }
  }

  /** n copies of one image have that image's own mean as their pooled mean. */
  lemma PooledMeanOfCopies(img: Raster, n: int)
    requires Valid(img) && n >= 1
    ensures PooledMeanColor(seq(n, _ => img)) == ImageMeanColor(img)
  {
    var images := seq(n, _ => img);
    var count := img.width * img.height;
    SumByConstant(images, PixelCount, count);
    SumByConstant(images, ImageChannelSum(Red), ChannelSum(img.pixels, Red));
    SumByConstant(images, ImageChannelSum(Green), ChannelSum(img.pixels, Green));
    SumByConstant(images, ImageChannelSum(Blue), ChannelSum(img.pixels, Blue));
    ScaledDivision(ChannelSum(img.pixels, Red), count, n);
    ScaledDivision(ChannelSum(img.pixels, Green), count, n);
    ScaledDivision(ChannelSum(img.pixels, Blue), count, n);
  }

  /** (s * n) / (d * n) == s / d for a non-negative sum s. */
  lemma ScaledDivision(s: int, d: int, n: int)
    requires s >= 0 && d >= 1 && n >= 1
    ensures (s * n) / (d * n) == s / d
  {
    var q, r := s / d, s % d;
    assert s * n == q * (d * n) + r * n;
    assert r * n < d * n;
    DivPlus(q, r * n, d * n);
  }

  /**
   * The means of the solid red and solid blue 2x2 images.  Since
   * getMeanColor reports the mean of the last image only, it reports pure
   * blue for [red, blue] and pure red for [blue, red].
   */
  lemma RedBlueMeanColors()
    ensures Valid(RED_2X2) && Valid(BLUE_2X2)
    ensures ImageMeanColor(BLUE_2X2) == Color(0, 0, 255)
    ensures ImageMeanColor(RED_2X2) == Color(255, 0, 0)
  {
    SolidImageMeanColor(RED_2X2, 0xFF0000);
    SolidImageMeanColor(BLUE_2X2, 0xFF);
    assert ColorOf(0xFF0000) == Color(255, 0, 0);
    assert ColorOf(0xFF) == Color(0, 0, 255);
  }

  /** Pooling the two images gives the purple half-way between them, in either order. */
  lemma RedBluePooledMeanColor()
    ensures PooledMeanColor([RED_2X2, BLUE_2X2]) == Color(127, 0, 127)
    ensures PooledMeanColor([BLUE_2X2, RED_2X2]) == Color(127, 0, 127)
  {
    var both := [RED_2X2, BLUE_2X2];
    SumByPair(RED_2X2, BLUE_2X2, PixelCount);
    SumByPair(RED_2X2, BLUE_2X2, ImageChannelSum(Red));
    SumByPair(RED_2X2, BLUE_2X2, ImageChannelSum(Green));
    SumByPair(RED_2X2, BLUE_2X2, ImageChannelSum(Blue));
    SumByConstant(RED_2X2.pixels, ChannelWeight(Red), 255);
    SumByConstant(RED_2X2.pixels, ChannelWeight(Green), 0);
    SumByConstant(RED_2X2.pixels, ChannelWeight(Blue), 0);
    SumByConstant(BLUE_2X2.pixels, ChannelWeight(Red), 0);
    SumByConstant(BLUE_2X2.pixels, ChannelWeight(Green), 0);
    SumByConstant(BLUE_2X2.pixels, ChannelWeight(Blue), 255);
    assert SumBy(both, PixelCount) == 8;
    assert PooledChannelSum(both, Red) == 1020;
    assert PooledChannelSum(both, Blue) == 1020;
    assert PooledChannelSum(both, Green) == 0;
    PooledMeanColorPermutation(both, [BLUE_2X2, RED_2X2]);
  }

  /**
   * getMeanColor on [red, blue] reports pure blue, which is not the mean
   * colour of the two images.
   */
  method GetMeanColorRedThenBlue() returns (c: Color)
    ensures c == Color(0, 0, 255)
    ensures c != PooledMeanColor([RED_2X2, BLUE_2X2])
  {
    RedBlueMeanColors();
    RedBluePooledMeanColor();
    c := GetMeanColor([RED_2X2, BLUE_2X2]);
  }
}
