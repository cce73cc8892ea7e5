/**
 * `DatasetViewer.getMeanImage`: an image the size of the first input
 * whose every pixel is the per-channel integer mean, over all inputs, of
 * the pixel at the same linear index.
 */
module MeanImage {
  import opened Pixels
  import opened Sums
  import opened Images

  /**
   * The two places getMeanImage throws ArrayIndexOutOfBoundsException:
   * `images[0]` when no file is given, and `crntPixels[pixelPointer]` when
   * an image has fewer pixels than the first one.
   */
  datatype MeanImageError =
    | NoImages
    | PixelIndexOutOfBounds(image: int, index: int)

  datatype Result<+T, +E> = Success(value: T) | Failure(error: E)

  /** Every image has at least n pixels, so indices below n can be read in all of them. */
  predicate HasPixels(images: seq<Raster>, n: int)
  {
    forall i :: 0 <= i < |images| ==> n <= |images[i].pixels|
  }

  /** Channel ch of pixel p of an image, as a term of the per-pixel sum. */
  function PixelChannel(p: int, ch: Channel): Raster -> int
  {
    (img: Raster) => if 0 <= p < |img.pixels| then ChannelOf(img.pixels[p], ch) else 0
  }

  /** Channel ch of pixel p summed over all images (`currentRed += r`). */
  function PixelChannelSum(images: seq<Raster>, p: int, ch: Channel): (s: int)
    ensures 0 <= s <= 255 * |images|
  {
    SumByAtLeast(images, PixelChannel(p, ch), 0);
    SumByAtMost(images, PixelChannel(p, ch), 255);
    SumBy(images, PixelChannel(p, ch))
  }

  /**
   * The clamped integer mean of channel ch at pixel p.  The mean of
   * in-range channel values is itself in range, so the clamp never fires.
   */
  function MeanChannel(images: seq<Raster>, p: int, ch: Channel): (v: int)
    requires |images| >= 1
    ensures v == PixelChannelSum(images, p, ch) / |images|
    ensures InByteRange(v)
  {
    ClampOfMeanIsNoop(PixelChannelSum(images, p, ch), |images|);
    PreventColorOverflow(PixelChannelSum(images, p, ch) / |images|)
  }

  /** Output pixel p: the three mean channels packed as `(r << 16) | (g << 8) | b`. */
  function MeanPixel(images: seq<Raster>, p: int): (rgb: int)
    requires |images| >= 1
    ensures 0 <= rgb < ALPHA_UNIT
  {
    Pack(MeanChannel(images, p, Red), MeanChannel(images, p, Green), MeanChannel(images, p, Blue))
  }

  /** The mean image getMeanImage returns when it does not throw. */
  function MeanImageOf(images: seq<Raster>): (r: Raster)
    requires |images| >= 1 && Valid(images[0])
    ensures Valid(r)
    ensures r.width == images[0].width && r.height == images[0].height
  {
    var n := images[0].width * images[0].height;
    Raster(images[0].width, images[0].height, seq(n, p => MeanPixel(images, p)))
  }

  /** What the inner loop over the images yields for one pixel index. */
  datatype PixelSums =
    | ChannelSums(red: int, green: int, blue: int)
    | MissingIn(image: int)

  /**
   * The inner loop of getMeanImage: channel sums of pixel p over all
   * images, or the first image that has no pixel p (where
   * `crntPixels[pixelPointer]` throws).
   */
  method SumPixelChannels(images: seq<Raster>, p: int) returns (sums: PixelSums)
    requires 0 <= p && |images| <= MAX_SUMMED_CHANNELS
    ensures sums.ChannelSums? <==> HasPixels(images, p + 1)
    ensures sums.ChannelSums? ==>
      && sums.red == PixelChannelSum(images, p, Red)
      && sums.green == PixelChannelSum(images, p, Green)
      && sums.blue == PixelChannelSum(images, p, Blue)
    ensures sums.MissingIn? ==>
      && 0 <= sums.image < |images|
      && |images[sums.image].pixels| <= p
      && forall j :: 0 <= j < sums.image ==> p < |images[j].pixels|
  {
    var currentRed, currentGreen, currentBlue := 0, 0, 0;
    for i := 0 to |images|
      invariant forall j :: 0 <= j < i ==> p < |images[j].pixels|
      invariant currentRed == SumBy(images[..i], PixelChannel(p, Red))
      invariant currentGreen == SumBy(images[..i], PixelChannel(p, Green))
      invariant currentBlue == SumBy(images[..i], PixelChannel(p, Blue))
      invariant currentRed <= 255 * i && currentGreen <= 255 * i && currentBlue <= 255 * i
    {
      var crntPixels := images[i].pixels;
      if p >= |crntPixels| {
        return MissingIn(i);
      }
      var crntRGB := crntPixels[p];
      currentRed := currentRed + ChannelOf(crntRGB, Red);
      currentGreen := currentGreen + ChannelOf(crntRGB, Green);
      currentBlue := currentBlue + ChannelOf(crntRGB, Blue);
      SumByStep(images, i, PixelChannel(p, Red));
      SumByStep(images, i, PixelChannel(p, Green));
      SumByStep(images, i, PixelChannel(p, Blue));
    }
    assert images[..|images|] == images;
    sums := ChannelSums(currentRed, currentGreen, currentBlue);
  }

  /**
   * getMeanImage as written.  The output takes the first image's size; no
   * image is checked against it, so the first pixel index some image does
   * not have ends the run with an out-of-bounds failure, as does an empty
   * selection (the "return NULL" of the documentation is not what the code
   * does).  At most MAX_SUMMED_CHANNELS images keep the channel sums inside
   * a Java `int`.
   */
  method GetMeanImage(images: seq<Raster>) returns (r: Result<Raster, MeanImageError>)
    requires AllValid(images)
    requires |images| <= MAX_SUMMED_CHANNELS
    ensures images == [] <==> r == Failure(NoImages)
    ensures r.Success? <==> images != [] && HasPixels(images, |images[0].pixels|)
    ensures r.Success? ==> r.value == MeanImageOf(images)
    ensures r.Failure? && r.error.PixelIndexOutOfBounds? ==>
      var i, p := r.error.image, r.error.index;
      && 0 <= i < |images|
      && p == |images[i].pixels| < |images[0].pixels|
      && HasPixels(images, p)
      && forall j :: 0 <= j < i ==> p < |images[j].pixels|
  {
    if |images| == 0 {
      return Failure(NoImages);
    }
    var width, height := images[0].width, images[0].height;
    var avrPixels := new int[width * height];
    for pixelPointer := 0 to avrPixels.Length
      invariant HasPixels(images, pixelPointer)
      invariant forall q :: 0 <= q < pixelPointer ==> avrPixels[q] == MeanPixel(images, q)
    {
      var sums := SumPixelChannels(images, pixelPointer);
      if sums.MissingIn? {
        return Failure(PixelIndexOutOfBounds(sums.image, pixelPointer));
      }
      var avrRed := PreventColorOverflow(sums.red / |images|);
      var avrGreen := PreventColorOverflow(sums.green / |images|);
      var avrBlue := PreventColorOverflow(sums.blue / |images|);
      assert avrRed == MeanChannel(images, pixelPointer, Red);
      assert avrGreen == MeanChannel(images, pixelPointer, Green);
      assert avrBlue == MeanChannel(images, pixelPointer, Blue);
      avrPixels[pixelPointer] := Pack(avrRed, avrGreen, avrBlue);
    }
    assert avrPixels[..] == MeanImageOf(images).pixels;
    r := Success(Raster(width, height, avrPixels[..]));
  }

  /**
   * Unpacking an output pixel gives the truncated mean of each channel:
   * the clamp never changes a mean of in-range channels, and the alpha
   * byte of the packed value is zero.
   */
  lemma MeanPixelChannels(images: seq<Raster>, p: int)
    requires |images| >= 1
    ensures forall ch :: ChannelOf(MeanPixel(images, p), ch) == PixelChannelSum(images, p, ch) / |images|
    ensures 0 <= MeanPixel(images, p) < ALPHA_UNIT
  {
    var n := |images|;
    ClampOfMeanIsNoop(PixelChannelSum(images, p, Red), n);
    ClampOfMeanIsNoop(PixelChannelSum(images, p, Green), n);
    ClampOfMeanIsNoop(PixelChannelSum(images, p, Blue), n);
    UnpackPack(MeanChannel(images, p, Red), MeanChannel(images, p, Green), MeanChannel(images, p, Blue));
    forall ch: Channel
      ensures ChannelOf(MeanPixel(images, p), ch) == PixelChannelSum(images, p, ch) / n
    {
      match ch
      case Red =>
      case Green =>
      case Blue =>
    }
  }

  /** n copies of one image average, pixel by pixel, to that image's colours. */
  lemma MeanImageOfCopies(img: Raster, n: int)
    requires Valid(img) && n >= 1
    ensures MeanImageOf(seq(n, _ => img)).width == img.width
    ensures MeanImageOf(seq(n, _ => img)).height == img.height
    ensures forall p :: 0 <= p < |img.pixels| ==>
      ColorOf(MeanImageOf(seq(n, _ => img)).pixels[p]) == ColorOf(img.pixels[p])
  {
    forall p | 0 <= p < |img.pixels|
      ensures ColorOf(MeanPixel(seq(n, _ => img), p)) == ColorOf(img.pixels[p])
    {
      MeanPixelOfCopies(img, n, p);
    }
  }

  lemma MeanPixelOfCopies(img: Raster, n: int, p: int)
    requires Valid(img) && n >= 1 && 0 <= p < |img.pixels|
    ensures ColorOf(MeanPixel(seq(n, _ => img), p)) == ColorOf(img.pixels[p])
  {
    var copies := seq(n, _ => img);
    MeanPixelChannels(copies, p);
    MeanChannelOfCopies(img, n, p, Red);
    MeanChannelOfCopies(img, n, p, Green);
    MeanChannelOfCopies(img, n, p, Blue);
  }

  lemma MeanChannelOfCopies(img: Raster, n: int, p: int, ch: Channel)
    requires n >= 1 && 0 <= p < |img.pixels|
    ensures PixelChannelSum(seq(n, _ => img), p, ch) / n == ChannelOf(img.pixels[p], ch)
  {
    var copies := seq(n, _ => img);
    SumByConstant(copies, PixelChannel(p, ch), ChannelOf(img.pixels[p], ch));
    DivPlus(ChannelOf(img.pixels[p], ch), 0, n);
  }

  /**
   * When all images share one size, the order they are given in does not
   * change the mean image: each channel sum is a sum of integers.
   */
  lemma MeanImagePermutation(xs: seq<Raster>, ys: seq<Raster>)
    requires |xs| >= 1 && AllValid(xs) && multiset(xs) == multiset(ys)
    requires forall i :: 0 <= i < |xs| ==> xs[i].width == xs[0].width && xs[i].height == xs[0].height
    ensures |ys| >= 1 && Valid(ys[0])
    ensures MeanImageOf(xs) == MeanImageOf(ys)
  {
    assert |ys| == |multiset(ys)| == |xs|;
    assert ys[0] in multiset(xs);
    forall p | 0 <= p < |MeanImageOf(xs).pixels|
      ensures MeanPixel(xs, p) == MeanPixel(ys, p)
    {
      SumByPermutation(xs, ys, PixelChannel(p, Red));
      SumByPermutation(xs, ys, PixelChannel(p, Green));
      SumByPermutation(xs, ys, PixelChannel(p, Blue));
    }
  }

  /** The mean image of a pure red and a pure blue 2 x 2 image is (127, 0, 127) everywhere. */
  lemma RedBlueMeanImage()
    ensures MeanImageOf([RED_2X2, BLUE_2X2]) == Raster(2, 2, [0x7F007F, 0x7F007F, 0x7F007F, 0x7F007F])
  {
    var both := [RED_2X2, BLUE_2X2];
    forall p | 0 <= p < 4
      ensures MeanPixel(both, p) == 0x7F007F
    {
      RedBlueMeanPixel(p);
    }
  }

  lemma RedBlueMeanPixel(p: int)
    requires 0 <= p < 4
    ensures MeanPixel([RED_2X2, BLUE_2X2], p) == 0x7F007F
  {
    var both := [RED_2X2, BLUE_2X2];
    assert RED_2X2.pixels[p] == 0xFF0000 && BLUE_2X2.pixels[p] == 0xFF;
    SumByPair(RED_2X2, BLUE_2X2, PixelChannel(p, Red));
    SumByPair(RED_2X2, BLUE_2X2, PixelChannel(p, Green));
    SumByPair(RED_2X2, BLUE_2X2, PixelChannel(p, Blue));
    assert PixelChannelSum(both, p, Red) == 255;
    assert PixelChannelSum(both, p, Green) == 0;
    assert PixelChannelSum(both, p, Blue) == 255;
  }
}
