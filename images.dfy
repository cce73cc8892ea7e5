/**
 * Decoded images as the averaging engine sees them.  Decoding itself
 * (`ImageIO.read`) is an external codec: a decoded image is an input here.
 */
module Images {

  /**
   * A raster read with `getRGB(0, 0, width, height, pixels, 0, width)`:
   * `pixels[y * width + x]` is the packed 0xAARRGGBB value of (x, y).
   */
  datatype Raster = Raster(width: int, height: int, pixels: seq<int>)

  /** `BufferedImage` refuses non-positive sizes, and getRGB fills width * height ints. */
  predicate Valid(img: Raster)
  {
    img.width >= 1 && img.height >= 1 && |img.pixels| == img.width * img.height
  }

  predicate AllValid(images: seq<Raster>)
  {
    forall i :: 0 <= i < |images| ==> Valid(images[i])
  }

  /** The pixel type of a `BufferedImage` (`getType()`). */
  datatype ImageType = TypeIntRgb | TypeIntArgb | OtherType(code: int)

  datatype Image = Image(kind: ImageType, raster: Raster)

  /** A type `ensureCorrectColorSpectrum` leaves as it is. */
  predicate IsCanonical(kind: ImageType)
  {
    kind == TypeIntRgb || kind == TypeIntArgb
  }

  /**
   * `ensureCorrectColorSpectrum`: an image that is already INT_RGB or
   * INT_ARGB is returned as it is; any other image is redrawn into a fresh
   * INT_RGB image of the same size.  What `Graphics2D.drawImage` writes
   * into that image is decided by a library outside this model, so the
   * caller supplies those pixels as `redrawn`.
   */
  function EnsureCorrectColorSpectrum(img: Image, redrawn: seq<int>): (r: Image)
    ensures r.raster.width == img.raster.width && r.raster.height == img.raster.height
    ensures IsCanonical(r.kind)
    ensures IsCanonical(img.kind) ==> r == img
    ensures !IsCanonical(img.kind) ==> r.kind == TypeIntRgb && r.raster.pixels == redrawn
    ensures Valid(img.raster) && |redrawn| == |img.raster.pixels| ==> Valid(r.raster)
  {
    if IsCanonical(img.kind) then img
    else Image(TypeIntRgb, Raster(img.raster.width, img.raster.height, redrawn))
  }

  /** Two 2 x 2 images of one solid colour each, pure red and pure blue. */
  const RED_2X2: Raster := Raster(2, 2, [0xFF0000, 0xFF0000, 0xFF0000, 0xFF0000])
  const BLUE_2X2: Raster := Raster(2, 2, [0xFF, 0xFF, 0xFF, 0xFF])

  /** Row-major indexing stays inside a width * height raster. */
  lemma RowMajorInRange(x: int, y: int, width: int, height: int)
    requires 0 <= x < width && 0 <= y < height
    ensures 0 <= y * width + x < width * height
  {
    assert y * width + x < (y + 1) * width;
    assert (y + 1) * width <= height * width by {
      MulLeftMonotone(y + 1, height, width);
    }
  }

  lemma MulLeftMonotone(a: int, b: int, c: int)
    requires 0 <= a <= b && c >= 0
    ensures a * c <= b * c
  {
  }
}
