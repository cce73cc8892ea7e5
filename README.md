# Dataset viewer: categories, mean colour and mean image

This project is a Dafny model of the core of a small Swing dataset viewer
(`de.htw.mp.ui`). The viewer has two halves.

* `DatasetViewerBase` scans a directory for `*.{jpg,jpeg,png}` files. It
  groups them into categories by the text before the first `_` of each file
  name. It lists the categories, sorted, behind an extra "All" category.
  When a category or a file is selected, it hands the matching files to the
  averaging engine.
* `DatasetViewer` is that averaging engine.
  * `getMeanColor` averages the red, green and blue channels of packed
    `0xAARRGGBB` pixels.
  * `getMeanImage` averages, pixel index by pixel index, over all
    selected images.
  * `preventColorOverflow` clamps a channel to [0, 255].
  * `ensureCorrectColorSpectrum` normalises the pixel type.

Modules:

* `Pixels`: channel extraction and packing, and the clamp.
* `Sums`: the sum that every accumulator loop computes.
* `Images`: rasters and the pixel-type normalisation.
* `MeanColor`: getMeanColor, and the pooled mean colour its documentation
  describes.
* `MeanImage`: getMeanImage, with its two exception paths modelled as a
  `Result` failure.
* `Categories`: the file-name category, grouping, file-name filtering and
  `String.compareTo` ordering.
* `Viewer`: the class `DatasetViewerBase` with its map, its two list
  models and what its image and colour views show as fields. The event
  handlers and `updateMeanColorAndImage` are methods on it. When
  getMeanImage throws inside a handler, the handler stops there, as the
  Java exception does.

Pixels are Java `int`s. `(rgb >> k) & 0xff` is modelled as
`(rgb / 2^k) % 256`. That is exact for negative pixels too: for a positive
divisor, Dafny's `/` is floor division, which is what the arithmetic shift
does, and Dafny's `%` is the non-negative remainder, which is what
`& 0xff` keeps.

## Model

| member | source | states |
|---|---|---|
| Pixels.ChannelOf | src/main/java/de/htw/mp/ui/DatasetViewer.java:63-65 | a channel read with shift and mask is always in 0..255 |
| Pixels.ColorOf | src/main/java/de/htw/mp/ui/DatasetViewer.java:134-136 | the three channels of any pixel form a colour `new Color` accepts |
| Pixels.ChannelIgnoresAlpha | src/main/java/de/htw/mp/ui/DatasetViewer.java:134-136 | adding any multiple of 2^24 (the alpha byte) to a pixel leaves all three channels unchanged |
| Pixels.OrOfFieldsIsSum | src/main/java/de/htw/mp/ui/DatasetViewer.java:152 | on 32-bit words, `(r << 16) \| (g << 8) \| b` with byte-sized channels equals r*2^16 + g*2^8 + b |
| Pixels.Pack | src/main/java/de/htw/mp/ui/DatasetViewer.java:152 | the packed pixel of three in-range channels lies in 0..2^24-1, i.e. its alpha byte is zero |
| Pixels.UnpackPack | src/main/java/de/htw/mp/ui/DatasetViewer.java:152 | packing three in-range channels and extracting them again gives back each channel; the packed value has a zero alpha byte |
| Pixels.PreventColorOverflow | src/main/java/de/htw/mp/ui/DatasetViewer.java:160-170 | result is 255 above 255, 0 below 0, and the input when it is in range; always in 0..255 |
| Pixels.PreventColorOverflowIdempotent | src/main/java/de/htw/mp/ui/DatasetViewer.java:160-170 | clamping twice is clamping once |
| Pixels.PreventColorOverflowIsMinMax | src/main/java/de/htw/mp/ui/DatasetViewer.java:160-170 | the clamp equals min(255, max(0, v)) |
| Pixels.ClampOfMeanIsNoop | src/main/java/de/htw/mp/ui/DatasetViewer.java:143-150 | the truncated mean of n channel values is in range, so the clamp does not change it |
| Sums.SumByPermutation | src/main/java/de/htw/mp/ui/DatasetViewer.java:122-141 | an accumulated sum does not depend on the order of its terms |
| Sums.SumByAppend | src/main/java/de/htw/mp/ui/DatasetViewer.java:60-67 | the sum over a concatenation is the sum of the two parts |
| Sums.SumByConstant | src/main/java/de/htw/mp/ui/DatasetViewer.java:60-67 | n equal terms c sum to n*c |
| Sums.SumByAtMost | src/main/java/de/htw/mp/ui/DatasetViewer.java:60-67 | terms bounded by hi give a sum bounded by hi times the count |
| Images.EnsureCorrectColorSpectrum | src/main/java/de/htw/mp/ui/DatasetViewer.java:172-185 | an INT_RGB or INT_ARGB image is returned unchanged; any other image becomes an INT_RGB image of the same size holding the redrawn pixels; the result's type is always INT_RGB or INT_ARGB |
| Images.RowMajorInRange | src/main/java/de/htw/mp/ui/DatasetViewer.java:60-62 | `y * width + x` for x < width and y < height indexes inside the width*height pixel array |
| MeanColor.ChannelSum | src/main/java/de/htw/mp/ui/DatasetViewer.java:60-67 | a channel summed over n pixels lies in 0..255*n |
| MeanColor.ImageMeanColor | src/main/java/de/htw/mp/ui/DatasetViewer.java:68-70 | the per-image mean is a valid colour |
| MeanColor.SumChannels | src/main/java/de/htw/mp/ui/DatasetViewer.java:53-67 | the row-by-row pixel loops sum every pixel of the raster, per channel, without leaving the Java int range |
| MeanColor.LastImageMeanColor | src/main/java/de/htw/mp/ui/DatasetViewer.java:28-80 | the colour getMeanColor reports (PINK, or the last image's mean) is always a colour `new Color` accepts |
| MeanColor.GetMeanColor | src/main/java/de/htw/mp/ui/DatasetViewer.java:28-80 | PINK for no images; otherwise the mean colour of the LAST image only, i.e. LastImageMeanColor; always a valid colour |
| MeanColor.SolidImageMeanColor | src/main/java/de/htw/mp/ui/DatasetViewer.java:60-70 | an image of one solid colour has that colour as its mean |
| MeanColor.RedBlueMeanColors | src/main/java/de/htw/mp/ui/DatasetViewer.java:36-79 | the solid red and solid blue 2x2 images have means (255,0,0) and (0,0,255), so getMeanColor reports blue for [red, blue] and red for [blue, red] |
| MeanColor.GetMeanColorRedThenBlue | src/main/java/de/htw/mp/ui/DatasetViewer.java:28-80 | getMeanColor on [red 2x2, blue 2x2] returns (0,0,255), which differs from the pooled mean of the two images |
| MeanColor.PooledMeanColor | src/main/java/de/htw/mp/ui/DatasetViewer.java:22-28 | the mean over all pixels of all images: PINK for no images, always a valid colour |
| MeanColor.PooledMeanColorPermutation | src/main/java/de/htw/mp/ui/DatasetViewer.java:22-28 | the pooled mean does not depend on the order of the images |
| MeanColor.PooledMeanOfCopies | src/main/java/de/htw/mp/ui/DatasetViewer.java:22-28 | n copies of one image have that image's own mean as their pooled mean |
| MeanColor.RedBluePooledMeanColor | src/main/java/de/htw/mp/ui/DatasetViewer.java:22-28 | the pooled mean of the red and blue 2x2 images is (127,0,127) in either order |
| MeanImage.PixelChannelSum | src/main/java/de/htw/mp/ui/DatasetViewer.java:122-141 | a channel of one pixel index summed over n images lies in 0..255*n |
| MeanImage.MeanChannel | src/main/java/de/htw/mp/ui/DatasetViewer.java:143-150 | the clamped channel mean equals the truncated mean of the channel sum, and lies in 0..255: the clamp never fires |
| MeanImage.MeanPixel | src/main/java/de/htw/mp/ui/DatasetViewer.java:152 | an output pixel lies in 0..2^24-1: its alpha byte is zero (its channels are stated by MeanPixelChannels) |
| MeanImage.MeanImageOf | src/main/java/de/htw/mp/ui/DatasetViewer.java:106-109 | the mean image has the first image's width and height, and one pixel per position |
| MeanImage.SumPixelChannels | src/main/java/de/htw/mp/ui/DatasetViewer.java:122-141 | for pixel index p: the channel sums over all images, exactly when every image has a pixel p; otherwise the first image that lacks it |
| MeanImage.GetMeanImage | src/main/java/de/htw/mp/ui/DatasetViewer.java:88-158 | fails with NoImages exactly for an empty selection; succeeds exactly when every image has at least as many pixels as the first, and then returns the mean image; otherwise reports the first pixel index and the first image that is out of bounds there |
| MeanImage.MeanPixelChannels | src/main/java/de/htw/mp/ui/DatasetViewer.java:143-152 | every channel of an output pixel is the truncated mean of that channel over the images, and its alpha byte is zero |
| MeanImage.MeanImageOfCopies | src/main/java/de/htw/mp/ui/DatasetViewer.java:112-153 | n copies of one image average to an image with that image's size and that image's colour at every pixel |
| MeanImage.MeanImagePermutation | src/main/java/de/htw/mp/ui/DatasetViewer.java:112-153 | for images of one size, the mean image does not depend on their order |
| MeanImage.RedBlueMeanImage | src/main/java/de/htw/mp/ui/DatasetViewer.java:112-153 | the mean image of the red and blue 2x2 images is 0x7F007F at every pixel |
| Categories.IsImageName | src/main/java/de/htw/mp/ui/DatasetViewerBase.java:250 | a name matching `*.{jpg,jpeg,png}` has at least 4 characters and ends in 'g' |
| Categories.ImageNameSplitHasFirst | src/main/java/de/htw/mp/ui/DatasetViewerBase.java:250-252 | a name that passes the `*.{jpg,jpeg,png}` glob is not made only of '_', so `split("_")[0]` exists |
| Categories.CategoryOf | src/main/java/de/htw/mp/ui/DatasetViewerBase.java:252 | the category is a prefix of the name, contains no '_', and is either the whole name or followed by '_' |
| Categories.CategoryOfUnique | src/main/java/de/htw/mp/ui/DatasetViewerBase.java:252 | any string with those three properties is the category |
| Categories.Categorize | src/main/java/de/htw/mp/ui/DatasetViewerBase.java:249-256 | every entry of the categorised map is non-empty, and every file listed under a category has that category |
| Categories.FilesIn | src/main/java/de/htw/mp/ui/DatasetViewerBase.java:253-255 | selecting files by category yields at most the scanned files, each of a selected category |
| Categories.CategorizeContents | src/main/java/de/htw/mp/ui/DatasetViewerBase.java:249-256 | the scan builds one entry per category that occurs, and each entry lists exactly that category's files in scan order |
| Categories.FilesInCount | src/main/java/de/htw/mp/ui/DatasetViewerBase.java:251-255 | a file occurs in its own category's list as often as it was scanned, and in no other list |
| Categories.FilesInEvery | src/main/java/de/htw/mp/ui/DatasetViewerBase.java:264-267 | selecting every category that occurs selects every scanned file, in scan order |
| Categories.FileNames | src/main/java/de/htw/mp/ui/DatasetViewerBase.java:186-187 | one file name per file, position by position |
| Categories.WithFileName | src/main/java/de/htw/mp/ui/DatasetViewerBase.java:203-206 | the name filter yields at most the given files, each one of them and each with the selected name |
| Categories.WithFileNameCount | src/main/java/de/htw/mp/ui/DatasetViewerBase.java:203-206 | the name filter keeps every file with that name as often as it occurs, and nothing else |
| Categories.WithFileNameSingle | src/main/java/de/htw/mp/ui/DatasetViewerBase.java:203-206 | in a list with distinct file names, filtering by a listed name yields exactly that file |
| Categories.LexLess | src/main/java/de/htw/mp/ui/DatasetViewerBase.java:272 | a name never comes strictly before itself |
| Categories.LexLessTransitive | src/main/java/de/htw/mp/ui/DatasetViewerBase.java:272 | the `compareTo` order is transitive |
| Categories.LexLessTotal | src/main/java/de/htw/mp/ui/DatasetViewerBase.java:272 | any two different names are ordered one way or the other |
| Categories.Insert | src/main/java/de/htw/mp/ui/DatasetViewerBase.java:272 | inserting a new name into a strictly sorted list keeps it strictly sorted and adds exactly that name |
| Categories.SortedNames | src/main/java/de/htw/mp/ui/DatasetViewerBase.java:272 | the sorted key list is strictly ascending and holds every key exactly once |
| Categories.SortNames | src/main/java/de/htw/mp/ui/DatasetViewerBase.java:272 | sorting the key set, whatever order the set hands its keys out in, yields the sorted key list |
| Categories.StrictlySortedUnique | src/main/java/de/htw/mp/ui/DatasetViewerBase.java:272 | two strictly sorted lists with the same names are equal, so the sorted listing is unique |
| Viewer.DatasetViewerBase.constructor | src/main/java/de/htw/mp/ui/DatasetViewerBase.java:82-165 | an empty map and two empty lists; the start image's mean colour in the colour view and the start image itself in the image view |
| Viewer.DatasetViewerBase.OnOpenDirectoryClick | src/main/java/de/htw/mp/ui/DatasetViewerBase.java:237-277 | the map's keys become the categories plus "All"; every other category maps to its files in scan order; "All" holds every scanned file exactly once; the category list is "All" then the sorted categories; the file list is empty; the image view is empty and the colour view white; every listed category is a key |
| Viewer.DatasetViewerBase.ScanCategories | src/main/java/de/htw/mp/ui/DatasetViewerBase.java:249-267 | the map is the categorisation of the scanned files, and the "All" list is a permutation of them |
| Viewer.DatasetViewerBase.CategorizeFiles | src/main/java/de/htw/mp/ui/DatasetViewerBase.java:249-256 | the clear-then-append loop builds the categorised map |
| Viewer.DatasetViewerBase.ResetAll | src/main/java/de/htw/mp/ui/DatasetViewerBase.java:282-287 | both list models become empty, the image view shows nothing and the colour view white |
| Viewer.DatasetViewerBase.ListCategories | src/main/java/de/htw/mp/ui/DatasetViewerBase.java:270-272 | the category list becomes "All" followed by the sorted keys, and everything it lists except "All" is a key |
| Viewer.DatasetViewerBase.ListCategoryNames | src/main/java/de/htw/mp/ui/DatasetViewerBase.java:271-272 | "All" and then the given names are appended to the list model, in order |
| Viewer.DatasetViewerBase.PutAll | src/main/java/de/htw/mp/ui/DatasetViewerBase.java:275 | the "All" entry is set, replacing any category of that name, and after it every listed category is a key |
| Viewer.DatasetViewerBase.UpdateMeanColorAndImage | src/main/java/de/htw/mp/ui/DatasetViewerBase.java:219-228 | the colour view shows getMeanColor's result; the image view shows the mean image exactly when getMeanImage returns, and is left unchanged when it throws; it throws NoImages exactly for no files |
| Viewer.DatasetViewerBase.OnCategoryListChange | src/main/java/de/htw/mp/ui/DatasetViewerBase.java:174-190 | no selection changes nothing; for a selected category the displays are updated from its files, and the file list becomes their names in order only when getMeanImage returns; when it throws the file list and image view keep their previous contents |
| Viewer.DatasetViewerBase.ListFileNames | src/main/java/de/htw/mp/ui/DatasetViewerBase.java:185-187 | the file list is cleared and then holds each file's name, in order |
| Viewer.DatasetViewerBase.OnImageFileListChange | src/main/java/de/htw/mp/ui/DatasetViewerBase.java:197-212 | with a category and a file name selected, the displays are updated from that category's files having that exact name (image view only if getMeanImage returns); otherwise nothing changes |
| Viewer.FlattenCategories | src/main/java/de/htw/mp/ui/DatasetViewerBase.java:264-267 | concatenating the category lists, in any order of the map, yields every scanned file exactly once |
| Viewer.OpenedMap | src/main/java/de/htw/mp/ui/DatasetViewerBase.java:264-275 | after "All" is put, the keys are the categories plus "All", and every other category keeps exactly its files |
| Viewer.ListedAreCategories | src/main/java/de/htw/mp/ui/DatasetViewerBase.java:271-272 | "All" followed by the sorted keys lists nothing but "All" and keys |
| Viewer.MixedSizesThrow | src/main/java/de/htw/mp/ui/DatasetViewer.java:122-133 | for a 2x2 image followed by a 1x1 image getMeanImage does not return, so a category like that leaves the file list unchanged when selected |
| Viewer.AllListedTwice | src/main/java/de/htw/mp/ui/DatasetViewerBase.java:271-275 | when a file's category is itself "All", the category list shows "All" a second time |

## Left out

- Image decoding (`ImageIO.read`) and its `IOException` are not modelled. A decoded raster is an input. A failed read, where `ImageIO.read` returns null and the next call throws `NullPointerException`, is not modelled.
- The Swing widgets, layout and the directory chooser dialog are not modelled. The image view and the colour view are modelled only as the image and colour they show. Decoding a file is a parameter `decode` of the handlers.
- The directory stream is not modelled. `OnOpenDirectoryClick` receives the files the glob lets through, in the stream's order. An `IOException` in the middle of a scan is not modelled.
- Categories.IsImageName: the glob's case sensitivity depends on the file system; the model matches the suffixes exactly.
- Categories.LexLess: it compares characters by code point. Java's `compareTo` compares UTF-16 code units, and the two differ only for characters outside the Basic Multilingual Plane.
- An exception other than getMeanImage's two index failures is not modelled, e.g. the `NullPointerException` after a failed decode.
- `getValueIsAdjusting` is not modelled. The handlers model only the final, settled selection event.
- Viewer.DatasetViewerBase.constructor: the lookup and decoding of the bundled start image (`Hummel.jpg`) are not modelled; the decoded image is a parameter. A failure of that lookup, which the constructor catches, is not modelled.
- The console messages (`System.out.println`, `printStackTrace`) are not modelled.
- Images.EnsureCorrectColorSpectrum: the pixels `Graphics2D.drawImage` produces belong to the Java library, so the caller passes them in.
- MeanColor.GetMeanColor: it requires every image to have at most 8421504 pixels. More pixels could overflow the Java `int` channel sum, and the model does not capture that wrap-around.
- MeanImage.GetMeanImage: it requires at most 8421504 images, for the same overflow reason. It returns the packed values it computed. It does not model the alpha byte that `setRGB` on an INT_RGB image makes `getRGB` report.
- Viewer.DatasetViewerBase.UpdateMeanColorAndImage: it requires the files it is given to decode to proper rasters within the two overflow bounds above (Viewer.Decodable), because it calls GetMeanColor and GetMeanImage. OnCategoryListChange requires this of the selected category's files, and OnImageFileListChange only of the files with the selected name, since those are all each one hands over.
- MeanImage.GetMeanImage: the documentation says the result is null when there are no images. The code throws `ArrayIndexOutOfBoundsException` at `images[0]` instead. The model follows the code and returns the failure `NoImages`.
- MeanImage.MeanImagePermutation: it requires images of one size. For images of different widths, the same linear pixel index points at different positions, and the model makes no claim there.
- Viewer.DatasetViewerBase.OnOpenDirectoryClick: it requires every scanned name to have a first `split("_")` element. Names made only of '_' would make the source throw; the glob never lets one through (Categories.ImageNameSplitHasFirst).
- Viewer.DatasetViewerBase.OnOpenDirectoryClick: the map's list objects are modelled as values. This does not capture that a list handed out by `getOrDefault` is the same object the map holds.
- Viewer.FlattenCategories: `HashMap` iteration order is unspecified, so the model picks categories in an arbitrary order. It states only that each file occurs exactly once, not the order.

## Findings

| source | as written | input that shows it | evidently intended | confidence | as-written member | corrected member |
|---|---|---|---|---|---|---|
| src/main/java/de/htw/mp/ui/DatasetViewer.java:36-79 | every image overwrites `avrRed`/`avrGreen`/`avrBlue`, so only the last image determines the colour | the solid red and solid blue 2x2 images, in the order [red, blue], give (0,0,255) | the mean colour of all given images, as documented at line 23: (127,0,127) for that input | not executed | MeanColor.GetMeanColorRedThenBlue, MeanColor.GetMeanColor, MeanColor.RedBlueMeanColors | MeanColor.PooledMeanColor, MeanColor.RedBluePooledMeanColor, MeanColor.PooledMeanColorPermutation |
