/**
 * The state DatasetViewerBase keeps besides its Swing widgets: the map
 * from category name to its files, and the contents of the two lists
 * (category names on the left, image file names on the right).  Event
 * handlers become methods taking the selection as a parameter and
 * returning the files they hand to `updateMeanColorAndImage`.
 */
module Viewer {
  import opened Categories
  import opened Pixels
  import Images
  import opened MeanColor
  import opened MeanImage

  datatype Option<+T> = None | Some(value: T)

  /** The extra category that holds every scanned file. */
  const ALL: string := "All"

  /**
   * The rasters the averaging methods work on, one per file in order:
   * `ImageIO.read` followed by ensureCorrectColorSpectrum.  Decoding is a
   * library call outside this model, so `decode` stands for it.
   */
  function Decoded(files: seq<File>, decode: File -> Images.Raster): (images: seq<Images.Raster>)
    ensures |images| == |files|
    ensures forall k :: 0 <= k < |files| ==> images[k] == decode(files[k])
  {
    seq(|files|, k requires 0 <= k < |files| => decode(files[k]))
  }

  /**
   * Every file decodes to a proper raster, and neither the pixel count of
   * one raster nor the number of files lets a channel sum leave a Java int.
   */
  predicate Decodable(files: seq<File>, decode: File -> Images.Raster)
  {
    && |files| <= MAX_SUMMED_CHANNELS
    && forall f :: f in files ==> Images.Valid(decode(f)) && |decode(f).pixels| <= MAX_SUMMED_CHANNELS
  }

  /** Whether getMeanImage returns, rather than throws, for these rasters. */
  predicate MeanImageReturns(images: seq<Images.Raster>)
  {
    images != [] && HasPixels(images, |images[0].pixels|)
  }

  class DatasetViewerBase {
    /** `categoryToFileList`: for each category its files. */
    var categoryToFileList: map<string, seq<File>>
    /** `categoryListModel`: the names shown in the category list. */
    var categoryListModel: seq<string>
    /** `imageFileListModel`: the file names shown in the image file list. */
    var imageFileListModel: seq<string>
    /** `colorDisplay`: the colour the colour view shows. */
    var colorDisplay: Color
    /** `imageDisplay`: the image the image view shows, `None` for null. */
    var imageDisplay: Option<Images.Raster>

    /** Every category the list shows has an entry in the map. */
    ghost predicate Valid()
      reads this
    {
      forall k :: 0 <= k < |categoryListModel| ==> categoryListModel[k] in categoryToFileList
    }

    /**
     * The constructor's start-up: empty map and lists, then the bundled
     * start image `start` goes through updateMeanColorAndImage, after
     * which the image view is set to the start image itself.
     */
    constructor (start: Images.Raster)
      requires Images.Valid(start) && |start.pixels| <= MAX_SUMMED_CHANNELS
      ensures Valid()
      ensures categoryToFileList == map[] && categoryListModel == [] && imageFileListModel == []
      ensures colorDisplay == ImageMeanColor(start)
      ensures imageDisplay == Some(start)
    {
      categoryToFileList := map[];
      categoryListModel := [];
      imageFileListModel := [];
      var meanColor := GetMeanColor([start]);
      colorDisplay := meanColor;
      imageDisplay := Some(start);
    }

    /**
     * onOpenDirectoryClick once a directory was chosen; `scanned` holds
     * its image files in the order the directory stream lists them.  The
     * map is cleared and rebuilt, the "All" list gathers the lists of all
     * categories in the map's own (unspecified) order, the category list
     * becomes "All" followed by the sorted category names, and only then
     * is "All" put into the map: a real category "All" is listed twice
     * and its entry replaced.
     */
    method OnOpenDirectoryClick(scanned: seq<File>)
      requires forall k :: 0 <= k < |scanned| ==> SplitHasFirst(scanned[k].name)
      modifies this
      ensures Valid()
      ensures categoryToFileList.Keys == CategoriesOf(scanned) + {ALL}
      ensures forall c :: c in CategoriesOf(scanned) && c != ALL ==>
        categoryToFileList[c] == FilesIn(scanned, {c})
      ensures multiset(categoryToFileList[ALL]) == multiset(scanned)
      ensures categoryListModel == [ALL] + SortedNames(CategoriesOf(scanned))
      ensures imageFileListModel == []
      ensures colorDisplay == WHITE && imageDisplay == None
    {
      var all := ScanCategories(scanned);
      CategorizeContents(scanned);
      ResetAll();
      ListCategories();
      PutAll(all);
      OpenedMap(scanned, all);
    }

    /**
     * The first half of onOpenDirectoryClick: the map is rebuilt from the
     * scanned files and the "All" list gathered from it.
     */
    method ScanCategories(scanned: seq<File>) returns (all: seq<File>)
      modifies this`categoryToFileList
      ensures categoryToFileList == Categorize(scanned)
      ensures multiset(all) == multiset(scanned)
    {
      CategorizeFiles(scanned);
      CategorizeContents(scanned);
      all := FlattenCategories(scanned, categoryToFileList);
    }

    /**
     * The category list becomes "All" followed by the map's keys in
     * `String.compareTo` order; every name it shows other than "All" is a key.
     */
    method ListCategories()
      requires categoryListModel == []
      modifies this`categoryListModel
      ensures categoryListModel == [ALL] + SortedNames(categoryToFileList.Keys)
      ensures forall k :: 0 <= k < |categoryListModel| ==>
        categoryListModel[k] == ALL || categoryListModel[k] in categoryToFileList
    {
      var names := SortNames(categoryToFileList.Keys);
      ListCategoryNames(names);
      ListedAreCategories(categoryToFileList.Keys, names);
    }

    /**
     * `categoryToFileList.put("All", ...)`: once this entry exists, every
     * name the category list shows is a key of the map.
     */
    method PutAll(all: seq<File>)
      requires forall k :: 0 <= k < |categoryListModel| ==>
        categoryListModel[k] == ALL || categoryListModel[k] in categoryToFileList
      modifies this`categoryToFileList
      ensures categoryToFileList == old(categoryToFileList)[ALL := all]
      ensures Valid()
    {
      categoryToFileList := categoryToFileList[ALL := all];
    }

    /**
     * The scan loop of onOpenDirectoryClick: the map is cleared, then each
     * file is appended to the list of its category.
     */
    method CategorizeFiles(scanned: seq<File>)
      modifies this`categoryToFileList
      ensures categoryToFileList == Categorize(scanned)
    {
      categoryToFileList := map[];
      for i := 0 to |scanned|
        invariant categoryToFileList == Categorize(scanned[..i])
      {
        var imageFile := scanned[i];
        var name := CategoryOf(imageFile.name);
        assert scanned[..i + 1][..i] == scanned[..i];
        // getOrDefault hands out the list the map already holds, which `add`
        // then extends in place; putIfAbsent stores a list that was new
        var cat := if name in categoryToFileList then categoryToFileList[name] else [];
        cat := cat + [imageFile];
        categoryToFileList := categoryToFileList[name := cat];
      }
      assert scanned[..|scanned|] == scanned;
    }

    /** resetAll: both lists emptied, no image shown, the colour view white. */
    method ResetAll()
      modifies this`categoryListModel, this`imageFileListModel, this`imageDisplay, this`colorDisplay
      ensures categoryListModel == [] && imageFileListModel == []
      ensures imageDisplay == None && colorDisplay == WHITE
    {
      categoryListModel := [];
      imageFileListModel := [];
      imageDisplay := None;
      colorDisplay := WHITE;
    }

    /**
     * `addElement("All")`, then `addElement` of each sorted category name
     * in turn.
     */
    method ListCategoryNames(names: seq<string>)
      modifies this`categoryListModel
      ensures categoryListModel == old(categoryListModel) + [ALL] + names
    {
      categoryListModel := categoryListModel + [ALL];
      ghost var start := categoryListModel;
      for k := 0 to |names|
        invariant categoryListModel == start + names[..k]
      {
        categoryListModel := categoryListModel + [names[k]];
        assert names[..k + 1] == names[..k] + [names[k]];
      }
      assert names[..|names|] == names;
    }

    /**
     * updateMeanColorAndImage: the colour view shows what getMeanColor
     * returns; then getMeanImage either returns an image, which the image
     * view shows, or throws, which leaves the image view as it was and
     * propagates to the caller (`thrown`).
     */
    method UpdateMeanColorAndImage(files: seq<File>, decode: File -> Images.Raster)
      returns (thrown: Option<MeanImageError>)
      requires Decodable(files, decode)
      modifies this`colorDisplay, this`imageDisplay
      ensures colorDisplay == LastImageMeanColor(Decoded(files, decode))
      ensures thrown.None? <==> MeanImageReturns(Decoded(files, decode))
      ensures thrown == Some(NoImages) <==> files == []
      ensures thrown.None? ==> imageDisplay == Some(MeanImageOf(Decoded(files, decode)))
      ensures thrown.Some? ==> imageDisplay == old(imageDisplay)
    {
      var images := Decoded(files, decode);
      assert Images.AllValid(images);
      var meanColor := GetMeanColor(images);
      colorDisplay := meanColor;
      var image := GetMeanImage(images);
      if image.Failure? {
        return Some(image.error);
      }
      imageDisplay := Some(image.value);
      return None;
    }

    /**
     * onCategoryListChange: with no selection nothing happens.  For a
     * selected category its files go to updateMeanColorAndImage first;
     * only when that returns is the image file list cleared and refilled
     * with their file names in list order.  When getMeanImage throws, the
     * list keeps its previous contents.
     */
    method OnCategoryListChange(selected: Option<string>, decode: File -> Images.Raster)
      returns (thrown: Option<MeanImageError>)
      requires Valid()
      requires selected.Some? ==>
        selected.value in categoryListModel && Decodable(categoryToFileList[selected.value], decode)
      modifies this`imageFileListModel, this`colorDisplay, this`imageDisplay
      ensures Valid()
      ensures selected.None? ==>
        && thrown.None?
        && imageFileListModel == old(imageFileListModel)
        && colorDisplay == old(colorDisplay) && imageDisplay == old(imageDisplay)
      ensures selected.Some? ==>
        var images := Decoded(categoryToFileList[selected.value], decode);
        && colorDisplay == LastImageMeanColor(images)
        && (thrown.None? <==> MeanImageReturns(images))
        && (thrown.None? ==> imageDisplay == Some(MeanImageOf(images)))
        && (thrown.None? ==> imageFileListModel == FileNames(categoryToFileList[selected.value]))
        && (thrown.Some? ==> imageDisplay == old(imageDisplay))
        && (thrown.Some? ==> imageFileListModel == old(imageFileListModel))
    {
      if selected.None? {
        return None;
      }
      var imageFiles := categoryToFileList[selected.value];
      thrown := UpdateMeanColorAndImage(imageFiles, decode);
      if thrown.Some? {
        return;
      }
      ListFileNames(imageFiles);
    }

    /** `imageFileListModel.clear()`, then `addElement` of each file name in list order. */
    method ListFileNames(imageFiles: seq<File>)
      modifies this`imageFileListModel
      ensures imageFileListModel == FileNames(imageFiles)
    {
      imageFileListModel := [];
      for k := 0 to |imageFiles|
        invariant imageFileListModel == FileNames(imageFiles[..k])
      {
        imageFileListModel := imageFileListModel + [imageFiles[k].name];
      }
      assert imageFiles[..|imageFiles|] == imageFiles;
    }

    /**
     * onImageFileListChange: with both a category and a file name
     * selected, the files of that category whose file name equals the
     * selected name go to updateMeanColorAndImage; otherwise nothing
     * happens.
     */
    method OnImageFileListChange(selectedCategory: Option<string>, selectedFile: Option<string>,
                                 decode: File -> Images.Raster)
      returns (thrown: Option<MeanImageError>)
      requires Valid()
      requires selectedCategory.Some? ==> selectedCategory.value in categoryListModel
      requires selectedCategory.Some? && selectedFile.Some? ==>
        Decodable(WithFileName(categoryToFileList[selectedCategory.value], selectedFile.value), decode)
      modifies this`colorDisplay, this`imageDisplay
      ensures Valid()
      ensures selectedCategory.None? || selectedFile.None? ==>
        thrown.None? && colorDisplay == old(colorDisplay) && imageDisplay == old(imageDisplay)
      ensures selectedCategory.Some? && selectedFile.Some? ==>
        var images := Decoded(WithFileName(categoryToFileList[selectedCategory.value], selectedFile.value), decode);
        && colorDisplay == LastImageMeanColor(images)
        && (thrown.None? <==> MeanImageReturns(images))
        && (thrown.None? ==> imageDisplay == Some(MeanImageOf(images)))
        && (thrown.Some? ==> imageDisplay == old(imageDisplay))
    {
      if selectedCategory.None? || selectedFile.None? {
        return None;
      }
      var imageFiles := WithFileName(categoryToFileList[selectedCategory.value], selectedFile.value);
      thrown := UpdateMeanColorAndImage(imageFiles, decode);
    }
  }

  /**
   * `values().stream().flatMap(files -> files.stream())`: the category
   * lists one after another, in the map's iteration order, which Java
   * leaves unspecified; every scanned file comes out exactly once.
   */
  method FlattenCategories(scanned: seq<File>, categoryToFileList: map<string, seq<File>>)
    returns (all: seq<File>)
    requires categoryToFileList.Keys == CategoriesOf(scanned)
    requires forall c :: c in categoryToFileList ==> categoryToFileList[c] == FilesIn(scanned, {c})
    ensures multiset(all) == multiset(scanned)
  {
    var categories := categoryToFileList.Keys;
    all := [];
    var remaining := categories;
    ghost var done: set<string> := {};
    FilesInNoCategory(scanned);
    while remaining != {}
      invariant done + remaining == categories && done !! remaining
      invariant multiset(all) == multiset(FilesIn(scanned, done))
      decreases remaining
    {
      var name :| name in remaining;
      FilesInAddCategory(scanned, done, name);
      all := all + categoryToFileList[name];
      remaining := remaining - {name};
      done := done + {name};
    }
    FilesInEvery(scanned, categories);
  }

  /**
   * The map onOpenDirectoryClick leaves behind: the categorized files plus
   * the "All" entry, which replaces a category of that name.
   */
  lemma OpenedMap(scanned: seq<File>, all: seq<File>)
    ensures Categorize(scanned)[ALL := all].Keys == CategoriesOf(scanned) + {ALL}
    ensures forall c :: c in CategoriesOf(scanned) && c != ALL ==>
      Categorize(scanned)[ALL := all][c] == FilesIn(scanned, {c})
  {
    CategorizeContents(scanned);
  }

  /** "All" followed by the sorted names shows nothing but "All" and the names. */
  lemma ListedAreCategories(keys: set<string>, names: seq<string>)
    requires names == SortedNames(keys)
    ensures forall k :: 0 <= k < |[ALL] + names| ==> ([ALL] + names)[k] == ALL || ([ALL] + names)[k] in keys
  {
    forall k | 1 <= k < |[ALL] + names|
      ensures ([ALL] + names)[k] in keys
    {
      assert ([ALL] + names)[k] == names[k - 1];
    }
  }

  /** When some file's category is "All", the category list shows "All" twice. */
  lemma AllListedTwice(scanned: seq<File>)
    requires ALL in CategoriesOf(scanned)
    ensures exists k :: (1 <= k < 1 + |SortedNames(CategoriesOf(scanned))| &&
      ([ALL] + SortedNames(CategoriesOf(scanned)))[k] == ALL)
  {
    var names := SortedNames(CategoriesOf(scanned));
    var j :| 0 <= j < |names| && names[j] == ALL;
    assert ([ALL] + names)[j + 1] == ALL;
  }

  /**
   * A category holding a 2 x 2 image and then a 1 x 1 image: getMeanImage
   * throws for it, so selecting that category leaves the file list as it was.
   */
  lemma MixedSizesThrow()
    ensures !MeanImageReturns([Images.RED_2X2, Images.Raster(1, 1, [0xFF])])
  {
    var images := [Images.RED_2X2, Images.Raster(1, 1, [0xFF])];
    assert |images[1].pixels| < |images[0].pixels|;
  }
}
