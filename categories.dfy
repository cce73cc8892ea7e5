/**
 * File-name categories of the dataset viewer (DatasetViewerBase): a file
 * belongs to the category named by the part of its file name before the
 * first '_', categories are listed in `String.compareTo` order, and a
 * file is picked out of a category by its exact file name.
 */
module Categories {

  /** A scanned image file: the directory it was listed in and its file name. */
  datatype File = File(directory: string, name: string)

  predicate EndsWith(s: string, suffix: string)
  {
    |suffix| <= |s| && s[|s| - |suffix|..] == suffix
  }

  /**
   * The glob `*.{jpg,jpeg,png}` the directory listing is filtered with.
   * All three extensions end in 'g', so a matching name does too.
   */
  predicate IsImageName(name: string)
    ensures IsImageName(name) ==> 4 <= |name| && name[|name| - 1] == 'g'
  {
    EndsWith(name, ".jpg") || EndsWith(name, ".jpeg") || EndsWith(name, ".png")
  }

  /**
   * `name.split("_")` has a first element: Java drops trailing empty
   * strings, so a non-empty name made only of '_' splits into no strings.
   */
  predicate SplitHasFirst(name: string)
  {
    name == [] || exists k :: 0 <= k < |name| && name[k] != '_'
  }

  lemma ImageNameSplitHasFirst(name: string)
    requires IsImageName(name)
    ensures SplitHasFirst(name)
  {
    assert name[|name| - 1] != '_';
  }

  /**
   * `name.split("_")[0]`, the category of a file name: the characters
   * before the first '_', or the whole name when it has none.  For a name
   * made only of '_' Java's split yields no element at all; such a name is
   * excluded by SplitHasFirst, and no name that passes the image-name glob
   * is one (ImageNameSplitHasFirst).
   */
  function CategoryOf(name: string): (c: string)
    ensures c <= name
    ensures '_' !in c
    ensures c == name || name[|c|] == '_'
  {
    if name == [] || name[0] == '_' then []
    else [name[0]] + CategoryOf(name[1..])
  }

  /** The category is determined by the three properties CategoryOf promises. */
  lemma CategoryOfUnique(name: string, c: string)
    requires c <= name && '_' !in c && (c == name || name[|c|] == '_')
    ensures c == CategoryOf(name)
  {
  }

  // ------------------------------------------------------------------
  // Grouping scanned files by category.

  /** The files, in scan order, whose category is one of `cats`. */
  function FilesIn(files: seq<File>, cats: set<string>): (r: seq<File>)
    ensures |r| <= |files|
    ensures forall k :: 0 <= k < |r| ==> CategoryOf(r[k].name) in cats
  {
    if files == [] then []
    else
      var last := files[|files| - 1];
      FilesIn(files[..|files| - 1], cats) + (if CategoryOf(last.name) in cats then [last] else [])
  }

  /** The categories of the given files. */
  function CategoriesOf(files: seq<File>): set<string>
  {
    set k | 0 <= k < |files| :: CategoryOf(files[k].name)
  }

  /**
   * The map the scan loop builds: each file, in scan order, appended to the
   * list of its category, a new list started for a category not seen yet.
   */
  function Categorize(files: seq<File>): (m: map<string, seq<File>>)
    ensures forall c :: c in m ==> m[c] != []
    ensures forall c :: c in m ==> forall k :: 0 <= k < |m[c]| ==> CategoryOf(m[c][k].name) == c
  {
    if files == [] then map[]
    else
      var m := Categorize(files[..|files| - 1]);
      var last := files[|files| - 1];
      var c := CategoryOf(last.name);
      m[c := (if c in m then m[c] else []) + [last]]
  }

  /**
   * The categorized map has one entry per category that occurs, and the
   * entry of a category lists exactly that category's files in scan order.
   */
  lemma {:induction false} CategorizeContents(files: seq<File>)
    ensures Categorize(files).Keys == CategoriesOf(files)
    ensures forall c :: c in Categorize(files) ==> Categorize(files)[c] == FilesIn(files, {c})
  {
    if files != [] {
      var init := files[..|files| - 1];
      var last := files[|files| - 1];
      CategorizeContents(init);
      assert CategoriesOf(files) == CategoriesOf(init) + {CategoryOf(last.name)} by {
        forall c | c in CategoriesOf(files) ensures c in CategoriesOf(init) + {CategoryOf(last.name)} {
          var k :| 0 <= k < |files| && CategoryOf(files[k].name) == c;
          if k < |init| {
            assert init[k] == files[k];
          }
        }
        forall c | c in CategoriesOf(init) ensures c in CategoriesOf(files) {
          var k :| 0 <= k < |init| && CategoryOf(init[k].name) == c;
          assert files[k] == init[k];
        }
      }
      var c := CategoryOf(last.name);
      if c !in Categorize(init) {
        FilesInNone(init, c);
      }
    }
  }

  /** No file of a category that does not occur is selected. */
  lemma {:induction false} FilesInNone(files: seq<File>, c: string)
    requires c !in CategoriesOf(files)
    ensures FilesIn(files, {c}) == []
  {
    if files != [] {
      var init := files[..|files| - 1];
      assert CategoriesOf(init) <= CategoriesOf(files) by {
        forall d | d in CategoriesOf(init) ensures d in CategoriesOf(files) {
          var k :| 0 <= k < |init| && CategoryOf(init[k].name) == d;
          assert files[k] == init[k];
        }
      }
      assert CategoryOf(files[|files| - 1].name) in CategoriesOf(files);
      FilesInNone(init, c);
    }
  }

  /**
   * Every file lands in exactly one category: it occurs in the list of its
   * own category as often as it was scanned, and in no other list.
   */
  lemma {:induction false} FilesInCount(files: seq<File>, c: string, f: File)
    ensures multiset(FilesIn(files, {c}))[f] == if CategoryOf(f.name) == c then multiset(files)[f] else 0
  {
    if files != [] {
      var init := files[..|files| - 1];
      FilesInCount(init, c, f);
      assert files == init + [files[|files| - 1]];
    }
  }

  /** Selecting the categories of D and, separately, category c is selecting D + {c}. */
  lemma {:induction false} FilesInAddCategory(files: seq<File>, cats: set<string>, c: string)
    requires c !in cats
    ensures multiset(FilesIn(files, cats + {c})) == multiset(FilesIn(files, cats)) + multiset(FilesIn(files, {c}))
  {
    if files != [] {
      FilesInAddCategory(files[..|files| - 1], cats, c);
    }
  }

  /** Selecting no category selects no file. */
  lemma {:induction false} FilesInNoCategory(files: seq<File>)
    ensures FilesIn(files, {}) == []
  {
    if files != [] {
      FilesInNoCategory(files[..|files| - 1]);
    }
  }

  /** Selecting every category that occurs selects every file. */
  lemma {:induction false} FilesInEvery(files: seq<File>, cats: set<string>)
    requires CategoriesOf(files) <= cats
    ensures FilesIn(files, cats) == files
  {
    if files != [] {
      var init := files[..|files| - 1];
      assert CategoriesOf(init) <= CategoriesOf(files) by {
        forall d | d in CategoriesOf(init) ensures d in CategoriesOf(files) {
          var k :| 0 <= k < |init| && CategoryOf(init[k].name) == d;
          assert files[k] == init[k];
        }
      }
      assert CategoryOf(files[|files| - 1].name) in CategoriesOf(files);
      FilesInEvery(init, cats);
      assert files == init + [files[|files| - 1]];
    }
  }

  // ------------------------------------------------------------------
  // Listing a category and picking one file.

  /** `file.toPath().getFileName().toString()` for each file, in order. */
  function FileNames(files: seq<File>): (names: seq<string>)
    ensures |names| == |files|
    ensures forall k :: 0 <= k < |files| ==> names[k] == files[k].name
  {
    seq(|files|, k requires 0 <= k < |files| => files[k].name)
  }

  /** The stream filter of onImageFileListChange: the files named exactly `name`, in order. */
  function WithFileName(files: seq<File>, name: string): (r: seq<File>)
    ensures |r| <= |files|
    ensures forall k :: 0 <= k < |r| ==> r[k].name == name
    ensures forall f :: f in r ==> f in files
  {
    if files == [] then []
    else
      var last := files[|files| - 1];
      WithFileName(files[..|files| - 1], name) + (if last.name == name then [last] else [])
  }

  /** The filter keeps every file named `name` as often as it occurs, and nothing else. */
  lemma {:induction false} WithFileNameCount(files: seq<File>, name: string, f: File)
    ensures multiset(WithFileName(files, name))[f] == if f.name == name then multiset(files)[f] else 0
  {
    if files != [] {
      var init := files[..|files| - 1];
      WithFileNameCount(init, name, f);
      assert files == init + [files[|files| - 1]];
    }
  }

  predicate DistinctNames(files: seq<File>)
  {
    forall i, j :: 0 <= i < j < |files| ==> files[i].name != files[j].name
  }

  /** In a list of distinct file names, picking a listed name yields exactly that file. */
  lemma {:induction false} WithFileNameSingle(files: seq<File>, k: int)
    requires DistinctNames(files) && 0 <= k < |files|
    ensures WithFileName(files, files[k].name) == [files[k]]
  {
    var init := files[..|files| - 1];
    var last := files[|files| - 1];
    if k == |files| - 1 {
      WithFileNameAbsent(init, last.name);
    } else {
      assert init[k] == files[k];
      WithFileNameSingle(init, k);
    }
  }

  lemma {:induction false} WithFileNameAbsent(files: seq<File>, name: string)
    requires forall i :: 0 <= i < |files| ==> files[i].name != name
    ensures WithFileName(files, name) == []
  {
    if files != [] {
      WithFileNameAbsent(files[..|files| - 1], name);
    }
  }

  // ------------------------------------------------------------------
  // `String.compareTo` order and the sorted category list.

  /** a comes strictly before b in `String.compareTo` order. */
  predicate LexLess(a: string, b: string)
    ensures LexLess(a, b) ==> a != b
  {
    if a == [] then b != []
    else if b == [] then false
    else if a[0] != b[0] then a[0] < b[0]
    else LexLess(a[1..], b[1..])
  }

  lemma {:induction false} LexLessIrreflexive(a: string)
    ensures !LexLess(a, a)
  {
    if a != [] {
      LexLessIrreflexive(a[1..]);
    }
  }

  lemma {:induction false} LexLessTransitive(a: string, b: string, c: string)
    requires LexLess(a, b) && LexLess(b, c)
    ensures LexLess(a, c)
  {
    if a != [] && b != [] && c != [] && a[0] == b[0] == c[0] {
      LexLessTransitive(a[1..], b[1..], c[1..]);
    }
  }

  lemma {:induction false} LexLessTotal(a: string, b: string)
    requires a != b
    ensures LexLess(a, b) || LexLess(b, a)
  {
    if a != [] && b != [] && a[0] == b[0] {
      assert a == [a[0]] + a[1..] && b == [b[0]] + b[1..];
      LexLessTotal(a[1..], b[1..]);
    }
  }

  lemma {:induction false} LexLessAsymmetric(a: string, b: string)
    requires LexLess(a, b)
    ensures !LexLess(b, a)
  {
    if a != [] && b != [] && a[0] == b[0] {
      LexLessAsymmetric(a[1..], b[1..]);
    }
  }

  predicate StrictlySorted(s: seq<string>)
  {
    forall i, j {:trigger LexLess(s[i], s[j])} :: 0 <= i < j < |s| ==> LexLess(s[i], s[j])
  }

  /** A name smaller than every name of a sorted list may go in front of it. */
  lemma ConsSorted(h: string, t: seq<string>)
    requires StrictlySorted(t)
    requires forall j :: 0 <= j < |t| ==> LexLess(h, t[j])
    ensures StrictlySorted([h] + t)
  {
    var r := [h] + t;
    forall i, j | 0 <= i < j < |r| ensures LexLess(r[i], r[j]) {
      if i > 0 {
        assert r[i] == t[i - 1] && r[j] == t[j - 1];
      }
    }
  }

  /** Inserts a new name into a strictly sorted list at its place. */
  function Insert(s: seq<string>, name: string): (r: seq<string>)
    requires StrictlySorted(s) && name !in s
    ensures StrictlySorted(r)
    ensures forall x :: x in r <==> x in s || x == name
    ensures |r| == |s| + 1
  {
    if s == [] then [name]
    else if LexLess(name, s[0]) then
      forall j | 0 < j < |s| ensures LexLess(name, s[j]) {
        LexLessTransitive(name, s[0], s[j]);
      }
      ConsSorted(name, s);
      [name] + s
    else
      LexLessTotal(name, s[0]);
      var rest := Insert(s[1..], name);
      forall j | 0 <= j < |rest| ensures LexLess(s[0], rest[j]) {
        if rest[j] != name {
          assert rest[j] in s[1..];
          var i :| 0 <= i < |s[1..]| && s[1..][i] == rest[j];
          assert s[i + 1] == rest[j];
        }
      }
      ConsSorted(s[0], rest);
      assert s == [s[0]] + s[1..];
      [s[0]] + rest
  }

  /** The category names `keySet().stream().sorted()` yields: every key once, ascending. */
  ghost function SortedNames(keys: set<string>): (r: seq<string>)
    ensures StrictlySorted(r)
    ensures forall x :: x in r <==> x in keys
    ensures |r| == |keys|
  {
    if keys == {} then []
    else
      var k :| k in keys;
      var rest := SortedNames(keys - {k});
      assert |keys - {k}| == |keys| - 1;
      assert k !in rest;
      var r := Insert(rest, k);
      assert forall x :: x in r <==> x in keys by {
        forall x ensures x in r <==> x in keys {
          assert x in r <==> x in rest || x == k;
        }
      }
      r
  }

  /**
   * `keySet().stream().sorted()`: the library sort, here by inserting the
   * names one at a time, in whatever order the set hands them out.
   */
  method SortNames(keys: set<string>) returns (names: seq<string>)
    ensures names == SortedNames(keys)
  {
    names := [];
    var remaining := keys;
    while remaining != {}
      invariant remaining <= keys
      invariant StrictlySorted(names)
      invariant forall x :: x in names <==> x in keys && x !in remaining
      decreases remaining
    {
      var k :| k in remaining;
      names := Insert(names, k);
      remaining := remaining - {k};
    }
    StrictlySortedUnique(names, SortedNames(keys));
  }

  /** Two strictly sorted lists with the same names are the same list. */
  lemma {:induction false} StrictlySortedUnique(s: seq<string>, t: seq<string>)
    requires StrictlySorted(s) && StrictlySorted(t)
    requires forall x :: x in s <==> x in t
    ensures s == t
    decreases |s|
  {
    assert s == [] <==> t == [] by {
      if s != [] {
        assert s[0] in s;
      }
      if t != [] {
        assert t[0] in t;
      }
    }
    if s != [] {
      HeadNotAbove(s, t);
      HeadNotAbove(t, s);
      LexLessTrichotomy(s[0], t[0]);
      forall x ensures x in s[1..] <==> x in t[1..] {
        if x in s[1..] {
          TailMember(s, t, x);
        }
        if x in t[1..] {
          TailMember(t, s, x);
        }
      }
      StrictlySortedUnique(s[1..], t[1..]);
      assert s == [s[0]] + s[1..] && t == [t[0]] + t[1..];
    }
  }

  lemma {:induction false} LexLessTrichotomy(a: string, b: string)
    ensures a == b || LexLess(a, b) || LexLess(b, a)
  {
    if a != b {
      LexLessTotal(a, b);
    }
  }

  /** The first name of a sorted list is not above any name of a list with the same names. */
  lemma HeadNotAbove(s: seq<string>, t: seq<string>)
    requires StrictlySorted(s) && s != [] && t != []
    requires forall y :: y in s <==> y in t
    ensures !LexLess(t[0], s[0])
  {
    assert t[0] in t;
    var j :| 0 <= j < |s| && s[j] == t[0];
    if j == 0 {
      LexLessIrreflexive(s[0]);
    } else {
      LexLessAsymmetric(s[0], s[j]);
    }
  }

  lemma TailMember(s: seq<string>, t: seq<string>, x: string)
    requires StrictlySorted(s) && s != [] && t != [] && s[0] == t[0]
    requires forall y :: y in s <==> y in t
    requires x in s[1..]
    ensures x in t[1..]
  {
    var i :| 0 <= i < |s[1..]| && s[1..][i] == x;
    assert LexLess(s[0], s[i + 1]);
    LexLessIrreflexive(x);
    assert x in s;
    var j :| 0 <= j < |t| && t[j] == x;
    assert j != 0;
    assert t[1..][j - 1] == x;
  }
}
