/** The planning step of the Spritify add-on: after an animation render, pick
    the rendered PNG frames of each view, split them into consecutive batches
    (one sprite-sheet file per batch), name each file and build the argument
    list of ImageMagick's `montage` for it; and, for the animated GIF, build
    the path and the argument list of `convert`.

    The host application's scene is replaced by plain values: the add-on's
    settings (`SheetSettings`), the render settings (`RenderSettings`), the
    directory walk of the render output (`seq<WalkEntry>`), and the host's
    path resolution and file probe as function parameters. */
module Spritify {
  import opened PyStr

  datatype Option<T> = None | Some(value: T)

  datatype Result<T, E> = Ok(value: T) | Err(error: E)

  /** The `is_rows` setting: tiles arranged by rows or by columns. */
  datatype Arrangement = Rows | Columns

  /** The host's `views_format`: stereo 3D or individual multiview cameras. */
  datatype ViewsFormat = Stereo3D | MultiView

  /** The add-on's settings that the planning step reads. `files` is the
      number of sprite-sheet files to split the frames into; the add-on puts
      no bound on it. */
  datatype SheetSettings = SheetSettings(
    filepath: Str,
    imagemagickPath: Str,
    quality: int,
    isRows: Arrangement,
    tiles: int,
    files: int,
    autoSprite: bool,
    autoGif: bool,
    supportMultiview: bool)

  /** The render settings that the planning step reads; `viewSuffixes` are the
      file suffixes of the render views, in order. */
  datatype RenderSettings = RenderSettings(
    filepath: Str,
    useMultiview: bool,
    viewsFormat: ViewsFormat,
    viewSuffixes: seq<Str>,
    fps: int)

  /** One step of `os.walk`: a directory and the names of the files in it. */
  datatype WalkEntry = WalkEntry(dirname: Str, filenames: seq<Str>)

  /** The errors of the sprite-sheet step: the `ZeroDivisionError` of a zero
      file count, and the `FileNotFoundError` raised when a view has no
      rendered frames. */
  datatype SpritifyError = ZeroFileCount | NoImages(renderDir: Str)

  /** The two `FileNotFoundError`s of the GIF step. The first names the
      `convert` path; the second names no path, because its message
      template is never formatted. */
  datatype GififyError = ConvertNotFound(convertPath: Str) | RenderOutputNotFound

  // ---------------------------------------------------------------------
  // Tile arrangement

  /** The `-tile` argument: `"<tiles>x"` by rows, `"x<tiles>"` by columns. */
  function TileSetting(arrangement: Arrangement, tiles: int): Str {
    if arrangement == Rows then IntToStr(tiles) + "x" else "x" + IntToStr(tiles)
  }

  /** How a `-tile` argument of either form reads back. */
  function ParseTileSetting(s: Str): Option<(Arrangement, int)> {
    if |s| >= 2 && s[|s| - 1] == 'x' && IsIntStr(s[..|s| - 1]) then
      Some((Rows, ParseInt(s[..|s| - 1])))
    else if |s| >= 2 && s[0] == 'x' && IsIntStr(s[1..]) then
      Some((Columns, ParseInt(s[1..])))
    else
      None
  }

  /** The arrangement and the tile count can both be read back from the
      `-tile` argument, so distinct settings give distinct arguments. */
  lemma TileSettingRoundTrip(arrangement: Arrangement, tiles: int)
    ensures ParseTileSetting(TileSetting(arrangement, tiles)) == Some((arrangement, tiles))
  {
    var t := IntToStr(tiles);
    IntToStrRoundTrip(tiles);
    IntToStrShape(tiles);
    if arrangement == Rows {
      assert (t + "x")[..|t|] == t;
    } else {
      assert ("x" + t)[1..] == t;
      assert ("x" + t)[|t|] == t[|t| - 1];
    }
  }

  lemma TileSettingExamples()
    ensures TileSetting(Rows, 8) == "8x"
    ensures TileSetting(Columns, 8) == "x8"
  {
  }

  // ---------------------------------------------------------------------
  // View suffixes

  /** Multiview output is used only when the add-on, the render settings and
      the views format all ask for it. */
  predicate MultiviewActive(sheet: SheetSettings, render: RenderSettings) {
    sheet.supportMultiview && render.useMultiview && render.viewsFormat == MultiView
  }

  /** The list of view suffixes the frames are grouped by: the view
      suffixes under multiview, otherwise the one empty suffix. */
  method ViewSuffixes(sheet: SheetSettings, render: RenderSettings) returns (suffixes: seq<Str>)
    ensures MultiviewActive(sheet, render) ==> suffixes == render.viewSuffixes
    ensures !MultiviewActive(sheet, render) ==> suffixes == [""]
  {
    suffixes := [];
    if MultiviewActive(sheet, render) {
      var i := 0;
      while i < |render.viewSuffixes|
        invariant 0 <= i <= |render.viewSuffixes|
        invariant suffixes == render.viewSuffixes[..i]
      {
        suffixes := suffixes + [render.viewSuffixes[i]];
        i := i + 1;
      }
    } else {
      suffixes := suffixes + [""];
    }
  }

  // ---------------------------------------------------------------------
  // Frame selection

  /** `"%s.png" % suffix`: the ending a frame of the view must have. */
  function PngPattern(suffix: Str): Str {
    suffix + ".png"
  }

  /** The names that end with `pattern`, in their original order. */
  function Matching(names: seq<Str>, pattern: Str): seq<Str> {
    if names == [] then []
    else
      var m := Matching(names[..|names| - 1], pattern);
      if EndsWith(names[|names| - 1], pattern) then m + [names[|names| - 1]] else m
  }

  /** The filter keeps every matching name as often as it occurs and drops
      the others. */
  lemma {:induction false} MatchingSpec(names: seq<Str>, pattern: Str)
    ensures forall x :: multiset(Matching(names, pattern))[x]
                     == if EndsWith(x, pattern) then multiset(names)[x] else 0
    ensures forall x :: x in Matching(names, pattern) <==> x in names && EndsWith(x, pattern)
  {
    if names != [] {
      var init, last := names[..|names| - 1], names[|names| - 1];
      assert names == init + [last];
      MatchingSpec(init, pattern);
      forall x ensures x in Matching(names, pattern) <==> x in names && EndsWith(x, pattern) {
        assert x in Matching(names, pattern) <==> multiset(Matching(names, pattern))[x] > 0;
        assert x in names <==> multiset(names)[x] > 0;
      }
    }
  }

  /** The filter keeps a sorted list sorted. */
  lemma {:induction false} MatchingSorted(names: seq<Str>, pattern: Str)
    requires Sorted(names)
    ensures Sorted(Matching(names, pattern))
  {
    if names != [] {
      var init, last := names[..|names| - 1], names[|names| - 1];
      assert Sorted(init);
      MatchingSorted(init, pattern);
      var m := Matching(init, pattern);
      if EndsWith(last, pattern) {
        MatchingSpec(init, pattern);
        forall i, j | 0 <= i < j < |m| + 1 ensures StrLe((m + [last])[i], (m + [last])[j]) {
          if j == |m| {
            assert m[i] in init;
            var k :| 0 <= k < |init| && init[k] == m[i];
            assert names[k] == m[i];
          } else {
            assert (m + [last])[i] == m[i] && (m + [last])[j] == m[j];
          }
        }
      }
    }
  }

  /** Filtering one more name. */
  lemma MatchingStep(names: seq<Str>, j: nat, pattern: Str)
    requires j < |names|
    ensures Matching(names[..j + 1], pattern)
         == if EndsWith(names[j], pattern) then Matching(names[..j], pattern) + [names[j]]
            else Matching(names[..j], pattern)
  {
    assert names[..j + 1][..j] == names[..j];
  }

  /** `os.path.join(dirname, f)` for every `f` in `names`. */
  function JoinAll(dirname: Str, names: seq<Str>): (r: seq<Str>)
    ensures |r| == |names|
  {
    if names == [] then []
    else JoinAll(dirname, names[..|names| - 1]) + [PathJoin(dirname, names[|names| - 1])]
  }

  /** The `k`-th joined path joins the directory to the `k`-th name. */
  lemma {:induction false} JoinAllAt(dirname: Str, names: seq<Str>, k: nat)
    requires k < |names|
    ensures JoinAll(dirname, names)[k] == PathJoin(dirname, names[k])
  {
    if k < |names| - 1 {
      JoinAllAt(dirname, names[..|names| - 1], k);
    }
  }

  lemma JoinAllAppend(dirname: Str, names: seq<Str>, name: Str)
    ensures JoinAll(dirname, names + [name]) == JoinAll(dirname, names) + [PathJoin(dirname, name)]
  {
    assert (names + [name])[..|names|] == names;
  }

  /** The frames one directory of the walk contributes to the view `suffix`:
      its matching file names in sorted order, joined to the directory. */
  function DirImages(entry: WalkEntry, suffix: Str): seq<Str> {
    JoinAll(entry.dirname, Matching(SortStrs(entry.filenames), PngPattern(suffix)))
  }

  /** The `images` list built for the view `suffix`, directory by directory
      in the order of the walk. */
  function Collected(walk: seq<WalkEntry>, suffix: Str): seq<Str> {
    if walk == [] then []
    else Collected(walk[..|walk| - 1], suffix) + DirImages(walk[|walk| - 1], suffix)
  }

  /** Looking at one more sorted name: a match adds its joined path, any
      other name adds nothing. */
  lemma DirStep(dirname: Str, sorted: seq<Str>, j: nat, pattern: Str)
    requires j < |sorted|
    ensures EndsWith(sorted[j], pattern) ==>
      JoinAll(dirname, Matching(sorted[..j + 1], pattern))
        == JoinAll(dirname, Matching(sorted[..j], pattern)) + [PathJoin(dirname, sorted[j])]
    ensures !EndsWith(sorted[j], pattern) ==>
      Matching(sorted[..j + 1], pattern) == Matching(sorted[..j], pattern)
  {
    MatchingStep(sorted, j, pattern);
    if EndsWith(sorted[j], pattern) {
      JoinAllAppend(dirname, Matching(sorted[..j], pattern), sorted[j]);
    }
  }

  /** The inner loop over one directory: its file names in sorted order,
      each matching one joined to the directory and appended. */
  method AddDirImages(images: seq<Str>, entry: WalkEntry, suffix: Str) returns (extended: seq<Str>)
    ensures extended == images + DirImages(entry, suffix)
  {
    extended := images;
    var sorted := SortStrs(entry.filenames);
    var j := 0;
    while j < |sorted|
      invariant 0 <= j <= |sorted|
      invariant extended == images + JoinAll(entry.dirname, Matching(sorted[..j], PngPattern(suffix)))
    {
      var filename := sorted[j];
      DirStep(entry.dirname, sorted, j, PngPattern(suffix));
      ghost var found := JoinAll(entry.dirname, Matching(sorted[..j], PngPattern(suffix)));
      if EndsWith(filename, PngPattern(suffix)) {
        assert images + found + [PathJoin(entry.dirname, filename)]
            == images + (found + [PathJoin(entry.dirname, filename)]);
        extended := extended + [PathJoin(entry.dirname, filename)];
      }
      j := j + 1;
    }
    assert sorted[..j] == sorted;
  }

  /** Walks the render output and collects the frames of the view `suffix`. */
  method CollectImages(walk: seq<WalkEntry>, suffix: Str) returns (images: seq<Str>)
    ensures images == Collected(walk, suffix)
  {
    images := [];
    var i := 0;
    while i < |walk|
      invariant 0 <= i <= |walk|
      invariant images == Collected(walk[..i], suffix)
    {
      images := AddDirImages(images, walk[i], suffix);
      assert walk[..i + 1][..i] == walk[..i];
      i := i + 1;
    }
    assert walk[..i] == walk;
  }

  /** Every frame of one directory ends with the view's `<suffix>.png`. */
  lemma DirImagesMatchPattern(entry: WalkEntry, suffix: Str)
    ensures forall x :: x in DirImages(entry, suffix) ==> EndsWith(x, PngPattern(suffix))
  {
    var sorted := SortStrs(entry.filenames);
    MatchingSpec(sorted, PngPattern(suffix));
    var m := Matching(sorted, PngPattern(suffix));
    forall x | x in DirImages(entry, suffix) ensures EndsWith(x, PngPattern(suffix)) {
      var k :| 0 <= k < |m| && JoinAll(entry.dirname, m)[k] == x;
      JoinAllAt(entry.dirname, m, k);
      PathJoinEndsWith(entry.dirname, m[k]);
      EndsWithTransitive(x, m[k], PngPattern(suffix));
    }
  }

  /** Every collected frame ends with the view's `<suffix>.png`. */
  lemma {:induction false} CollectedMatchPattern(walk: seq<WalkEntry>, suffix: Str)
    ensures forall x :: x in Collected(walk, suffix) ==> EndsWith(x, PngPattern(suffix))
  {
    if walk != [] {
      CollectedMatchPattern(walk[..|walk| - 1], suffix);
      DirImagesMatchPattern(walk[|walk| - 1], suffix);
    }
  }

  /** `x` is the path of a file of `entry` that ends with `<suffix>.png`. */
  predicate FrameOf(entry: WalkEntry, suffix: Str, x: Str) {
    exists f :: f in entry.filenames && EndsWith(f, PngPattern(suffix)) && x == PathJoin(entry.dirname, f)
  }

  /** Sorting before filtering neither adds nor loses a name. */
  lemma SortedMatchingMembership(names: seq<Str>, pattern: Str, f: Str)
    ensures f in Matching(SortStrs(names), pattern) <==> f in names && EndsWith(f, pattern)
  {
    var sorted := SortStrs(names);
    SortStrsSpec(names);
    MatchingSpec(sorted, pattern);
    assert f in sorted <==> f in multiset(sorted);
    assert f in names <==> f in multiset(names);
  }

  /** A path is one of a directory's frames exactly when it joins the
      directory to one of its files ending in `<suffix>.png`. */
  lemma DirImagesMembership(entry: WalkEntry, suffix: Str, x: Str)
    ensures x in DirImages(entry, suffix) <==> FrameOf(entry, suffix, x)
  {
    var m := Matching(SortStrs(entry.filenames), PngPattern(suffix));
    if x in DirImages(entry, suffix) {
      var k :| 0 <= k < |m| && JoinAll(entry.dirname, m)[k] == x;
      JoinAllAt(entry.dirname, m, k);
      SortedMatchingMembership(entry.filenames, PngPattern(suffix), m[k]);
    }
    if FrameOf(entry, suffix, x) {
      var f :| f in entry.filenames && EndsWith(f, PngPattern(suffix)) && x == PathJoin(entry.dirname, f);
      SortedMatchingMembership(entry.filenames, PngPattern(suffix), f);
      var k :| 0 <= k < |m| && m[k] == f;
      JoinAllAt(entry.dirname, m, k);
    }
  }

  /** A path is collected exactly when some directory of the walk holds a
      file ending in `<suffix>.png` that joins to it. */
  lemma {:induction false} CollectedMembership(walk: seq<WalkEntry>, suffix: Str, x: Str)
    ensures x in Collected(walk, suffix) <==> exists i :: 0 <= i < |walk| && FrameOf(walk[i], suffix, x)
  {
    if walk != [] {
      var init, e := walk[..|walk| - 1], walk[|walk| - 1];
      CollectedMembership(init, suffix, x);
      DirImagesMembership(e, suffix, x);
      assert Collected(walk, suffix) == Collected(init, suffix) + DirImages(e, suffix);
      if exists i :: 0 <= i < |walk| && FrameOf(walk[i], suffix, x) {
        var i :| 0 <= i < |walk| && FrameOf(walk[i], suffix, x);
        if i < |init| { assert init[i] == walk[i]; }
      }
      if exists i :: 0 <= i < |init| && FrameOf(init[i], suffix, x) {
        var i :| 0 <= i < |init| && FrameOf(init[i], suffix, x);
        assert walk[i] == init[i];
      }
    }
  }

  // ---------------------------------------------------------------------
  // Batches

  /** `math.ceil(n / d)` for a positive divisor. */
  function CeilDiv(n: nat, d: nat): nat
    requires d >= 1
  {
    (n + d - 1) / d
  }

  /** The ceiling is a count of `d`-sized slices that covers `n`, and the
      smallest one. */
  lemma CeilDivSpec(n: nat, d: nat)
    requires d >= 1
    ensures CeilDiv(n, d) * d >= n
    ensures CeilDiv(n, d) == 0 || (CeilDiv(n, d) - 1) * d < n
    ensures n >= 1 ==> CeilDiv(n, d) >= 1
  {
    var q, r := (n + d - 1) / d, (n + d - 1) % d;
    assert q * d + r == n + d - 1;
    if n >= 1 {
      assert n + d - 1 >= d;
    }
    if q > 0 {
      assert (q - 1) * d == q * d - d;
    }
  }

  lemma MulMonotone(a: nat, b: nat, d: nat)
    requires a <= b
    ensures a * d <= b * d
  {
    assert b * d == a * d + (b - a) * d;
  }

  /** The ceiling is the only count with its two defining properties. */
  lemma CeilDivUnique(n: nat, d: nat, q: nat)
    requires d >= 1
    requires q * d >= n
    requires q == 0 || (q - 1) * d < n
    ensures q == CeilDiv(n, d)
  {
    var c := CeilDiv(n, d);
    CeilDivSpec(n, d);
    if c < q {
      MulMonotone(c, q - 1, d);
    } else if c > q {
      MulMonotone(q, c - 1, d);
    }
  }

  /** With at least one frame and at least one file, each batch takes at
      least one frame, and there are never more batches than files (fewer
      when the division leaves room: 4 frames over 3 files make 2 batches). */
  lemma BatchCountAtMostFiles(n: nat, files: nat)
    requires n >= 1 && files >= 1
    ensures CeilDiv(n, files) >= 1
    ensures CeilDiv(n, CeilDiv(n, files)) <= files
  {
    CeilDivSpec(n, files);
    var p := CeilDiv(n, files);
    var c := CeilDiv(n, p);
    CeilDivSpec(n, p);
    if c > files {
      MulMonotone(files, c - 1, p);
    }
  }

  lemma BatchCountExamples()
    ensures CeilDiv(4, 3) == 2 && CeilDiv(4, CeilDiv(4, 3)) == 2
    ensures CeilDiv(17, 3) == 6 && CeilDiv(17, CeilDiv(17, 3)) == 3
  {
  }

  /** The `k`-th batch, `images[k * per_file : k * per_file + per_file]`. */
  function Chunk(images: seq<Str>, perFile: nat, k: nat): seq<Str> {
    Slice(images, k * perFile, k * perFile + perFile)
  }

  /** The batches in order, joined back together. */
  function Flatten(batches: seq<seq<Str>>): seq<Str> {
    if batches == [] then [] else Flatten(batches[..|batches| - 1]) + batches[|batches| - 1]
  }

  lemma FlattenAppend(batches: seq<seq<Str>>, b: seq<Str>)
    ensures Flatten(batches + [b]) == Flatten(batches) + b
  {
    assert (batches + [b])[..|batches|] == batches;
  }

  lemma SliceExtends(images: seq<Str>, offset: nat, perFile: nat)
    requires offset < |images|
    ensures images[..offset] + Slice(images, offset, offset + perFile)
         == images[..Min(offset + perFile, |images|)]
  {
  }

  /** Every batch holds exactly `per_file` frames except the last, which
      holds between one and `per_file`; 17 frames over 3 files make batches
      of 6, 6 and 5. */
  lemma BatchSizes(images: seq<Str>, perFile: nat, k: nat)
    requires perFile >= 1 && k < CeilDiv(|images|, perFile)
    ensures 1 <= |Chunk(images, perFile, k)| <= perFile
    ensures k + 1 < CeilDiv(|images|, perFile) ==> |Chunk(images, perFile, k)| == perFile
  {
    var q := CeilDiv(|images|, perFile);
    CeilDivSpec(|images|, perFile);
    MulMonotone(k, q - 1, perFile);
    if k + 1 < q {
      MulMonotone(k + 1, q - 1, perFile);
      assert (k + 1) * perFile == k * perFile + perFile;
    }
  }

  /** `j / d` is the index of the `d`-sized slice that holds `j`. */
  lemma DivBounds(j: nat, d: nat)
    requires d >= 1
    ensures (j / d) * d <= j < (j / d) * d + d
    ensures j - (j / d) * d == j % d
  {
    assert (j / d) * d + j % d == j;
  }

  /** One more slice is `d` further on. */
  lemma MulSucc(k: nat, d: nat)
    ensures (k + 1) * d == k * d + d
  {
  }

  /** The batch index of a frame is below the batch count. */
  lemma BatchOfFrame(n: nat, perFile: nat, j: nat)
    requires perFile >= 1 && j < n
    ensures j / perFile < CeilDiv(n, perFile)
  {
    var b, q := j / perFile, CeilDiv(n, perFile);
    DivBounds(j, perFile);
    CeilDivSpec(n, perFile);
    if b >= q {
      MulMonotone(q, b, perFile);
      assert false;
    }
  }

  lemma SliceAt(s: seq<Str>, lo: nat, len: nat, t: nat)
    requires t < len && lo + t < |s|
    ensures |Slice(s, lo, lo + len)| > t && Slice(s, lo, lo + len)[t] == s[lo + t]
  {
  }

  /** The frame at position `j` is in batch `j / per_file`, at position
      `j % per_file`. */
  lemma FrameInBatch(images: seq<Str>, perFile: nat, j: nat)
    requires perFile >= 1 && j < |images|
    ensures j / perFile < CeilDiv(|images|, perFile)
    ensures |Chunk(images, perFile, j / perFile)| > j % perFile
    ensures Chunk(images, perFile, j / perFile)[j % perFile] == images[j]
  {
    BatchOfFrame(|images|, perFile, j);
    DivBounds(j, perFile);
    SliceAt(images, (j / perFile) * perFile, perFile, j % perFile);
  }

  /** Only batch `j / per_file` spans position `j`. */
  lemma FrameInOneBatch(perFile: nat, j: nat, k: nat)
    requires perFile >= 1
    requires k * perFile <= j < k * perFile + perFile
    ensures k == j / perFile
  {
    var b := j / perFile;
    DivBounds(j, perFile);
    if k < b {
      MulSucc(k, perFile);
      MulMonotone(k + 1, b, perFile);
      assert false;
    } else if k > b {
      MulSucc(b, perFile);
      MulMonotone(b + 1, k, perFile);
      assert false;
    }
  }

  /** Position `t` of batch `k` holds the frame at position
      `k * per_file + t`, and that frame is found in batch `j / per_file` at
      position `j % per_file` and nowhere else: together with `FrameInBatch`,
      every frame lands in exactly one batch slot. */
  lemma BatchSlotIsFrame(images: seq<Str>, perFile: nat, k: nat, t: nat)
    requires perFile >= 1 && t < |Chunk(images, perFile, k)|
    ensures k * perFile + t < |images|
    ensures Chunk(images, perFile, k)[t] == images[k * perFile + t]
    ensures (k * perFile + t) / perFile == k && (k * perFile + t) % perFile == t
  {
    var lo := k * perFile;
    assert t < perFile && lo + t < |images|;
    FrameInOneBatch(perFile, lo + t, k);
    DivBounds(lo + t, perFile);
  }

  /** The first `n` batches. */
  function FirstBatches(images: seq<Str>, perFile: nat, n: nat): (r: seq<seq<Str>>)
    ensures |r| == n
  {
    if n == 0 then [] else FirstBatches(images, perFile, n - 1) + [Chunk(images, perFile, n - 1)]
  }

  lemma {:induction false} FirstBatchesAt(images: seq<Str>, perFile: nat, n: nat, k: nat)
    requires k < n
    ensures FirstBatches(images, perFile, n)[k] == Chunk(images, perFile, k)
  {
    if k < n - 1 { FirstBatchesAt(images, perFile, n - 1, k); }
  }

  /** The first `n` batches, joined, are the frames before the `n`-th
      batch's start. */
  lemma {:induction false} FirstBatchesFlatten(images: seq<Str>, perFile: nat, n: nat)
    requires n == 0 || (n - 1) * perFile < |images|
    ensures Flatten(FirstBatches(images, perFile, n)) == images[..Min(n * perFile, |images|)]
  {
    if n > 0 {
      var lo := (n - 1) * perFile;
      if n > 1 { MulMonotone(n - 2, n - 1, perFile); }
      FirstBatchesFlatten(images, perFile, n - 1);
      var init := FirstBatches(images, perFile, n - 1);
      assert Flatten(init) == images[..lo];
      FlattenAppend(init, Chunk(images, perFile, n - 1));
      MulSucc(n - 1, perFile);
      assert lo + perFile == n * perFile;
      SliceExtends(images, lo, perFile);
    }
  }

  // ---------------------------------------------------------------------
  // Output names and the montage call

  /** The file written for batch `index` of the view `suffix`: with more than
      one file, `<stem>-<index>-<suffix><ext>`; otherwise `<stem><suffix><ext>`,
      where `<ext>` is the last four characters of the sheet path and `<stem>`
      the rest. */
  function SheetName(filepath: Str, files: int, index: nat, suffix: Str): Str {
    var middle := if files > 1 then "-" + IntToStr(index) + "-" + suffix else suffix;
    DropLast(filepath, 4) + middle + TakeLast(filepath, 4)
  }

  /** Every name keeps the stem and the extension of the sheet path. */
  lemma SheetNameShape(filepath: Str, files: int, index: nat, suffix: Str)
    ensures var r := SheetName(filepath, files, index, suffix);
      |r| >= |DropLast(filepath, 4)| && r[..|DropLast(filepath, 4)|] == DropLast(filepath, 4)
      && EndsWith(r, TakeLast(filepath, 4))
  {
    var stem, ext := DropLast(filepath, 4), TakeLast(filepath, 4);
    var middle := if files > 1 then "-" + IntToStr(index) + "-" + suffix else suffix;
    assert EndsWith(ext, ext);
    EndsWithAppend(stem + middle, ext, ext);
    assert (stem + middle + ext)[..|stem|] == stem;
  }

  lemma CancelAround(pre: Str, a: Str, b: Str, post: Str)
    requires pre + a + post == pre + b + post
    ensures a == b
  {
    assert |a| == |b|;
    assert a == (pre + a + post)[|pre|..|pre| + |a|];
    assert b == (pre + b + post)[|pre|..|pre| + |b|];
  }

  lemma SheetNameAroundIndex(filepath: Str, files: int, index: nat, suffix: Str)
    requires files > 1
    ensures SheetName(filepath, files, index, suffix)
         == (DropLast(filepath, 4) + "-") + IntToStr(index) + ("-" + suffix + TakeLast(filepath, 4))
  {
  }

  lemma DistinctInMiddle(pre: Str, i: nat, j: nat, post: Str)
    requires i != j
    ensures pre + IntToStr(i) + post != pre + IntToStr(j) + post
  {
    if IntToStr(i) == IntToStr(j) {
      IntToStrInjective(i, j);
    } else if pre + IntToStr(i) + post == pre + IntToStr(j) + post {
      CancelAround(pre, IntToStr(i), IntToStr(j), post);
    }
  }

  /** With more than one file, the batches of a view get distinct names. */
  lemma SheetNamesDistinct(filepath: Str, files: int, i: nat, j: nat, suffix: Str)
    requires files > 1 && i != j
    ensures SheetName(filepath, files, i, suffix) != SheetName(filepath, files, j, suffix)
  {
    var pre, post := DropLast(filepath, 4) + "-", "-" + suffix + TakeLast(filepath, 4);
    SheetNameAroundIndex(filepath, files, i, suffix);
    SheetNameAroundIndex(filepath, files, j, suffix);
    DistinctInMiddle(pre, i, j, post);
  }

  /** With a single file, the views get distinct names, and without a view
      suffix the name is the sheet path itself. */
  lemma SingleSheetNames(filepath: Str, files: int, index: nat, s1: Str, s2: Str)
    requires files <= 1
    ensures s1 != s2 ==> SheetName(filepath, files, index, s1) != SheetName(filepath, files, index, s2)
    ensures SheetName(filepath, files, index, "") == filepath
  {
    DropTakeLast(filepath, 4);
    assert SheetName(filepath, files, index, "") == DropLast(filepath, 4) + TakeLast(filepath, 4);
    if s1 != s2 && SheetName(filepath, files, index, s1) == SheetName(filepath, files, index, s2) {
      CancelAround(DropLast(filepath, 4), s1, s2, TakeLast(filepath, 4));
    }
  }

  /** The ten options passed to `montage` before the frames. The quality
      value is glued to its option name as one argument. */
  function MontagePrefix(binPath: Str, tile: Str, geometry: Str, background: Str, quality: int): seq<Str> {
    [binPath + "/montage", "-depth", "8", "-tile", tile, "-geometry", geometry,
     "-background", background, "-quality" + IntToStr(quality)]
  }

  /** What `montage` is told by the fixed options: the tile arrangement,
      the geometry, the background and the quality can each be read back. */
  lemma MontagePrefixOptions(binPath: Str, tile: Str, geometry: Str, background: Str, quality: int)
    ensures var r := MontagePrefix(binPath, tile, geometry, background, quality);
      |r| == 10 && r[1] == "-depth" && r[2] == "8"
      && r[3] == "-tile" && r[4] == tile && r[5] == "-geometry" && r[6] == geometry
      && r[7] == "-background" && r[8] == background
      && |r[9]| > 8 && r[9][..8] == "-quality" && IsIntStr(r[9][8..]) && ParseInt(r[9][8..]) == quality
  {
    PrefixedIntReadsBack("-quality", quality);
  }

  /** The full `montage` command line: options, the batch's frames in order,
      then the output file. */
  function MontageArgs(prefix: seq<Str>, images: seq<Str>, output: Str): seq<Str> {
    prefix + images + [output]
  }

  /** The options come first, the frames follow in order, and the output
      file is the last argument. */
  lemma MontageArgsParts(prefix: seq<Str>, images: seq<Str>, output: Str)
    ensures var r := MontageArgs(prefix, images, output);
      |r| == |prefix| + |images| + 1 && r[..|prefix|] == prefix
      && r[|prefix|..|r| - 1] == images && r[|r| - 1] == output
  {
    var r := MontageArgs(prefix, images, output);
    assert r[..|prefix|] == prefix;
    assert r[|prefix|..|r| - 1] == images;
  }

  /** Two `montage` calls with the same options are equal only when they
      name the same frames and the same output file. */
  lemma MontageArgsInjective(prefix: seq<Str>, images1: seq<Str>, out1: Str, images2: seq<Str>, out2: Str)
    requires MontageArgs(prefix, images1, out1) == MontageArgs(prefix, images2, out2)
    ensures images1 == images2 && out1 == out2
  {
    MontageArgsParts(prefix, images1, out1);
    MontageArgsParts(prefix, images2, out2);
  }

  /** The `montage` call for batch `k` of the view `suffix`. */
  function BatchCall(prefix: seq<Str>, sheet: SheetSettings, absPath: Str -> Str,
                     images: seq<Str>, perFile: nat, suffix: Str, k: nat): seq<Str>
  {
    MontageArgs(prefix, Chunk(images, perFile, k), absPath(SheetName(sheet.filepath, sheet.files, k, suffix)))
  }

  /** The `montage` calls for the first `n` batches. */
  function FirstCalls(prefix: seq<Str>, sheet: SheetSettings, absPath: Str -> Str,
                      images: seq<Str>, perFile: nat, suffix: Str, n: nat): (r: seq<seq<Str>>)
    ensures |r| == n
  {
    if n == 0 then []
    else FirstCalls(prefix, sheet, absPath, images, perFile, suffix, n - 1)
         + [BatchCall(prefix, sheet, absPath, images, perFile, suffix, n - 1)]
  }

  lemma {:induction false} FirstCallsAt(prefix: seq<Str>, sheet: SheetSettings, absPath: Str -> Str,
                                        images: seq<Str>, perFile: nat, suffix: Str, n: nat, k: nat)
    requires k < n
    ensures FirstCalls(prefix, sheet, absPath, images, perFile, suffix, n)[k]
         == BatchCall(prefix, sheet, absPath, images, perFile, suffix, k)
  {
    if k < n - 1 { FirstCallsAt(prefix, sheet, absPath, images, perFile, suffix, n - 1, k); }
  }

  /** The batching loop: consecutive slices of `per_file` frames, one
      `montage` call per slice, until every frame is taken. */
  method SpriteSheets(prefix: seq<Str>, sheet: SheetSettings, absPath: Str -> Str,
                      images: seq<Str>, suffix: Str, perFile: nat)
    returns (batches: seq<seq<Str>>, calls: seq<seq<Str>>)
    requires perFile >= 1
    ensures |batches| == |calls| == CeilDiv(|images|, perFile)
    ensures Flatten(batches) == images
    ensures forall k :: 0 <= k < |batches| ==> batches[k] == Chunk(images, perFile, k)
    ensures forall k :: 0 <= k < |calls| ==>
      calls[k] == MontageArgs(prefix, batches[k], absPath(SheetName(sheet.filepath, sheet.files, k, suffix)))
    ensures calls == FirstCalls(prefix, sheet, absPath, images, perFile, suffix, CeilDiv(|images|, perFile))
  {
    batches, calls := [], [];
    var offset, index := 0, 0;
    while offset < |images|
      invariant offset == index * perFile
      invariant index == 0 || (index - 1) * perFile < |images|
      invariant batches == FirstBatches(images, perFile, index)
      invariant calls == FirstCalls(prefix, sheet, absPath, images, perFile, suffix, index)
      decreases |images| - offset
    {
      var current := Slice(images, offset, offset + perFile);
      var filename := SheetName(sheet.filepath, sheet.files, index, suffix);
      var call := MontageArgs(prefix, current, absPath(filename));
      assert current == Chunk(images, perFile, index);
      assert call == BatchCall(prefix, sheet, absPath, images, perFile, suffix, index);
      batches, calls := batches + [current], calls + [call];
      MulSucc(index, perFile);
      offset := offset + perFile;
      index := index + 1;
    }
    CeilDivUnique(|images|, perFile, index);
    FirstBatchesFlatten(images, perFile, index);
    forall k | 0 <= k < index
      ensures batches[k] == Chunk(images, perFile, k)
      ensures calls[k] == BatchCall(prefix, sheet, absPath, images, perFile, suffix, k)
    {
      FirstBatchesAt(images, perFile, index, k);
      FirstCallsAt(prefix, sheet, absPath, images, perFile, suffix, index, k);
    }
  }

  // ---------------------------------------------------------------------
  // The whole sprite-sheet step

  /** The calls made and the error raised, if any. */
  datatype SpritifyOutcome = SpritifyOutcome(calls: seq<seq<Str>>, error: Option<SpritifyError>)

  /** The `montage` calls for one view with at least one frame. */
  function ViewCalls(prefix: seq<Str>, sheet: SheetSettings, absPath: Str -> Str,
                     images: seq<Str>, suffix: Str): seq<seq<Str>>
    requires sheet.files >= 1 && |images| >= 1
  {
    CeilDivSpec(|images|, sheet.files);
    var perFile := CeilDiv(|images|, sheet.files);
    FirstCalls(prefix, sheet, absPath, images, perFile, suffix, CeilDiv(|images|, perFile))
  }

  /** The frames of each view, as the directory walk gives them. */
  function WalkFrames(walk: seq<WalkEntry>): Str -> seq<Str> {
    suffix => Collected(walk, suffix)
  }

  /** The views processed in order, `frames(suffix)` being the frames of the
      view `suffix`: each view's calls follow the previous ones; a zero file
      count fails at the first view, before its frames are checked, and
      otherwise the first view without frames stops the step with an error
      after the calls already made. */
  function PlanViews(prefix: seq<Str>, sheet: SheetSettings, renderDir: Str, frames: Str -> seq<Str>,
                     absPath: Str -> Str, suffixes: seq<Str>): SpritifyOutcome
    requires sheet.files >= 0
  {
    if suffixes == [] then SpritifyOutcome([], None)
    else
      var before := PlanViews(prefix, sheet, renderDir, frames, absPath, suffixes[..|suffixes| - 1]);
      var images := frames(suffixes[|suffixes| - 1]);
      if before.error.Some? then before
      else if sheet.files == 0 then SpritifyOutcome(before.calls, Some(ZeroFileCount))
      else if |images| < 1 then SpritifyOutcome(before.calls, Some(NoImages(renderDir)))
      else SpritifyOutcome(before.calls + ViewCalls(prefix, sheet, absPath, images, suffixes[|suffixes| - 1]), None)
  }

  /** Once a view has failed, later views change nothing. */
  lemma {:induction false} PlanErrorSticks(prefix: seq<Str>, sheet: SheetSettings, renderDir: Str,
                                           frames: Str -> seq<Str>, absPath: Str -> Str, suffixes: seq<Str>, i: nat)
    requires sheet.files >= 0 && i <= |suffixes|
    requires PlanViews(prefix, sheet, renderDir, frames, absPath, suffixes[..i]).error.Some?
    ensures PlanViews(prefix, sheet, renderDir, frames, absPath, suffixes)
         == PlanViews(prefix, sheet, renderDir, frames, absPath, suffixes[..i])
    decreases |suffixes|
  {
    if i < |suffixes| {
      var init := suffixes[..|suffixes| - 1];
      assert init[..i] == suffixes[..i];
      PlanErrorSticks(prefix, sheet, renderDir, frames, absPath, init, i);
    } else {
      assert suffixes[..i] == suffixes;
    }
  }

  /** With a positive file count, the step fails, with the error naming the
      render directory, exactly when some view has no frames. */
  lemma {:induction false} PlanFailsIffViewEmpty(prefix: seq<Str>, sheet: SheetSettings, renderDir: Str,
                                                 frames: Str -> seq<Str>, absPath: Str -> Str, suffixes: seq<Str>)
    requires sheet.files >= 1
    ensures PlanViews(prefix, sheet, renderDir, frames, absPath, suffixes).error.Some?
        <==> exists i :: 0 <= i < |suffixes| && frames(suffixes[i]) == []
    ensures PlanViews(prefix, sheet, renderDir, frames, absPath, suffixes).error.Some?
        ==> PlanViews(prefix, sheet, renderDir, frames, absPath, suffixes).error == Some(NoImages(renderDir))
    decreases |suffixes|
  {
    if suffixes != [] {
      var init := suffixes[..|suffixes| - 1];
      PlanFailsIffViewEmpty(prefix, sheet, renderDir, frames, absPath, init);
      if exists i :: 0 <= i < |init| && frames(init[i]) == [] {
        var i :| 0 <= i < |init| && frames(init[i]) == [];
        assert suffixes[i] == init[i];
      }
      if exists i :: 0 <= i < |suffixes| && frames(suffixes[i]) == [] {
        var i :| 0 <= i < |suffixes| && frames(suffixes[i]) == [];
        if i < |init| { assert init[i] == suffixes[i]; }
      }
    }
  }

  /** With a zero file count the step fails at the first view, before any
      `montage` call. */
  lemma {:induction false} PlanZeroFilesFails(prefix: seq<Str>, sheet: SheetSettings, renderDir: Str,
                                              frames: Str -> seq<Str>, absPath: Str -> Str, suffixes: seq<Str>)
    requires sheet.files == 0 && suffixes != []
    ensures PlanViews(prefix, sheet, renderDir, frames, absPath, suffixes) == SpritifyOutcome([], Some(ZeroFileCount))
    decreases |suffixes|
  {
    if |suffixes| > 1 {
      PlanZeroFilesFails(prefix, sheet, renderDir, frames, absPath, suffixes[..|suffixes| - 1]);
    } else {
      assert suffixes[..0] == [];
    }
  }

  /** When every view has frames, the calls are those of each view in turn. */
  lemma PlanCallsInViewOrder(prefix: seq<Str>, sheet: SheetSettings, renderDir: Str,
                           frames: Str -> seq<Str>, absPath: Str -> Str,
                           suffixes: seq<Str>, s: Str)
    requires sheet.files >= 1 && |frames(s)| >= 1
    requires PlanViews(prefix, sheet, renderDir, frames, absPath, suffixes).error == None
    ensures PlanViews(prefix, sheet, renderDir, frames, absPath, suffixes + [s])
         == SpritifyOutcome(PlanViews(prefix, sheet, renderDir, frames, absPath, suffixes).calls
                            + ViewCalls(prefix, sheet, absPath, frames(s), s), None)
  {
    assert (suffixes + [s])[..|suffixes|] == suffixes;
  }

  /** A zero file count ends the step at the view being processed. */
  lemma PlanStopsOnZeroFiles(prefix: seq<Str>, sheet: SheetSettings, renderDir: Str,
                             frames: Str -> seq<Str>, absPath: Str -> Str, suffixes: seq<Str>, s: Str)
    requires sheet.files == 0
    requires PlanViews(prefix, sheet, renderDir, frames, absPath, suffixes).error == None
    ensures PlanViews(prefix, sheet, renderDir, frames, absPath, suffixes + [s])
         == SpritifyOutcome(PlanViews(prefix, sheet, renderDir, frames, absPath, suffixes).calls,
                            Some(ZeroFileCount))
  {
    assert (suffixes + [s])[..|suffixes|] == suffixes;
  }

  /** A view without frames ends the step with the render directory's error,
      keeping the calls made before it. */
  lemma PlanStopsAtEmptyView(prefix: seq<Str>, sheet: SheetSettings, renderDir: Str,
                             frames: Str -> seq<Str>, absPath: Str -> Str, suffixes: seq<Str>, s: Str)
    requires sheet.files >= 1 && frames(s) == []
    requires PlanViews(prefix, sheet, renderDir, frames, absPath, suffixes).error == None
    ensures PlanViews(prefix, sheet, renderDir, frames, absPath, suffixes + [s])
         == SpritifyOutcome(PlanViews(prefix, sheet, renderDir, frames, absPath, suffixes).calls,
                            Some(NoImages(renderDir)))
  {
    assert (suffixes + [s])[..|suffixes|] == suffixes;
  }

  /** One view's sprite sheets: split its frames over the configured number
      of files and make one `montage` call per batch. */
  method ViewSheets(prefix: seq<Str>, sheet: SheetSettings, absPath: Str -> Str, images: seq<Str>, suffix: Str)
    returns (calls: seq<seq<Str>>)
    requires sheet.files >= 1 && |images| >= 1
    ensures calls == ViewCalls(prefix, sheet, absPath, images, suffix)
  {
    var perFile := CeilDiv(|images|, sheet.files);
    CeilDivSpec(|images|, sheet.files);
    var batches;
    batches, calls := SpriteSheets(prefix, sheet, absPath, images, suffix, perFile);
  }

  /** One pass of the loop over the views: collect the view's frames, fail on
      a zero file count or when there are no frames, and otherwise add the
      view's sprite-sheet calls. */
  method NextView(prefix: seq<Str>, sheet: SheetSettings, renderDir: Str, walk: seq<WalkEntry>,
                  absPath: Str -> Str, suffixes: seq<Str>, i: nat, before: SpritifyOutcome)
    returns (after: SpritifyOutcome)
    requires sheet.files >= 0 && i < |suffixes|
    requires before == PlanViews(prefix, sheet, renderDir, WalkFrames(walk), absPath, suffixes[..i])
    requires before.error == None
    ensures after == PlanViews(prefix, sheet, renderDir, WalkFrames(walk), absPath, suffixes[..i + 1])
  {
    ghost var done := suffixes[..i];
    var suffix := suffixes[i];
    assert suffixes[..i + 1] == done + [suffix];
    var images := CollectImages(walk, suffix);
    assert images == WalkFrames(walk)(suffix);
    if sheet.files == 0 {
      PlanStopsOnZeroFiles(prefix, sheet, renderDir, WalkFrames(walk), absPath, done, suffix);
      return SpritifyOutcome(before.calls, Some(ZeroFileCount));
    }
    if |images| < 1 {
      PlanStopsAtEmptyView(prefix, sheet, renderDir, WalkFrames(walk), absPath, done, suffix);
      return SpritifyOutcome(before.calls, Some(NoImages(renderDir)));
    }
    var calls := ViewSheets(prefix, sheet, absPath, images, suffix);
    PlanCallsInViewOrder(prefix, sheet, renderDir, WalkFrames(walk), absPath, done, suffix);
    after := SpritifyOutcome(before.calls + calls, None);
  }

  /** The loop over the views, stopping at the first view without frames. */
  method SheetsForViews(prefix: seq<Str>, sheet: SheetSettings, renderDir: Str, walk: seq<WalkEntry>,
                        absPath: Str -> Str, suffixes: seq<Str>)
    returns (outcome: SpritifyOutcome)
    requires sheet.files >= 0
    ensures outcome == PlanViews(prefix, sheet, renderDir, WalkFrames(walk), absPath, suffixes)
  {
    outcome := SpritifyOutcome([], None);
    var i := 0;
    while i < |suffixes|
      invariant 0 <= i <= |suffixes|
      invariant outcome == PlanViews(prefix, sheet, renderDir, WalkFrames(walk), absPath, suffixes[..i])
      invariant outcome.error == None
    {
      outcome := NextView(prefix, sheet, renderDir, walk, absPath, suffixes, i, outcome);
      if outcome.error.Some? {
        PlanErrorSticks(prefix, sheet, renderDir, WalkFrames(walk), absPath, suffixes, i + 1);
        return;
      }
      i := i + 1;
    }
    assert suffixes[..i] == suffixes;
  }

  /** The render-complete handler's sprite-sheet step. `geometry` and
      `background` are the option values for `-geometry` and `-background`;
      `absPath` resolves a host-relative path. */
  method SpritifyHandler(sheet: SheetSettings, render: RenderSettings, walk: seq<WalkEntry>,
                         geometry: Str, background: Str, absPath: Str -> Str)
    returns (outcome: SpritifyOutcome)
    requires sheet.autoSprite ==> sheet.files >= 0
    ensures !sheet.autoSprite ==> outcome == SpritifyOutcome([], None)
    ensures sheet.autoSprite ==> outcome == PlanViews(
      MontagePrefix(sheet.imagemagickPath, TileSetting(sheet.isRows, sheet.tiles), geometry, background, sheet.quality),
      sheet, absPath(render.filepath), WalkFrames(walk), absPath,
      if MultiviewActive(sheet, render) then render.viewSuffixes else [""])
  {
    if !sheet.autoSprite {
      return SpritifyOutcome([], None);
    }
    var tile := TileSetting(sheet.isRows, sheet.tiles);
    var suffixes := ViewSuffixes(sheet, render);
    var prefix := MontagePrefix(sheet.imagemagickPath, tile, geometry, background, sheet.quality);
    outcome := SheetsForViews(prefix, sheet, absPath(render.filepath), walk, absPath, suffixes);
  }

  // ---------------------------------------------------------------------
  // The GIF step

  /** `filepath[:-3] + "gif"`: the sheet path with its last three characters
      replaced. */
  function GifPath(filepath: Str): Str {
    DropLast(filepath, 3) + "gif"
  }

  /** The GIF path ends in `gif`, keeps everything of the sheet path but
      its last three characters, and is just `gif` for a shorter path. */
  lemma GifPathShape(filepath: Str)
    ensures EndsWith(GifPath(filepath), "gif")
    ensures |filepath| >= 3 ==> (|GifPath(filepath)| == |filepath|
      && GifPath(filepath)[..|filepath| - 3] == filepath[..|filepath| - 3])
    ensures |filepath| < 3 ==> GifPath(filepath) == "gif"
  {
    assert EndsWith("gif", "gif");
    EndsWithAppend(DropLast(filepath, 3), "gif", "gif");
  }

  /** For a `.png` sheet path the GIF lands beside it with a `.gif`
      extension, so it never overwrites any sprite sheet. */
  lemma GifBesideSheets(filepath: Str, files: int, index: nat, suffix: Str)
    requires EndsWith(filepath, ".png")
    ensures EndsWith(GifPath(filepath), ".gif")
    ensures GifPath(filepath) != SheetName(filepath, files, index, suffix)
  {
    GifPathShape(filepath);
    var g := GifPath(filepath);
    assert g[|g| - 4] == filepath[|filepath| - 4] == '.';
    assert g[|g| - 4..] == ".gif";
    var s := SheetName(filepath, files, index, suffix);
    SheetNameShape(filepath, files, index, suffix);
    assert TakeLast(filepath, 4) == ".png";
    assert s[|s| - 1] == 'g' && g[|g| - 1] == 'f';
  }

  /** The `-delay` value: one frame per `1/fps` second. */
  function DelayArg(fps: int): Str {
    "1x" + IntToStr(fps)
  }

  /** The delay reads back as `1x` followed by the frame rate. */
  lemma DelayArgRoundTrip(fps: int)
    ensures |DelayArg(fps)| > 2 && DelayArg(fps)[..2] == "1x"
    ensures IsIntStr(DelayArg(fps)[2..]) && ParseInt(DelayArg(fps)[2..]) == fps
  {
    PrefixedIntReadsBack("1x", fps);
  }

  /** `"%s/convert" % imagemagick_path`. */
  function ConvertPath(sheet: SheetSettings): Str {
    sheet.imagemagickPath + "/convert"
  }

  /** The `convert` command line: delay, dispose and loop options, all render
      outputs by glob, then the GIF path. */
  function ConvertArgs(sheet: SheetSettings, render: RenderSettings, absPath: Str -> Str): seq<Str> {
    [ConvertPath(sheet), "-delay", DelayArg(render.fps), "-dispose", "background", "-loop", "0",
     absPath(render.filepath) + "*", absPath(GifPath(sheet.filepath))]
  }

  /** The render-complete handler's GIF step: nothing when it is switched
      off, an error when `convert` or the render output is not a file, and
      otherwise the one `convert` call. `isFile` is the host's file probe. */
  function Gifify(sheet: SheetSettings, render: RenderSettings, isFile: Str -> bool, absPath: Str -> Str)
    : (r: Result<Option<seq<Str>>, GififyError>)
    ensures r == Ok(None) <==> !sheet.autoGif
    ensures r.Err? <==> sheet.autoGif && (!isFile(ConvertPath(sheet)) || !isFile(render.filepath))
    ensures r.Err? && !isFile(ConvertPath(sheet)) ==> r.error == ConvertNotFound(ConvertPath(sheet))
    ensures r.Err? && isFile(ConvertPath(sheet)) ==> r.error == RenderOutputNotFound
    ensures r.Ok? && r.value.Some? ==> (|r.value.value| == 9 && r.value.value[0] == ConvertPath(sheet)
      && r.value.value[1] == "-delay" && r.value.value[2] == DelayArg(render.fps)
      && r.value.value[3..7] == ["-dispose", "background", "-loop", "0"]
      && r.value.value[7] == absPath(render.filepath) + "*"
      && r.value.value[8] == absPath(GifPath(sheet.filepath)))
  {
    if !sheet.autoGif then Ok(None)
    else if !isFile(ConvertPath(sheet)) then Err(ConvertNotFound(ConvertPath(sheet)))
    else if !isFile(render.filepath) then Err(RenderOutputNotFound)
    else Ok(Some(ConvertArgs(sheet, render, absPath)))
  }

  // ---------------------------------------------------------------------
  // The file count as written

  /** `math.ceil(len(images) / files)` for any non-zero `files`, negative
      ones included (the quotient then rounds up toward zero). */
  function PerFileAsWritten(n: nat, files: int): int
    requires files != 0
  {
    if files > 0 then CeilDiv(n, files) else -(n / (-files))
  }

  /** With a negative file count and at least one frame, `offset` never
      grows: after any number of rounds it is still below the frame count,
      so the batching loop never ends. */
  lemma NegativeFileCountNeverEnds(n: nat, files: int, rounds: nat)
    requires files < 0 && n >= 1
    ensures PerFileAsWritten(n, files) <= 0
    ensures rounds * PerFileAsWritten(n, files) < n
  {
    var p := PerFileAsWritten(n, files);
    assert rounds * p == -(rounds * -p);
    MulMonotone(0, rounds, -p);
  }
}
