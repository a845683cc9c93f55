# Spritify planning core in Dafny

Spritify is a Blender add-on that turns a rendered animation into sprite
sheets with ImageMagick. This project models its render-complete handlers
in `spritify.py`. The sprite-sheet handler `spritify` collects each render
view's PNG frames from the output directory. It splits them into
consecutive batches, one per sprite-sheet file, names each file, and builds
one `montage` command line per batch. The GIF handler `gifify` checks for the
`convert` binary and the render output. It then builds the `convert`
command line and the GIF's path.

The model is in two modules:

- `python_strings.dfy` (module `PyStr`) holds the Python built-ins the
  handlers rely on, over `seq<char>`:
  - `str(int)` and `"%d"`;
  - `int()` on decimal strings;
  - the slices `s[lo:hi]`, `s[:-k]` and `s[-k:]`;
  - `str.endswith`;
  - `posixpath.join`;
  - `sorted` on strings, in code-point order.
- `spritify.dfy` (module `Spritify`) holds the handlers themselves:
  - Settings, render settings and the directory walk are plain datatypes.
  - Path resolution (`bpy.path.abspath`) and the file probe
    (`os.path.isfile`) are function parameters.
  - Each handler returns the command lines it would run, in order,
    together with the error it would raise.

The loops of the source are methods with loop invariants:
- the view-suffix loop;
- the walk over directories and the loop over sorted file names;
- the loop over views;
- the batching `while offset < len(images)` loop.

Each method is proved equal to a recursive specification function, and the
properties of the handlers are lemmas about those functions.

## Model

| member | source | states |
|---|---|---|
| PyStr.IntToStrRoundTrip | spritify.py:150 | `IntToStr` models `str(i)` and `"%d" % i`; `int(str(i)) == i` for every integer, so the decimal rendering used for tiles, indexes, quality and fps loses nothing |
| PyStr.IntToStrInjective | spritify.py:191 | distinct integers render as distinct `%d` strings |
| PyStr.IntToStrShape | spritify.py:150 | `str(i)` starts with `-` exactly for negative `i`, is all digits otherwise, and ends with a digit |
| PyStr.PrefixedIntReadsBack | spritify.py:240 | an integer rendered after a fixed prefix (`-quality{}`, `1x`) reads back from the rest of the string |
| PyStr.DropTakeLast | spritify.py:191-197 | `DropLast` and `TakeLast` model `s[:-k]` and `s[-k:]`, clamped as Python clamps them; `filepath[:-4] + filepath[-4:] == filepath` for every path, short ones included |
| PyStr.EndsWithTransitive | spritify.py:170 | a string that ends with something ending in `p` ends in `p` |
| PyStr.PathJoinEndsWith | spritify.py:171 | `PathJoin` models `os.path.join` on POSIX; `os.path.join(dirname, f)` ends with `f`, so a joined frame keeps its `<suffix>.png` ending |
| PyStr.StrLeTotal | spritify.py:169 | `StrLe` models Python's `<=` on strings, by code point; the string order `sorted` uses is total |
| PyStr.StrLeTransitive | spritify.py:169 | the string order `sorted` uses is transitive |
| PyStr.StrLeAntisymmetric | spritify.py:169 | two strings ordered both ways are equal |
| PyStr.InsertSpec | spritify.py:169 | inserting into a sorted list keeps it sorted and adds exactly that name |
| PyStr.SortStrsSpec | spritify.py:169 | `SortStrs` models `sorted(filenames)`; the model of `sorted(filenames)` is sorted and a permutation of `filenames` |
| PyStr.SortedUnique | spritify.py:169 | two sorted permutations of one list are equal, so the model returns what `sorted` returns |
| Spritify.TileSettingRoundTrip | spritify.py:149-152 | `TileSetting` models the tile string of lines 149-152; the arrangement and the tile count both read back from the `-tile` argument (`"<n>x"` by rows, `"x<n>"` by columns) |
| Spritify.TileSettingExamples | spritify.py:149-152 | 8 tiles give `"8x"` by rows and `"x8"` by columns |
| Spritify.ViewSuffixes | spritify.py:154-161 | the suffix list is the views' suffixes in order when multiview is on in all three settings, and `['']` otherwise |
| Spritify.MatchingSpec | spritify.py:169-171 | `Matching` models the `endswith` filter of lines 169-171; the filter keeps each name ending in the pattern as often as it occurs, drops every other name, and nothing else is in it |
| Spritify.MatchingSorted | spritify.py:169-171 | filtering a sorted name list keeps it sorted |
| Spritify.AddDirImages | spritify.py:169-171 | the inner loop appends exactly one directory's matching frames, in sorted order, joined to the directory |
| Spritify.CollectImages | spritify.py:166-171 | the collected `images` list is the walk's directories in order, each contributing its sorted matching frames |
| Spritify.DirImagesMatchPattern | spritify.py:169-171 | every frame of a directory ends with `<suffix>.png` |
| Spritify.CollectedMatchPattern | spritify.py:168-171 | every collected frame ends with `<suffix>.png` |
| Spritify.SortedMatchingMembership | spritify.py:169-170 | sorting before filtering neither adds nor loses a file name |
| Spritify.DirImagesMembership | spritify.py:169-171 | a path is among a directory's frames exactly when it joins the directory to one of its files ending in `<suffix>.png` |
| Spritify.CollectedMembership | spritify.py:168-171 | `Collected` models the frames the walk of lines 168-171 gathers; a path is collected exactly when some directory of the walk holds a file ending in `<suffix>.png` that joins to it |
| Spritify.CeilDivSpec | spritify.py:174 | `CeilDiv` models `math.ceil(len(images) / files)` of line 174; `per_file = ceil(N / files)` covers all `N` frames with `files` slices, is the smallest such count, and is at least 1 when there is a frame |
| Spritify.CeilDivUnique | spritify.py:174 | the ceiling is the only count with those two properties |
| Spritify.BatchCountAtMostFiles | spritify.py:174-187 | with one frame or more and a positive file count, `per_file >= 1` and the number of batches never exceeds `files` |
| Spritify.BatchCountExamples | spritify.py:174 | 4 frames over 3 files give 2 batches; 17 frames over 3 files give 3 batches of at most 6 |
| Spritify.BatchSizes | spritify.py:188 | `Chunk` models the slice `images[offset:offset + per_file]` of line 188; every batch holds `per_file` frames except the last, which holds between 1 and `per_file` |
| Spritify.FrameInBatch | spritify.py:187-188 | frame `j` is in batch `j / per_file`, at position `j % per_file`, and that batch exists |
| Spritify.FrameInOneBatch | spritify.py:188 | no batch other than `j / per_file` spans position `j` |
| Spritify.BatchSlotIsFrame | spritify.py:187-188 | slot `t` of batch `k` holds frame `k * per_file + t`, and that frame's own batch and slot are `k` and `t`, so each frame lands in exactly one slot |
| Spritify.FirstBatchesFlatten | spritify.py:187-188 | the first `n` batches, joined in order, are the frames before the `n`-th batch's start |
| Spritify.SpriteSheets | spritify.py:186-249 | the batching loop ends, and its batches joined in order are exactly the frames. It makes `ceil(N / per_file)` batches, batch `k` being `images[k*per_file : k*per_file+per_file]`, and call `k` is the `montage` line for batch `k` and its file name |
| Spritify.FirstCallsAt | spritify.py:187-249 | the `k`-th call built is the `montage` call for batch `k` |
| Spritify.SheetNameShape | spritify.py:189-197 | `SheetName` models the file name of lines 189-197; every sheet name keeps the sheet path's stem and ends with its last four characters |
| Spritify.SheetNamesDistinct | spritify.py:190-193 | with more than one file, the batches of a view get pairwise distinct names |
| Spritify.SingleSheetNames | spritify.py:194-197 | with one file, distinct view suffixes give distinct names, and the empty suffix gives the sheet path itself |
| Spritify.MontagePrefixOptions | spritify.py:229-241 | `MontagePrefix` models the fixed arguments of lines 230-241; the fixed prefix is ten arguments: depth 8, then the tile, geometry and background values as given, then the quality, which reads back from `-quality<n>` |
| Spritify.MontageArgsParts | spritify.py:242-243 | `MontageArgs` models the whole `montage` line of lines 230-243; a `montage` line is the prefix, then the batch's frames in order, then the output path as the last argument |
| Spritify.MontageArgsInjective | spritify.py:230-243 | two `montage` lines with the same prefix are equal only for the same frames and the same output |
| Spritify.ViewSheets | spritify.py:174-249 | one view's calls are the batching of its frames with `per_file = ceil(N / files)` |
| Spritify.PlanStopsOnZeroFiles | spritify.py:174 | a zero file count ends the step with the division error at the view being processed, keeping earlier calls |
| Spritify.PlanStopsAtEmptyView | spritify.py:178-185 | a view without frames ends the step with the render directory's error, keeping earlier calls |
| Spritify.PlanCallsInViewOrder | spritify.py:163-249 | a view with frames appends its calls after those of the earlier views |
| Spritify.NextView | spritify.py:163-249 | one pass of the view loop extends the plan by exactly that view |
| Spritify.SheetsForViews | spritify.py:163-249 | the view loop computes the plan for all views, stopping at the first failure |
| Spritify.PlanErrorSticks | spritify.py:178-185 | once a view has failed, later views change nothing |
| Spritify.PlanFailsIffViewEmpty | spritify.py:178-185 | `PlanViews` models the view loop of lines 163-249, up to the first raise; with a positive file count, the step fails exactly when some view has no frames, and the error names the render directory |
| Spritify.PlanZeroFilesFails | spritify.py:174 | with a zero file count and at least one view, the step fails before any `montage` call |
| Spritify.SpritifyHandler | spritify.py:142-249 | with `auto_sprite` off nothing happens. Otherwise the outcome is the plan over the suffix list. It uses the tile setting for the arrangement, the `montage` prefix from the settings, and the frames of the walk of the resolved render directory |
| Spritify.GifPathShape | spritify.py:259 | `GifPath` models `filepath[:-3] + "gif"` of line 259; the GIF path ends in `gif`, keeps all but the last three characters of the sheet path, and is `gif` for a shorter path |
| Spritify.GifBesideSheets | spritify.py:298 | for a `.png` sheet path the GIF path ends in `.gif` and differs from every sprite-sheet name |
| Spritify.DelayArgRoundTrip | spritify.py:292 | `DelayArg` models `"1x" + str(fps)` of line 292; the delay argument is `1x` followed by the frame rate, which reads back |
| Spritify.Gifify | spritify.py:253-299 | `ConvertArgs` models the `convert` line of lines 290-299. With `auto_gif` off nothing happens. It fails exactly when `convert` or the render output is not a file, checking `convert` first; the render-output error carries no path, as the source's message is never formatted. Otherwise it makes one nine-argument `convert` call: the `convert` binary, `-delay` and the delay, `-dispose background -loop 0`, the resolved render path followed by `*`, and the resolved GIF path last |
| Spritify.NegativeFileCountNeverEnds | spritify.py:174-249 | `PerFileAsWritten` models line 174 for any non-zero count; as written, a negative file count gives `per_file <= 0`, so `offset` stays below the frame count after any number of rounds |

## Left out

- Removing an old sprite sheet or GIF (spritify.py:146-147, 258-261) is file-system I/O and is not modelled.
- `subprocess.call` (spritify.py:245, 290-299) is not run. Each call is recorded as its argument list, in order. The exit status is ignored, as the source ignores it.
- `os.walk` (spritify.py:168) is an input: a sequence of directories, each with its file names, in the host's walk order. The sub-directory names that `os.walk` yields are not needed.
- `bpy.path.abspath` and `os.path.isfile` are function parameters. Which paths exist is the host's business.
- `find_bin_path_windows` (spritify.py:123-138, 201-202, 266-270) is a Windows registry lookup and is not modelled. The model uses the configured ImageMagick path.
- The width, height, geometry and background strings (spritify.py:204-227) are built by float arithmetic and Python's float formatting. They are opaque `geometry` and `background` parameters.
- `math.ceil(len(images) / files)` uses float division. It is modelled as exact integer ceiling division, which is what the float gives for any realistic frame count.
- `print` calls, the property group, the panel, the operators' `poll`/`execute` and registration (spritify.py:44-120, 302-444) are UI and are not modelled.
- Error messages are reduced to the data they carry: the render directory for a view without frames, and the `convert` path. The missing-render-output error carries nothing, because its message (spritify.py:282-288) is never formatted and names no path.
- Spritify.SpritifyHandler: requires a non-negative file count when `auto_sprite` is on, because a negative one makes the batching loop run forever (see Findings). The requires also excludes negative counts on inputs that end: with an empty first view `per_file` is 0 and line 178 raises `FileNotFoundError`, and under multiview with no views nothing happens. A zero file count is modelled as the `ZeroFileCount` error.
- Spritify.SheetsForViews: requires a non-negative file count, and so excludes the same inputs for the same reason.
- One walk is reused for every view. The source walks the render directory again per view (spritify.py:168), so a sheet written by an earlier view's `montage` call inside that directory could be picked up by a later view; the model does not capture this.
- `subprocess.call` raising `OSError` when `montage` or `convert` cannot be started is not modelled.
- File names are `seq<char>`, so the lone surrogates `os.walk` yields for undecodable names are not representable.

## Findings

| source | as written | input that shows it | evidently intended | confidence | as-written member | corrected member |
|---|---|---|---|---|---|---|
| spritify.py:79-83 | The `files` property has no lower bound. A negative value gives `per_file = ceil(N / files) <= 0`, so `offset += per_file` never reaches `len(images)` and the `montage` loop never ends | `files = -1` with one rendered frame: `per_file = -1`, and `offset` goes 0, -1, -2, … | a file count of at least 1, so that `per_file >= 1` and at most `files` batches are made | not executed | Spritify.NegativeFileCountNeverEnds | Spritify.BatchCountAtMostFiles |
