# contour_generator: the tile bookkeeping, in Dafny

contour_generator renders contour-line vector tiles from a raster elevation
model (DEM) source. Its driver (`src/entry-point.ts`) has three modes:

- **pyramid**: one tile;
- **zoom**: every tile of one zoom level;
- **bbox**: the tiles covering a longitude/latitude box.

Pyramid mode starts one child process for its one tile. The zoom mode
splits its list of tiles round-robin over a number of worker chunks, then
starts one child process per tile. The bbox mode would do the same with the
tiles of its box, but for the broken call listed under "## Findings": as
written it throws before any tile starts. Each mode writes `metadata.json` only
once every tile it started has succeeded: one failure rejects the run, and
the metadata is then skipped. The child is always the pyramid script
`src/generate-contour-tile-pyramid.ts`. The repository also carries a
near-duplicate script, `src/generate-countour-tile-pyramid.ts`, which takes
differently named options and is run on its own, never as the child. Both
scripts do the following, each on its own tile:

1. It expands its tile into the quad-tree of descendants down to a maximum
   zoom.
2. It sorts that list by zoom, then column, then row.
3. It processes the list in batches of 25. Every tile is fetched with the
   contour levels of its zoom, which come either from a fixed increment or
   from a zoom-to-interval threshold table.

Two adapter helpers (`src/mlcontour-adapter.ts`) do the following:

- read `z/x/y` back out of a tile URL;
- resolve a threshold table at one zoom.

`src/bbox_to_tiles.ts` turns a box into a tile range and a text listing of
that range.

The Dafny modules follow those files:

| module | file | models |
|---|---|---|
| `Tiles` | tiles.dfy | tile addresses and the parent/child relation; row-major rectangles of tiles |
| `Arith` | arith.dfy | Euclidean-division facts used by the counts |
| `JsText` | js_text.dfy | `toString`, `parseInt(s, 10)`, `split` and `lastIndexOf` on integers and strings |
| `MlcontourAdapter` | mlcontour_adapter.dfy | `extractZXYFromUrlTrim` and `getOptionsForZoom` |
| `Pyramid` | pyramid.dfy | `getAllTiles`, the `(z, x, y)` sort, `processQueue` and the plan of `processTile` |
| `ContourPyramid`, `CountourPyramid` | contour_pyramid.dfy, countour_pyramid.dfy | each script's `contourOptions` and threshold table |
| `BboxToTiles` | bbox_to_tiles.dfy | `calculateTileRangeForBounds` and `bboxToTiles` |
| `EntryPoint` | entry_point.dfy | the parts of the driver listed below |

The driver parts modelled in `EntryPoint` are `validateEncoding`,
`processTile`, the round-robin `reduce`, `processTilesInParallel`, the zoom
sweep, the `metadata.json` record, and the three run modes.

The two pyramid scripts repeat `getAllTiles`, `processTile`, `processQueue`
and the sort line for line. Module `Pyramid` models them once, and each
script's module adds only its own options and table.

Some parts are imperative in the source, and the model keeps them so, as
methods with loop invariants:

- `getTileList`;
- `processQueue`;
- the nested loops of `runZoom` and `bboxToTiles`;
- the `reduce`;
- `getOptionsForZoom`.

The sort is modelled as an in-place sort of an array. Each method is proved
against a specification function: `Expand`, `Batches`, `Chunks`, `Rect`,
`Render` and `ResolveLevels`. The properties are then proved about those
functions.

## Model

| member | source | states |
|---|---|---|
| `Tiles.ChildIffParent` | src/generate-contour-tile-pyramid.ts:88-90 | the four children of `t` are exactly the tiles one zoom down whose parent (`x/2`, `y/2`) is `t` |
| `Tiles.DescendantRange` | src/generate-contour-tile-pyramid.ts:84-102 | the descendants of a root `d` levels down are the `2^d x 2^d` block starting at `(root.x * 2^d, root.y * 2^d)` |
| `Tiles.RowFacts` | src/bbox_to_tiles.ts:46-48 | one row from `x0` to `x1` has `x1 - x0 + 1` tiles, exactly those columns of that row, left to right |
| `Tiles.RectMembers` | src/entry-point.ts:203-209 | the rectangle the nested loops build holds exactly the tiles of that zoom inside the bounds |
| `Tiles.RectSize` | src/entry-point.ts:203-209 | the rectangle has `(x1 - x0 + 1) * (y1 - y0 + 1)` tiles, none when a range runs backwards |
| `Tiles.RectOrder` | src/bbox_to_tiles.ts:45-49 | rectangle order is strictly row-major (`y` outer, `x` inner), so no tile repeats |
| `JsText.ParseIntToString` | src/mlcontour-adapter.ts:68-70 | `parseInt(n.toString() + rest)` is `n` whenever `rest` does not start with a digit |
| `JsText.ParseIntRoundTrip` | src/mlcontour-adapter.ts:68-70 | `parseInt(n.toString())` is `n` for every integer, negative ones included |
| `JsText.LastIndexOf` | src/mlcontour-adapter.ts:50-53 | `lastIndexOf(c)` is -1 exactly when `c` is absent, else the index of a `c` with none after it |
| `JsText.SplitAround` | src/mlcontour-adapter.ts:55 | `(a + c + b).split(c)` is `a.split(c)` followed by `b.split(c)` |
| `JsText.SplitNoSeparator` | src/mlcontour-adapter.ts:55 | a string without the separator splits into itself alone |
| `MlcontourAdapter.ExtractZXYFromUrlTrim` | src/mlcontour-adapter.ts:48-77 | coordinates come back exactly when the URL has a `/` and at least four segments whose `z`, `x` and trimmed `y` all parse, and then they are the numbers those three segments read as |
| `MlcontourAdapter.ZXYOfSegments` | src/mlcontour-adapter.ts:55-76 | coordinates exactly when there are four or more segments and the last three (the last trimmed) parse, and then they are those three numbers |
| `MlcontourAdapter.TrimExtension` | src/mlcontour-adapter.ts:64-65 | a prefix of the segment: all of it when it has no `.`, otherwise everything before its last `.` |
| `MlcontourAdapter.ExtractNeedsSlash` | src/mlcontour-adapter.ts:50-53 | a URL without `/` gives `null` |
| `MlcontourAdapter.ExtractNeedsFourSegments` | src/mlcontour-adapter.ts:55-58 | a URL of at most three `/`-segments gives `null` |
| `MlcontourAdapter.ExtractNeedsNumbers` | src/mlcontour-adapter.ts:60-74 | a `z` or `x` segment, or a trimmed `y` segment, that parses as NaN gives `null` |
| `MlcontourAdapter.TrimmedNumberParses` | src/mlcontour-adapter.ts:64-70 | a number followed by an extension (or nothing) still parses back to the number after the cut at the last `.` |
| `MlcontourAdapter.UrlSegments` | src/mlcontour-adapter.ts:50-55 | a URL written as prefix/z/x/y+ext has a `/` and splits into the prefix's pieces, then the three numbers |
| `MlcontourAdapter.SegmentsRoundTrip` | src/mlcontour-adapter.ts:56-76 | segments ending in three written numbers read back as `{z, x, y}` |
| `MlcontourAdapter.ExtractRoundTrip` | src/mlcontour-adapter.ts:48-77 | round trip: any prefix, then `/z/x/y` and an optional `.ext`, is read back as exactly `{z, x, y}` |
| `MlcontourAdapter.FloorOf` | src/mlcontour-adapter.ts:84-92 | the largest key at most the zoom, and none exactly when every key exceeds it |
| `MlcontourAdapter.ResolveLevelsFloor` | src/mlcontour-adapter.ts:80-98 | the resolved levels are the floor key's entry; there is no floor key exactly when every key exceeds the zoom, and then the levels are empty |
| `MlcontourAdapter.GetOptionsForZoom` | src/mlcontour-adapter.ts:80-98 | the `forEach` scan, in any entry order, gives the floor key's levels, with every other field kept and no table left |
| `Pyramid.GetTileList` | src/generate-contour-tile-pyramid.ts:87-98 | the recursive walk appends exactly the expansion `Expand(tile)` to the list so far |
| `Pyramid.GetAllTiles` | src/generate-contour-tile-pyramid.ts:84-102 | the list starts with the root and holds every tile of its pyramid down to `maxZoom` once (only the root when `root.z >= maxZoom`), `1 + 4 + ... + 4^d` tiles |
| `Pyramid.PyramidFacts` | src/generate-contour-tile-pyramid.ts:84-102 | root plus expansion: membership is exactly `InPyramid`, no duplicates, pyramid size |
| `Pyramid.ExpandUnfold` | src/generate-contour-tile-pyramid.ts:91-97 | the expansion is the four children, then each child's expansion in order |
| `Pyramid.ExpandMember` | src/generate-contour-tile-pyramid.ts:87-98 | a tile is in the expansion of `t` exactly when it is a strict descendant of `t` no deeper than `maxZoom` |
| `Pyramid.ExpandFirstFacts` | src/generate-contour-tile-pyramid.ts:92-97 | what the first `i` children expand to has no duplicate, and every tile lies under one of those children |
| `Pyramid.ExpandNoDuplicates` | src/generate-contour-tile-pyramid.ts:87-98 | the expansion never lists a tile twice |
| `Pyramid.ExpandSize` | src/generate-contour-tile-pyramid.ts:84-102 | the expansion of a tile `d` levels above `maxZoom` has `4 + 16 + ... + 4^d` tiles |
| `Pyramid.ExpandSizeDepth` | src/generate-contour-tile-pyramid.ts:84-102 | the same count, by induction on the depth below the tile |
| `Pyramid.WorldToZoomTwo` | src/generate-contour-tile-pyramid.ts:221 | the world tile and its expansion down to zoom 2 are 21 tiles |
| `Pyramid.Compare` | src/generate-contour-tile-pyramid.ts:223-230 | the comparator is negative, zero or positive exactly when the first tile is before, equal to or after the second by (z, x, y) |
| `Pyramid.CompareTransitive` | src/generate-contour-tile-pyramid.ts:223-230 | the comparator's "before or same" is transitive, so it is a consistent order |
| `Pyramid.SortByZxy` | src/generate-contour-tile-pyramid.ts:223-230 | the array ends up ordered by the comparator and is a permutation of what it held |
| `Pyramid.Insert` | src/generate-contour-tile-pyramid.ts:223-230 | one insertion step extends the ordered prefix by one, keeps the array's multiset and leaves the tiles after position `i` untouched |
| `Pyramid.SortedDistinctAscending` | src/generate-contour-tile-pyramid.ts:223-230 | an ordered list without duplicates is strictly ascending |
| `Pyramid.PermutationNoDuplicates` | src/generate-contour-tile-pyramid.ts:221-230 | sorting a duplicate-free list keeps it duplicate-free |
| `Pyramid.BuildQueue` | src/generate-contour-tile-pyramid.ts:221-230 | the queue holds every tile of the pyramid once, in strictly ascending (z, x, y) order, `PyramidSize` tiles |
| `Pyramid.BatchesFlatten` | src/generate-contour-tile-pyramid.ts:136-137 | the slices `queue.slice(i, i + batchSize)` put back together are the queue |
| `Pyramid.BatchesCount` | src/generate-contour-tile-pyramid.ts:139 | there are `Math.ceil(queue.length / batchSize)` batches |
| `Pyramid.BatchesSizes` | src/generate-contour-tile-pyramid.ts:136-137 | every batch but the last holds `batchSize` tiles; the last holds 1 to `batchSize` |
| `Pyramid.DefaultBatches` | src/generate-contour-tile-pyramid.ts:132-139 | at the default batch size 25 there are `ceil(n / 25)` batches, all of 25 tiles but the last, which holds 1 to 25 |
| `Pyramid.WorldToZoomTwoOneBatch` | src/generate-contour-tile-pyramid.ts:132-139 | the 21 tiles of the world down to zoom 2 go out as one batch at the default size |
| `Pyramid.AllSucceedFlatten` | src/generate-contour-tile-pyramid.ts:141 | every batch succeeding is every tile of their concatenation succeeding |
| `Pyramid.BatchStep` | src/generate-contour-tile-pyramid.ts:136-137 | starting the batch at `i` keeps the started batches a prefix of the batches and their tiles the queue up to the next start |
| `Pyramid.FailingBatch` | src/generate-contour-tile-pyramid.ts:141 | a failing tile in a batch makes the queue fail |
| `Pyramid.ProcessQueue` | src/generate-contour-tile-pyramid.ts:132-146 | batches start in order and each only after the previous one fully succeeded; no batch after a failing one starts; the run succeeds exactly when every tile does |
| `Pyramid.TilePathNamesTile` | src/generate-contour-tile-pyramid.ts:108-109 | `<dir>/<z>/<x>/<y>.pbf` read by the URL reader gives back the tile |
| `Pyramid.TilePathInjective` | src/generate-contour-tile-pyramid.ts:108-109 | different tiles are written to different files |
| `Pyramid.PlanTile` | src/generate-contour-tile-pyramid.ts:104-114 | the tile's file path, and options that are the fixed levels unchanged or the table resolved at the tile's zoom |
| `ContourPyramid.ContourOptionsFor` | src/generate-contour-tile-pyramid.ts:152-174 | a truthy increment gives the single level `[increment]`, otherwise the nine-entry table with its key order |
| `ContourPyramid.FloorKey` | src/generate-contour-tile-pyramid.ts:157-167 | for zoom >= 1, the largest table key at most the zoom |
| `ContourPyramid.KeysFromOne` | src/generate-contour-tile-pyramid.ts:157-167 | no table key is below 1 |
| `ContourPyramid.FloorKeyLevels` | src/generate-contour-tile-pyramid.ts:157-167 | the entry at the floor key holds the step function's interval pair |
| `ContourPyramid.ResolvedLevels` | src/generate-contour-tile-pyramid.ts:157-167 | the table resolved at any zoom equals the explicit step function `LevelsAt` (no levels below zoom 1) |
| `ContourPyramid.PlanContourTile` | src/generate-contour-tile-pyramid.ts:104-114 | the tile is fetched with `[increment]` when one is given, else with `LevelsAt(z)` |
| `CountourPyramid.ContourOptionsFor` | src/generate-countour-tile-pyramid.ts:146-161 | a truthy increment gives `[increment]`, otherwise the four-entry table with its key order |
| `CountourPyramid.FloorKey` | src/generate-countour-tile-pyramid.ts:149-154 | for zoom >= 1, the largest of keys 1, 9, 11, 12 at most the zoom |
| `CountourPyramid.ResolvedLevels` | src/generate-countour-tile-pyramid.ts:149-154 | the table resolved at any zoom equals the step function: none, 500, 100, 50, 10 |
| `CountourPyramid.SampleLevels` | src/generate-countour-tile-pyramid.ts:149-154 | zoom 0 gets no level, zoom 5 gets 500, and zooms 12 and 20 get 10 |
| `CountourPyramid.PlanCountourTile` | src/generate-countour-tile-pyramid.ts:92-102 | the tile's file under `oDir`, fetched with `[increment]` or this table's `LevelsAt(z)` |
| `BboxToTiles.TileX` | src/bbox_to_tiles.ts:14-15 | the column is the largest integer at most `(lon + 180) / 360 * 2^zoom` |
| `BboxToTiles.CalculateTileRangeForBounds` | src/bbox_to_tiles.ts:3-32 | the south-west corner gives `minX` and `maxY`, the north-east corner `maxX` and `minY`; so every longitude of the box has its column in `[minX, maxX]` and, for a row projection that never increases northward, every latitude its row in `[minY, maxY]`; as the corners are points of an ordered box, no smaller range covers it |
| `BboxToTiles.TileXMonotone` | src/bbox_to_tiles.ts:14-15 | the tile column never decreases eastward |
| `BboxToTiles.TileXEdges` | src/bbox_to_tiles.ts:14-15 | longitude -180 is column 0, and longitude 180 is column `2^zoom`, one past the last column |
| `BboxToTiles.TileXInWorld` | src/bbox_to_tiles.ts:14-15 | every longitude in `[-180, 180)` falls in an existing column |
| `BboxToTiles.RangeOrdered` | src/bbox_to_tiles.ts:3-32 | a box with ordered corners and a non-increasing row projection gives `minX <= maxX` and `minY <= maxY` |
| `BboxToTiles.ClampedTileXInWorld` | src/bbox_to_tiles.ts:14-15 | the clamped column of any longitude in `[-180, 180]` exists, equals the unclamped one short of 180, and is the last column `2^zoom - 1` at 180 |
| `BboxToTiles.ClampedRangeInWorld` | src/bbox_to_tiles.ts:3-32 | a box inside the world gets a clamped column range `0 <= minX <= maxX < 2^zoom` |
| `BboxToTiles.BboxToTiles` | src/bbox_to_tiles.ts:34-51 | the listing is one `"z x y "` entry per tile of the range, rows `minY..maxY` outer, columns `minX..maxX` inner |
| `BboxToTiles.AppendRow` | src/bbox_to_tiles.ts:46-48 | the inner loop appends the entries of one row, left to right |
| `BboxToTiles.RenderAppend` | src/bbox_to_tiles.ts:44-50 | the listing of two tile lists is the concatenation of their listings |
| `BboxToTiles.SplitEntry` | src/bbox_to_tiles.ts:47 | one entry split on spaces gives back its three numbers |
| `BboxToTiles.SplitRender` | src/bbox_to_tiles.ts:44-50 | the listing split on spaces is the three numbers of every tile, in order |
| `BboxToTiles.ListingShape` | src/bbox_to_tiles.ts:34-51 | the listing is empty for a backwards range, otherwise ends in a space and splits into `3 * tiles + 1` pieces, the last one empty |
| `EntryPoint.ValidateEncoding` | src/entry-point.ts:40-48 | valid exactly for `mapbox` and `terrarium`, naming that encoding; otherwise the error message naming the input |
| `EntryPoint.ValidateEncodingName` | src/entry-point.ts:40-48 | validating an encoding's name gives that encoding back |
| `EntryPoint.SpawnArgumentsNameTile` | src/entry-point.ts:107-129 | the 21 child arguments carry the tile: the values after `--x`, `--y`, `--z` and `--outputMaxZoom` parse back to them (with `parseInt`, which agrees with the child's `Number` on this integer text) |
| `EntryPoint.ProcessTile` | src/entry-point.ts:97-151 | a tile succeeds exactly when the encoding is valid and its child exits with code 0 |
| `EntryPoint.ChunksStep` | src/entry-point.ts:163-171 | one more coordinate goes to the end of chunk `i % P`, a new chunk exactly while fewer than `P` were seen |
| `EntryPoint.Partition` | src/entry-point.ts:163-171 | the `reduce` builds exactly `Chunks(coords, processes)` |
| `EntryPoint.PickSize` | src/entry-point.ts:163-171 | chunk `k` gets `ceil((N - k) / P)` coordinates |
| `EntryPoint.PickIndex` | src/entry-point.ts:163-171 | element `j` of chunk `k` is coordinate `k + j * P`: chunks keep the input order |
| `EntryPoint.ChunkSizes` | src/entry-point.ts:163-171 | there are `min(N, P)` chunks, none empty, each of `floor(N/P)` to `ceil(N/P)` coordinates |
| `EntryPoint.ChunkOfIndex` | src/entry-point.ts:163-171 | coordinate `i` is element `i / P` of chunk `i % P` |
| `EntryPoint.ChunksPermutation` | src/entry-point.ts:163-171 | for a non-zero count the chunks hold exactly the coordinates, none lost or repeated |
| `EntryPoint.ZeroProcessesDropAll` | src/entry-point.ts:165 | with `processes == 0` no chunk exists, so a non-empty coordinate list is not covered |
| `EntryPoint.AllSucceedPermutation` | src/entry-point.ts:173-186 | lists with the same tiles succeed together |
| `EntryPoint.StartChunks` | src/entry-point.ts:173-186 | every tile of every chunk is started, recorded chunk by chunk in order, and the result is whether every chunk's tiles all succeeded |
| `EntryPoint.ProcessTilesInParallel` | src/entry-point.ts:158-187 | the tiles started, recorded as each is started, are the chunks' tiles chunk by chunk; for a non-zero count that is every coordinate once, and the call succeeds exactly when all do; for zero it resolves having started nothing |
| `EntryPoint.ProcessAllTiles` | src/entry-point.ts:158-187 | succeeds exactly when the count is non-zero and every coordinate succeeds, and then every coordinate was started once |
| `EntryPoint.CollectRect` | src/entry-point.ts:203-209 | the nested loops collect exactly `Rect(z, x0, x1, y0, y1)` |
| `EntryPoint.ZoomCoordinates` | src/entry-point.ts:203-209 | `runZoom`'s coordinate list is the sweep of its zoom (one tile for a negative zoom) |
| `EntryPoint.ZoomSweep` | src/entry-point.ts:203-209 | zoom `z` gets `2^z * 2^z` tiles, exactly those with `0 <= x, y < 2^z`, in row-major order |
| `EntryPoint.CreateMetadata` | src/entry-point.ts:61-83 | `minzoom` and `maxzoom` are the zooms' decimal text and parse back to them; the name is `Contour_z`, then `minzoom`, `_Z` and `maxzoom`; the single `contours` layer carries the same zooms and the `ele` and `level` number fields; type `baselayer`, version `1`, format `pbf` and the fixed world bounds |
| `EntryPoint.MetadataName` | src/entry-point.ts:62 | the name is exactly `Contour_z`, the minimum zoom's decimal text, `_Z` and the maximum zoom's decimal text, and both zooms read back from it |
| `EntryPoint.MetadataNameInjective` | src/entry-point.ts:62 | different zoom pairs give different names |
| `EntryPoint.RunPyramid` | src/entry-point.ts:189-192 | metadata for `[z, outputMaxZoom]` exactly when the one tile succeeds |
| `EntryPoint.RunZoomAsWritten` | src/entry-point.ts:194-224 | the program's run: metadata exactly when the count is zero or every tile of the zoom succeeds; with a zero count nothing is started yet metadata is written; otherwise every tile was started once |
| `EntryPoint.RunZoom` | src/entry-point.ts:194-224 | the corrected run, with a zero count refused: metadata exactly when the count is non-zero and every tile of the zoom succeeds; then each was started once |
| `EntryPoint.RunBboxAsWritten` | src/entry-point.ts:226-256 | what the program passes on is the text listing of the unclamped range, and it never writes metadata |
| `EntryPoint.RunBbox` | src/entry-point.ts:226-256 | metadata exactly when the count is non-zero and every tile of the clamped box range succeeds; then each was started once |

## Left out

- Console output and the `verbose` flag are left out. So are the child's
  stdout/stderr forwarding, `mkdir` and every file write. `metadata.json` is
  modelled as the record it serialises. The `JSON.stringify` text is not
  modelled.
- The `description` timestamp of the metadata is left out; it comes from a
  clock.
- The child process started by `processTile` is a parameter
  `spawn: Tile -> bool`, giving the success of each tile. It is fixed per
  tile; retries and nondeterministic failures are not modelled.
- In the pyramid scripts, fetching and rendering a tile is a parameter
  `process: Tile -> bool`. This covers `fetchContourTile`, the DEM manager,
  PMTiles access and `GetImageData`.
- Concurrency is left out. `Promise.all` is modelled by its outcome: every
  tile of the group is started, and the group succeeds only when all do. The
  interleaving and the order of completion are not modelled.
- The command-line parsing (`commander`, `main`) and the script preambles
  that read options are left out. The script under `bbox_to_tiles.ts:53-64`
  that reads `process.argv` and prints the listing is left out too.
- Numbers are modelled as follows:
  - coordinates, zooms and counts are Dafny integers;
  - the longitude arithmetic uses exact reals, not IEEE doubles;
  - the Mercator row formula is a parameter, of which only its never
    increasing northward is assumed;
  - fractional, NaN and infinite values from `Number(...)` are not modelled,
    except the increment, whose absence (NaN) is `None`;
  - `toString` is modelled for integers only. The exponent notation JavaScript
    uses at 1e21 and beyond is not modelled.
- `path.join` is modelled as joining with `/`; its normalisation of `.`,
  `..` and repeated separators is not modelled.
- The threshold tables have integer keys. `Number(zString)` of a key that is
  not an integer is not modelled.
- `Array.prototype.sort` is modelled by an insertion sort with the script's
  comparator. The comparator is a total order and the tiles are distinct, so
  every correct sort gives the same queue. The engine's own algorithm is not
  modelled.
- Pyramid.ProcessQueue: requires `batchSize >= 1`. Both scripts call it only
  with the default 25. A batch size of 0 or less, which would never advance
  past the first batch, is not modelled.
- EntryPoint.SpawnArgumentsNameTile: states the parse-back of the tile
  coordinates and of `--outputMaxZoom` only. The other arguments are passed
  through as text. The increment is an integer here, so a fractional
  increment's text is not modelled.
- BboxToTiles.BboxToTiles: the zoom is a natural number. A negative
  integer zoom, for which `Math.pow(2, zoom)` is a fraction, is not modelled.
- EntryPoint.ProcessTilesInParallel: `processes` is an integer. A fractional
  count, which would give fractional keys that are not array indices, is not
  modelled.

## Findings

| source | as written | input that shows it | evidently intended | confidence | as-written member | corrected member |
|---|---|---|---|---|---|---|
| src/bbox_to_tiles.ts:14-15 | the column is `floor((lon + 180) / 360 * 2^zoom)` with no clamp | a box with `maxx = 180` at zoom `z` gets `maxX = 2^z`, a column that does not exist (zoom 0 lists tiles `0 1 y`) | the eastern edge belongs to the last column, `2^z - 1` | high, not executed | `BboxToTiles.TileXEdges` | `BboxToTiles.ClampedRangeInWorld` |
| src/entry-point.ts:165 | the chunk key is `i % processes` | `--processes 0`: every key is NaN, the chunk array stays empty, no tile is processed, and the metadata is still written | a zero process count is refused (or a run of no tile is not reported as done) | medium, not executed | `EntryPoint.RunZoomAsWritten` | `EntryPoint.RunZoom` |
| src/entry-point.ts:227-245 | `runBbox` calls `bboxToTiles`, which `bbox_to_tiles.ts` does not export and which returns a string, and passes the result to `processTilesInParallel` | any `bbox` run: the call throws before any tile starts, and no metadata is written | the tiles of the box are passed as `[z, x, y]` coordinates | high, not executed | `EntryPoint.RunBboxAsWritten` | `EntryPoint.RunBbox` |
