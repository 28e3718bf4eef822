/** The driver `entry-point.ts`: encoding validation, the round-robin split of
    a coordinate list over worker chunks, the zoom sweep, the metadata record,
    and the order "every tile succeeds, then the metadata is written" of the
    three run modes (one pyramid, one zoom level, one bounding box). The
    child process that renders one tile is a parameter `spawn: Tile -> bool`
    (its success); file writes and console output are not modelled. */
module EntryPoint {
  import opened Tiles
  import opened Arith
  import opened JsText
  import BboxToTiles
  import Pyramid

  // ---------------------------------------------------------------------
  // Options and encoding
  // ---------------------------------------------------------------------

  datatype Encoding = Mapbox | Terrarium

  function EncodingName(e: Encoding): string
  {
    match e
    case Mapbox => "mapbox"
    case Terrarium => "terrarium"
  }

  datatype Validation = Valid(encoding: Encoding) | Invalid(message: string)

  /** `validateEncoding`: the two encoding names pass, every other string
      throws with a message naming it. */
  function ValidateEncoding(s: string): (r: Validation)
    ensures r.Valid? <==> s == "mapbox" || s == "terrarium"
    ensures r.Valid? ==> EncodingName(r.encoding) == s
    ensures r.Invalid? ==> r.message == "Encoding must be either \"mapbox\" or \"terrarium\", got " + s
  {
    if s == "mapbox" then Valid(Mapbox)
    else if s == "terrarium" then Valid(Terrarium)
    else Invalid("Encoding must be either \"mapbox\" or \"terrarium\", got " + s)
  }

  /** Validation gives back the encoding whose name it is given. */
  lemma {:induction false} ValidateEncodingName(e: Encoding)
    ensures ValidateEncoding(EncodingName(e)) == Valid(e)
  {
    match e
    case Mapbox =>
    case Terrarium =>
      assert "terrarium" != "mapbox" by {
        assert "terrarium"[0] != "mapbox"[0];
      }
  }

  /** The options every run mode shares; numbers the program reads as
      integers are `int`. */
  datatype BaseOptions = BaseOptions(
    demUrl: string,
    encoding: string,
    sourceMaxZoom: int,
    increment: int,
    outputMaxZoom: int,
    outputDir: string,
    processes: int,
    verbose: bool)

  // ---------------------------------------------------------------------
  // One tile
  // ---------------------------------------------------------------------

  /** The command line `processTile` starts for tile `t`: the script name,
      the tile's coordinates, then the shared options. */
  function SpawnArguments(options: BaseOptions, t: Tile): seq<string>
  {
    ["run", "generate-contour-tile-pyramid", "--",
     "--x", IntToString(t.x), "--y", IntToString(t.y), "--z", IntToString(t.z),
     "--demUrl", options.demUrl, "--encoding", options.encoding,
     "--sourceMaxZoom", IntToString(options.sourceMaxZoom),
     "--increment", IntToString(options.increment),
     "--outputMaxZoom", IntToString(options.outputMaxZoom),
     "--outputDir", options.outputDir]
  }

  /** The child is told the tile it was started for: the value after each
      coordinate flag, and after `--outputMaxZoom`, is text that `parseInt`
      reads back as that number. The child reads these values with
      `Number(...)`; on the plain integer text written here the two agree,
      so `ParseInt` stands in for `Number`. */
  lemma {:induction false} SpawnArgumentsNameTile(options: BaseOptions, t: Tile)
    ensures |SpawnArguments(options, t)| == 21
    ensures ParseInt(SpawnArguments(options, t)[4]) == Some(t.x)
    ensures ParseInt(SpawnArguments(options, t)[6]) == Some(t.y)
    ensures ParseInt(SpawnArguments(options, t)[8]) == Some(t.z)
    ensures ParseInt(SpawnArguments(options, t)[18]) == Some(options.outputMaxZoom)
  {
    var args := SpawnArguments(options, t);
    var xs, ys, zs := IntToString(t.x), IntToString(t.y), IntToString(t.z);
    var ms := IntToString(options.outputMaxZoom);
    assert args[4] == xs && args[6] == ys && args[8] == zs && args[18] == ms;
    ParseIntRoundTrip(t.x);
    ParseIntRoundTrip(t.y);
    ParseIntRoundTrip(t.z);
    ParseIntRoundTrip(options.outputMaxZoom);
  }

  /** `processTile`: it resolves exactly when the encoding is
      valid (otherwise it throws before anything is started) and the child
      started for the tile exits with code 0. */
  function ProcessTile(options: BaseOptions, spawn: Tile -> bool, t: Tile): (ok: bool)
    ensures ok ==> options.encoding == "mapbox" || options.encoding == "terrarium"
    ensures ok <==> ValidateEncoding(options.encoding).Valid? && spawn(t)
  {
    match ValidateEncoding(options.encoding)
    case Invalid(_) => false
    case Valid(_) => spawn(t)
  }

  // ---------------------------------------------------------------------
  // Round-robin partition
  // ---------------------------------------------------------------------

  /** The elements of `s` whose index is `k` modulo `p`, in their order in `s`. */
  function Pick(s: seq<Tile>, p: int, k: int): seq<Tile>
    requires p >= 1
  {
    if s == [] then []
    else Pick(s[..|s| - 1], p, k) + (if (|s| - 1) % p == k then [s[|s| - 1]] else [])
  }

  /** The chunks `processTilesInParallel` builds: the coordinate at index `i`
      goes to chunk `i % processes`, which is created on first use. A
      negative count behaves like its absolute value (`%` keeps the sign of
      the dividend); a zero count gives the key `NaN`, which is not an array
      index, so the chunk array stays empty. */
  function Chunks(coords: seq<Tile>, processes: int): seq<seq<Tile>>
  {
    if processes == 0 then []
    else seq(Min(|coords|, Abs(processes)), k requires 0 <= k => Pick(coords, Abs(processes), k))
  }

  /** One more coordinate: it goes at the end of chunk `|s| % p`, which is a
      new chunk exactly while fewer than `p` coordinates have been seen. */
  lemma {:induction false} ChunksStep(s: seq<Tile>, t: Tile, processes: int)
    requires processes != 0
    ensures var p, cs := Abs(processes), Chunks(s, processes);
      var c := |s| % p;
      (|s| < p ==> c == |cs| && Chunks(s + [t], processes) == cs + [[t]]) &&
      (|s| >= p ==> c < |cs| && Chunks(s + [t], processes) == cs[c := cs[c] + [t]])
  {
    var p, cs := Abs(processes), Chunks(s, processes);
    var s' := s + [t];
    assert s'[..|s'| - 1] == s;
    var ns := Chunks(s', processes);
    forall k | 0 <= k < |ns|
      ensures ns[k] == Pick(s, p, k) + (if |s| % p == k then [t] else [])
    {
    }
    if |s| < p {
      ModSmall(|s|, p);
      PickBeyond(s, p, |s|);
      assert |ns| == |cs| + 1;
      forall k | 0 <= k < |cs| ensures ns[k] == cs[k] {
        assert ns[k] == Pick(s, p, k) + [];
      }
      assert ns[|cs|] == [t];
      assert ns == cs + [[t]];
    } else {
      var c := |s| % p;
      assert |ns| == |cs| == p;
      forall k | 0 <= k < |cs| ensures ns[k] == cs[c := cs[c] + [t]][k] {
        if k != c {
          assert ns[k] == Pick(s, p, k) + [];
        }
      }
      assert ns == cs[c := cs[c] + [t]];
    }
  }

  lemma {:induction false} ModSmall(i: int, p: int)
    requires 0 <= i < p
    ensures i % p == i
  {
    DivUnique(i, p, 0);
  }

  /** No index below `k < p` is `k` modulo `p`. */
  lemma {:induction false} PickBeyond(s: seq<Tile>, p: int, k: int)
    requires |s| <= k < p
    ensures Pick(s, p, k) == []
  {
    if s != [] {
      PickBeyond(s[..|s| - 1], p, k);
      ModSmall(|s| - 1, p);
    }
  }

  /** The `reduce` of `processTilesInParallel`, one coordinate at a time. */
  method Partition(coords: seq<Tile>, processes: int) returns (chunks: seq<seq<Tile>>)
    ensures chunks == Chunks(coords, processes)
  {
    chunks := [];
    for i := 0 to |coords|
      invariant chunks == Chunks(coords[..i], processes)
    {
      assert coords[..i + 1] == coords[..i] + [coords[i]];
      if processes != 0 {
        var chunkIndex := i % Abs(processes);
        ChunksStep(coords[..i], coords[i], processes);
        if chunkIndex < |chunks| {
          chunks := chunks[chunkIndex := chunks[chunkIndex] + [coords[i]]];
        } else {
          chunks := chunks + [[coords[i]]];
        }
      }
    }
    assert coords[..|coords|] == coords;
  }

  /** Chunk `k` holds `ceil((N - k) / p)` coordinates. */
  lemma {:induction false} PickSize(s: seq<Tile>, p: int, k: int)
    requires 0 <= k < p
    ensures |Pick(s, p, k)| == (|s| + p - 1 - k) / p
  {
    if s != [] {
      PickSize(s[..|s| - 1], p, k);
      CountStep(|s| - 1, p, k);
    } else {
      DivUnique(p - 1 - k, p, 0);
    }
  }

  /** Counting `n` in when it is `k` modulo `p`. */
  lemma {:induction false} CountStep(n: int, p: int, k: int)
    requires n >= 0 && 0 <= k < p
    ensures (n + p - k) / p == (n + p - 1 - k) / p + (if n % p == k then 1 else 0)
  {
    CountStepOf(n, p, k, n / p, n % p);
  }

  lemma {:induction false} CountStepOf(n: int, p: int, k: int, q: int, r: int)
    requires n == q * p + r && 0 <= r < p && 0 <= k < p
    ensures (n + p - k) / p == (n + p - 1 - k) / p + (if r == k then 1 else 0)
  {
    assert q * p + p == (q + 1) * p;
    if r == k {
      DivUnique(n + p - 1 - k, p, q);
      DivUnique(n + p - k, p, q + 1);
    } else if r > k {
      DivUnique(n + p - 1 - k, p, q + 1);
      DivUnique(n + p - k, p, q + 1);
    } else {
      DivUnique(n + p - 1 - k, p, q);
      DivUnique(n + p - k, p, q);
    }
  }

  /** Element `j` of chunk `k` is the coordinate at index `k + j * p`: each
      chunk keeps the input order. */
  lemma {:induction false} PickIndex(s: seq<Tile>, p: int, k: int, j: int)
    requires 0 <= k < p && 0 <= j < |Pick(s, p, k)|
    ensures k + j * p < |s| && Pick(s, p, k)[j] == s[k + j * p]
  {
    var s' := s[..|s| - 1];
    if j < |Pick(s', p, k)| {
      PickIndex(s', p, k, j);
    } else {
      var n := |s| - 1;
      assert n % p == k;
      PickSize(s', p, k);
      LastSlot(n, p, k);
    }
  }

  /** The last index counted into chunk `k` is `k + (count - 1) * p`. */
  lemma {:induction false} LastSlot(n: int, p: int, k: int)
    requires n >= 0 && 0 <= k < p && n % p == k
    ensures k + ((n + p - 1 - k) / p) * p == n
  {
    LastSlotOf(n, p, k, n / p);
  }

  lemma {:induction false} LastSlotOf(n: int, p: int, k: int, q: int)
    requires n == q * p + k && 0 <= k < p
    ensures (n + p - 1 - k) / p == q
  {
    DivUnique(n + p - 1 - k, p, q);
  }

  /** With `N` coordinates and `P != 0` processes there are `min(N, |P|)`
      chunks, none empty, each of `floor(N/|P|)` or `ceil(N/|P|)`
      coordinates. */
  lemma {:induction false} ChunkSizes(coords: seq<Tile>, processes: int)
    requires processes != 0
    ensures |Chunks(coords, processes)| == Min(|coords|, Abs(processes))
    ensures forall k :: 0 <= k < |Chunks(coords, processes)| ==>
      1 <= |Chunks(coords, processes)[k]| &&
      |coords| / Abs(processes) <= |Chunks(coords, processes)[k]| <= (|coords| + Abs(processes) - 1) / Abs(processes)
  {
    var p, cs, n := Abs(processes), Chunks(coords, processes), |coords|;
    forall k | 0 <= k < |cs|
      ensures 1 <= |cs[k]| && n / p <= |cs[k]| <= (n + p - 1) / p
    {
      PickSize(coords, p, k);
      DivMono(n, n + p - 1 - k, p);
      DivMono(n + p - 1 - k, n + p - 1, p);
      DivMono(p, n + p - 1 - k, p);
      DivUnique(p, p, 1);
    }
  }

  /** The coordinate at index `i` is element `i / |P|` of chunk `i % |P|`. */
  lemma {:induction false} ChunkOfIndex(coords: seq<Tile>, processes: int, i: int)
    requires processes != 0 && 0 <= i < |coords|
    ensures i % Abs(processes) < |Chunks(coords, processes)|
    ensures i / Abs(processes) < |Chunks(coords, processes)[i % Abs(processes)]|
    ensures Chunks(coords, processes)[i % Abs(processes)][i / Abs(processes)] == coords[i]
  {
    var p := Abs(processes);
    if |coords| < p {
      ModSmall(i, p);
    }
    PickOfIndex(coords, p, i);
  }

  lemma {:induction false} PickOfIndex(s: seq<Tile>, p: int, i: int)
    requires p >= 1 && 0 <= i < |s|
    ensures i / p < |Pick(s, p, i % p)| && Pick(s, p, i % p)[i / p] == s[i]
  {
    PickOfSlot(s, p, i, i / p, i % p);
  }

  lemma {:induction false} PickOfSlot(s: seq<Tile>, p: int, i: int, j: int, k: int)
    requires i == j * p + k && 0 <= k < p && 0 <= j && i < |s|
    ensures j < |Pick(s, p, k)| && Pick(s, p, k)[j] == s[i]
  {
    PickSize(s, p, k);
    SlotInChunk(i, |s|, p, j, k);
    PickIndex(s, p, k, j);
  }

  /** Index `i = j * p + k` below `n` is within the `ceil((n - k) / p)`
      elements of chunk `k`. */
  lemma {:induction false} SlotInChunk(i: int, n: int, p: int, j: int, k: int)
    requires i == j * p + k && 0 <= k < p && 0 <= j && i < n
    ensures j < (n + p - 1 - k) / p
  {
    assert (j + 1) * p == j * p + p;
    DivMono((j + 1) * p, n + p - 1 - k, p);
    DivUnique((j + 1) * p, p, j + 1);
  }

  /** For `P != 0` the chunks together hold exactly the coordinates: none is
      dropped and none is repeated. */
  lemma {:induction false} ChunksPermutation(coords: seq<Tile>, processes: int)
    requires processes != 0
    ensures multiset(Pyramid.Flatten(Chunks(coords, processes))) == multiset(coords)
    decreases |coords|
  {
    if coords != [] {
      var s, t := coords[..|coords| - 1], coords[|coords| - 1];
      assert coords == s + [t];
      ChunksPermutation(s, processes);
      ChunksStep(s, t, processes);
      var cs := Chunks(s, processes);
      if |s| < Abs(processes) {
        Pyramid.FlattenSnoc(cs, [t]);
      } else {
        FlattenUpdate(cs, |s| % Abs(processes), t);
      }
    }
  }

  /** Appending to one chunk adds that element to the whole. */
  lemma {:induction false} FlattenUpdate(cs: seq<seq<Tile>>, c: int, t: Tile)
    requires 0 <= c < |cs|
    ensures multiset(Pyramid.Flatten(cs[c := cs[c] + [t]])) == multiset(Pyramid.Flatten(cs)) + multiset{t}
  {
    var ns := cs[c := cs[c] + [t]];
    assert Pyramid.Flatten(ns) == ns[0] + Pyramid.Flatten(ns[1..]);
    assert Pyramid.Flatten(cs) == cs[0] + Pyramid.Flatten(cs[1..]);
    if c > 0 {
      assert ns[1..] == cs[1..][c - 1 := cs[c] + [t]];
      FlattenUpdate(cs[1..], c - 1, t);
    } else {
      assert ns[1..] == cs[1..];
    }
  }

  /** The zero-process listing: no chunk at all, so not one coordinate is
      handed to a worker. */
  lemma {:induction false} ZeroProcessesDropAll(coords: seq<Tile>)
    requires coords != []
    ensures Chunks(coords, 0) == []
    ensures multiset(Pyramid.Flatten(Chunks(coords, 0))) != multiset(coords)
  {
    assert coords[0] in multiset(coords);
  }

  /** Two lists with the same elements succeed together. */
  lemma {:induction false} AllSucceedPermutation(a: seq<Tile>, b: seq<Tile>, process: Tile -> bool)
    requires multiset(a) == multiset(b)
    ensures Pyramid.AllSucceed(a, process) <==> Pyramid.AllSucceed(b, process)
  {
    if Pyramid.AllSucceed(a, process) {
      forall j | 0 <= j < |b| ensures process(b[j]) {
        assert b[j] in multiset(a);
        var i :| 0 <= i < |a| && a[i] == b[j];
      }
    }
    if Pyramid.AllSucceed(b, process) {
      forall j | 0 <= j < |a| ensures process(a[j]) {
        assert a[j] in multiset(b);
        var i :| 0 <= i < |b| && b[i] == a[j];
      }
    }
  }

  // ---------------------------------------------------------------------
  // Parallel processing
  // ---------------------------------------------------------------------

  /** The two nested `Promise.all` of `processTilesInParallel`: every tile
      of every chunk is started, chunk by chunk, and `dispatched` records
      each as it is started. The result is whether all of them succeeded. */
  method StartChunks(chunks: seq<seq<Tile>>, process: Tile -> bool)
    returns (ok: bool, ghost dispatched: seq<Tile>)
    ensures dispatched == Pyramid.Flatten(chunks)
    ensures ok <==> forall c :: 0 <= c < |chunks| ==> Pyramid.AllSucceed(chunks[c], process)
  {
    ok := true;
    dispatched := [];
    for k := 0 to |chunks|
      invariant ok <==> forall c :: 0 <= c < k ==> Pyramid.AllSucceed(chunks[c], process)
      invariant dispatched == Pyramid.Flatten(chunks[..k])
    {
      var chunk := chunks[k];
      var chunkOk := true;
      for j := 0 to |chunk|
        invariant chunkOk <==> Pyramid.AllSucceed(chunk[..j], process)
        invariant dispatched == Pyramid.Flatten(chunks[..k]) + chunk[..j]
      {
        dispatched := dispatched + [chunk[j]];
        assert chunk[..j + 1] == chunk[..j] + [chunk[j]];
        chunkOk := process(chunk[j]) && chunkOk;
      }
      assert chunk[..|chunk|] == chunk;
      assert chunks[..k + 1] == chunks[..k] + [chunk];
      Pyramid.FlattenSnoc(chunks[..k], chunk);
      ok := ok && chunkOk;
    }
    assert chunks[..|chunks|] == chunks;
  }

  /** `processTilesInParallel`: the coordinates are split into chunks, every
      tile of every chunk is started at once (`Promise.all` of
      `Promise.all`), and the call resolves only if all of them do.
      `dispatched` lists the tiles started. With `processes == 0` nothing is
      started and the call resolves at once. */
  method ProcessTilesInParallel(coords: seq<Tile>, processes: int, process: Tile -> bool)
    returns (ok: bool, ghost dispatched: seq<Tile>)
    ensures dispatched == Pyramid.Flatten(Chunks(coords, processes))
    ensures processes != 0 ==> multiset(dispatched) == multiset(coords)
    ensures processes != 0 ==> (ok <==> Pyramid.AllSucceed(coords, process))
    ensures processes == 0 ==> ok && dispatched == []
  {
    var chunks := Partition(coords, processes);
    ok, dispatched := StartChunks(chunks, process);
    Pyramid.AllSucceedFlatten(chunks, process);
    if processes != 0 {
      ChunksPermutation(coords, processes);
      AllSucceedPermutation(dispatched, coords, process);
    }
  }

  /** `processTilesInParallel` with a zero process count refused: the call
      resolves exactly when the count is non-zero and every coordinate
      succeeds, and then every coordinate was started once. */
  method ProcessAllTiles(coords: seq<Tile>, processes: int, process: Tile -> bool)
    returns (ok: bool, ghost dispatched: seq<Tile>)
    ensures ok <==> processes != 0 && Pyramid.AllSucceed(coords, process)
    ensures ok ==> multiset(dispatched) == multiset(coords)
  {
    if processes == 0 {
      ok, dispatched := false, [];
    } else {
      ok, dispatched := ProcessTilesInParallel(coords, processes, process);
    }
  }

  // ---------------------------------------------------------------------
  // Zoom sweep
  // ---------------------------------------------------------------------

  /** `Math.pow(2, z)` as a loop bound: for a negative `z` it lies in
      `(0, 1)`, so only index 0 is below it. */
  function TilesInDimension(z: int): (d: nat)
  {
    if z >= 0 then Pow2(z) else 1
  }

  /** Nested loops collecting the tiles of a rectangle, `y` outer and `x`
      inner. */
  method CollectRect(z: int, x0: int, x1: int, y0: int, y1: int) returns (coords: seq<Tile>)
    ensures coords == Rect(z, x0, x1, y0, y1)
  {
    coords := [];
    var y := y0;
    while y <= y1
      invariant y0 <= y && (y <= y1 + 1 || y == y0)
      invariant coords == Rect(z, x0, x1, y0, y - 1)
      decreases y1 - y
    {
      ghost var above := coords;
      var x := x0;
      while x <= x1
        invariant x0 <= x && (x <= x1 + 1 || x == x0)
        invariant coords == above + Row(z, x0, x - 1, y)
        decreases x1 - x
      {
        coords := coords + [Tile(x, y, z)];
        x := x + 1;
      }
      if x1 < x0 {
        assert Row(z, x0, x - 1, y) == Row(z, x0, x1, y);
      }
      y := y + 1;
    }
  }

  /** Every tile of zoom `z`, row by row. */
  function Sweep(z: int): seq<Tile>
  {
    Rect(z, 0, TilesInDimension(z) - 1, 0, TilesInDimension(z) - 1)
  }

  /** The coordinate list of `runZoom`: every tile of zoom `z`, row by row. */
  method ZoomCoordinates(z: int) returns (coords: seq<Tile>)
    ensures coords == Sweep(z)
  {
    var d := TilesInDimension(z);
    coords := CollectRect(z, 0, d - 1, 0, d - 1);
  }

  /** The sweep of zoom `z >= 0` has `2^z * 2^z` tiles: exactly those of zoom
      `z` with `0 <= x, y < 2^z`, in strictly row-major order. */
  lemma {:induction false} ZoomSweep(z: nat)
    ensures |Sweep(z)| == Pow2(z) * Pow2(z)
    ensures forall t :: t in Sweep(z) <==> t.z == z && 0 <= t.x < Pow2(z) && 0 <= t.y < Pow2(z)
    ensures StrictlyRowMajor(Sweep(z))
  {
    var d := Pow2(z);
    assert Sweep(z) == Rect(z, 0, d - 1, 0, d - 1);
    RectSize(z, 0, d - 1, 0, d - 1);
    assert (d - 1 - 0 + 1) * (d - 1 - 0 + 1) == d * d;
    RectMembers(z, 0, d - 1, 0, d - 1);
    RectOrder(z, 0, d - 1, 0, d - 1);
  }

  // ---------------------------------------------------------------------
  // Metadata
  // ---------------------------------------------------------------------

  datatype VectorLayer = VectorLayer(id: string, fields: seq<(string, string)>, minzoom: int, maxzoom: int)

  /** The `metadata.json` record, without its timestamp `description`. */
  datatype Metadata = Metadata(
    name: string,
    kind: string,
    version: string,
    format: string,
    minzoom: string,
    maxzoom: string,
    vectorLayers: seq<VectorLayer>,
    bounds: string)

  const WorldBounds: string := "-180.000000,-85.051129,180.000000,85.051129"

  const NamePrefix: string := "Contour_z"

  /** The metadata record of a run over `[outputMinZoom, outputMaxZoom]`: its
      zoom strings read back as the zooms, and its one `contours` layer
      carries the same zooms. */
  function CreateMetadata(outputMinZoom: int, outputMaxZoom: int): (m: Metadata)
    ensures m.minzoom == IntToString(outputMinZoom) && m.maxzoom == IntToString(outputMaxZoom)
    ensures m.name == NamePrefix + m.minzoom + "_Z" + m.maxzoom
    ensures ParseInt(m.minzoom) == Some(outputMinZoom)
    ensures ParseInt(m.maxzoom) == Some(outputMaxZoom)
    ensures |m.vectorLayers| == 1 && m.vectorLayers[0].id == "contours"
    ensures m.vectorLayers[0].minzoom == outputMinZoom && m.vectorLayers[0].maxzoom == outputMaxZoom
    ensures m.vectorLayers[0].fields == [("ele", "Number"), ("level", "Number")]
    ensures m.kind == "baselayer" && m.version == "1" && m.format == "pbf"
    ensures m.bounds == WorldBounds
  {
    ParseIntRoundTrip(outputMinZoom);
    ParseIntRoundTrip(outputMaxZoom);
    Metadata(
      NamePrefix + IntToString(outputMinZoom) + "_Z" + IntToString(outputMaxZoom),
      "baselayer", "1", "pbf",
      IntToString(outputMinZoom), IntToString(outputMaxZoom),
      [VectorLayer("contours", [("ele", "Number"), ("level", "Number")], outputMinZoom, outputMaxZoom)],
      WorldBounds)
  }

  /** The name is `Contour_z`, the minimum zoom, `_Z` and the maximum zoom,
      and reads back as both zooms. */
  lemma {:induction false} MetadataName(minZoom: int, maxZoom: int)
    ensures CreateMetadata(minZoom, maxZoom).name == NamePrefix + IntToString(minZoom) + "_Z" + IntToString(maxZoom)
    ensures var name, b := CreateMetadata(minZoom, maxZoom).name, IntToString(maxZoom);
      |name| >= 9 + |b| && name[..9] == NamePrefix &&
      ParseInt(name[9..]) == Some(minZoom) &&
      name[|name| - |b|..] == b && ParseInt(name[|name| - |b|..]) == Some(maxZoom)
  {
    var name := CreateMetadata(minZoom, maxZoom).name;
    var a, b := IntToString(minZoom), IntToString(maxZoom);
    var tail := a + ("_Z" + b);
    assert name == NamePrefix + tail by {
      AppendAssoc(NamePrefix, a, "_Z");
      AppendAssoc(NamePrefix + a, "_Z", b);
      AppendAssoc(NamePrefix, a + "_Z", b);
      AppendAssoc(a, "_Z", b);
    }
    assert name[9..] == tail;
    ParseIntToString(minZoom, "_Z" + b);
    assert name[|name| - |b|..] == b;
    ParseIntRoundTrip(maxZoom);
  }

  /** Different zoom pairs give different names. */
  lemma {:induction false} MetadataNameInjective(a: int, b: int, c: int, d: int)
    requires CreateMetadata(a, b).name == CreateMetadata(c, d).name
    ensures a == c && b == d
  {
    MetadataName(a, b);
    MetadataName(c, d);
    var n := CreateMetadata(a, b).name;
    var sb, sd := IntToString(b), IntToString(d);
    assert Some(a) == Some(c);
    var sa := IntToString(a);
    assert n == NamePrefix + sa + "_Z" + sb;
    assert n == NamePrefix + sa + "_Z" + sd;
    assert |sb| == |sd|;
    assert sb == sd;
    assert Some(b) == Some(d);
  }

  // ---------------------------------------------------------------------
  // Run modes
  // ---------------------------------------------------------------------

  /** `runPyramid`: one tile, then the metadata of `[z, outputMaxZoom]`; a
      rejected tile means no metadata. */
  function RunPyramid(options: BaseOptions, t: Tile, spawn: Tile -> bool): (meta: Option<Metadata>)
    ensures meta.Some? <==> ProcessTile(options, spawn, t)
    ensures meta.Some? ==> meta.value == CreateMetadata(t.z, options.outputMaxZoom)
  {
    if ProcessTile(options, spawn, t) then Some(CreateMetadata(t.z, options.outputMaxZoom)) else None
  }

  /** `runZoom` as the program has it: every tile of zoom `outputMinZoom`
      goes to `processTilesInParallel`, and the metadata is written when that
      resolves. With a zero process count nothing is started, the call
      resolves at once, and the metadata is written all the same. */
  method RunZoomAsWritten(options: BaseOptions, outputMinZoom: int, spawn: Tile -> bool)
    returns (meta: Option<Metadata>, ghost dispatched: seq<Tile>)
    ensures meta.Some? <==> (options.processes == 0 ||
      forall i :: 0 <= i < |Sweep(outputMinZoom)| ==> ProcessTile(options, spawn, Sweep(outputMinZoom)[i]))
    ensures options.processes == 0 ==> dispatched == [] && meta.Some?
    ensures options.processes != 0 ==> multiset(dispatched) == multiset(Sweep(outputMinZoom))
    ensures meta.Some? ==> meta.value == CreateMetadata(outputMinZoom, options.outputMaxZoom)
  {
    var coords := ZoomCoordinates(outputMinZoom);
    var ok;
    ok, dispatched := ProcessTilesInParallel(coords, options.processes, t => ProcessTile(options, spawn, t));
    if ok {
      meta := Some(CreateMetadata(outputMinZoom, options.outputMaxZoom));
    } else {
      meta := None;
    }
  }

  /** `runZoom` corrected, with a zero process count refused: every tile of zoom
      `outputMinZoom` is processed, and the metadata is written only when all
      of them succeeded. */
  method RunZoom(options: BaseOptions, outputMinZoom: int, spawn: Tile -> bool)
    returns (meta: Option<Metadata>, ghost dispatched: seq<Tile>)
    ensures meta.Some? <==> (options.processes != 0 &&
      forall i :: 0 <= i < |Sweep(outputMinZoom)| ==> ProcessTile(options, spawn, Sweep(outputMinZoom)[i]))
    ensures meta.Some? ==> multiset(dispatched) == multiset(Sweep(outputMinZoom))
    ensures meta.Some? ==> meta.value == CreateMetadata(outputMinZoom, options.outputMaxZoom)
  {
    var coords := ZoomCoordinates(outputMinZoom);
    var ok;
    ok, dispatched := ProcessAllTiles(coords, options.processes, t => ProcessTile(options, spawn, t));
    if ok {
      meta := Some(CreateMetadata(outputMinZoom, options.outputMaxZoom));
    } else {
      meta := None;
    }
  }

  /** The bounding-box options. */
  datatype BboxOptions = BboxOptions(base: BaseOptions, bounds: BboxToTiles.Bounds, outputMinZoom: nat)

  /** `runBbox` as the program has it. It calls `bboxToTiles`, which its
      module does not export, so the imported name is undefined and the call
      throws. Were it exported, it would return `listing`, the
      space-separated text rather than an array of coordinates, and
      `processTilesInParallel` would throw on it, as a string has no
      `reduce`. Either way no tile is started and the metadata is never
      written. */
  method RunBboxAsWritten(options: BboxOptions, tileY: (real, nat) -> int, spawn: Tile -> bool)
    returns (meta: Option<Metadata>, listing: string)
    ensures var r := BboxToTiles.CalculateTileRangeForBounds(options.bounds, options.outputMinZoom, tileY);
      listing == BboxToTiles.Render(Rect(options.outputMinZoom, r.minX, r.maxX, r.minY, r.maxY))
    ensures meta == None
  {
    listing := BboxToTiles.BboxToTiles(options.bounds, options.outputMinZoom, tileY);
    meta := None;
  }

  /** The tiles of the box, columns clamped to the world, row by row. */
  function BoxTiles(options: BboxOptions, tileY: (real, nat) -> int): seq<Tile>
  {
    var r := BboxToTiles.ClampedTileRangeForBounds(options.bounds, options.outputMinZoom, tileY);
    Rect(options.outputMinZoom, r.minX, r.maxX, r.minY, r.maxY)
  }

  /** `runBbox` with the tiles of the box as coordinates (columns clamped to
      the world) and a zero process count refused: every tile of the box is
      processed, and the metadata is written only when all succeeded. */
  method RunBbox(options: BboxOptions, tileY: (real, nat) -> int, spawn: Tile -> bool)
    returns (meta: Option<Metadata>, ghost dispatched: seq<Tile>)
    ensures meta.Some? <==> (options.base.processes != 0 &&
      forall i :: 0 <= i < |BoxTiles(options, tileY)| ==> ProcessTile(options.base, spawn, BoxTiles(options, tileY)[i]))
    ensures meta.Some? ==> multiset(dispatched) == multiset(BoxTiles(options, tileY))
    ensures meta.Some? ==> meta.value == CreateMetadata(options.outputMinZoom, options.base.outputMaxZoom)
  {
    var r := BboxToTiles.ClampedTileRangeForBounds(options.bounds, options.outputMinZoom, tileY);
    var coords := CollectRect(options.outputMinZoom, r.minX, r.maxX, r.minY, r.maxY);
    assert coords == BoxTiles(options, tileY);
    var ok;
    ok, dispatched := ProcessAllTiles(coords, options.base.processes, t => ProcessTile(options.base, spawn, t));
    if ok {
      meta := Some(CreateMetadata(options.outputMinZoom, options.base.outputMaxZoom));
    } else {
      meta := None;
    }
  }
}
