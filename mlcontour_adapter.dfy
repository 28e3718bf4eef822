/** The two self-contained helpers of the maplibre-contour adapter: reading
    `z/x/y` back out of a tile URL, and resolving a per-zoom threshold table
    to the contour levels of one zoom. */
module MlcontourAdapter {
  import opened JsText
  import Tiles

  datatype ZXY = ZXY(z: int, x: int, y: int)

  /** The last three `/`-separated segments of a URL, parsed with `parseInt`;
      the `y` segment loses everything from its last `.` on. `None` stands
      for the function's `null`. */
  function ExtractZXYFromUrlTrim(url: string): (r: Option<ZXY>)
    ensures r.Some? <==> '/' in url && ParsableSegments(Split(url, '/'))
    ensures r.Some? ==> SegmentsRead(Split(url, '/'), r.value)
  {
    if LastIndexOf(url, '/') == -1 then None else ZXYOfSegments(Split(url, '/'))
  }

  /** Coordinates from the last three segments, when those parse. */
  function ZXYOfSegments(segments: seq<string>): (r: Option<ZXY>)
    ensures r.Some? <==> ParsableSegments(segments)
    ensures r.Some? ==> SegmentsRead(segments, r.value)
  {
    if |segments| <= 3 then None
    else
      var ySegment := segments[|segments| - 1];
      var xSegment := segments[|segments| - 2];
      var zSegment := segments[|segments| - 3];
      match (ParseInt(zSegment), ParseInt(xSegment), ParseInt(TrimExtension(ySegment)))
      case (Some(z), Some(x), Some(y)) => Some(ZXY(z, x, y))
      case _ => None
  }

  /** There are at least four segments, and the `z` and `x` segments and the
      trimmed `y` segment all parse. */
  predicate ParsableSegments(segments: seq<string>)
  {
    |segments| >= 4 &&
    ParseInt(segments[|segments| - 3]).Some? &&
    ParseInt(segments[|segments| - 2]).Some? &&
    ParseInt(TrimExtension(segments[|segments| - 1])).Some?
  }

  /** The last three segments (the last one trimmed) read as `v`. */
  predicate SegmentsRead(segments: seq<string>, v: ZXY)
  {
    |segments| >= 3 &&
    ParseInt(segments[|segments| - 3]) == Some(v.z) &&
    ParseInt(segments[|segments| - 2]) == Some(v.x) &&
    ParseInt(TrimExtension(segments[|segments| - 1])) == Some(v.y)
  }

  /** The segment up to (not including) its last `.`, or all of it when it has none. */
  function TrimExtension(segment: string): (r: string)
    ensures r <= segment
    ensures '.' !in segment ==> r == segment
    ensures '.' in segment ==> |r| < |segment| && segment[|r|] == '.' && '.' !in segment[|r| + 1..]
  {
    var lastDot := LastIndexOf(segment, '.');
    if lastDot == -1 then segment else segment[..lastDot]
  }

  /** A URL without any `/` yields no coordinates. */
  lemma {:induction false} ExtractNeedsSlash(url: string)
    requires '/' !in url
    ensures ExtractZXYFromUrlTrim(url) == None
  {
  }

  /** Three segments or fewer (at most two `/`) yield no coordinates. */
  lemma {:induction false} ExtractNeedsFourSegments(url: string)
    requires |Split(url, '/')| <= 3
    ensures ExtractZXYFromUrlTrim(url) == None
  {
  }

  /** A `z` or `x` segment, or a trimmed `y` segment, that `parseInt` reads as
      `NaN` yields no coordinates. */
  lemma {:induction false} ExtractNeedsNumbers(url: string)
    requires var segments := Split(url, '/');
      |segments| > 3 &&
      (ParseInt(segments[|segments| - 3]).None? || ParseInt(segments[|segments| - 2]).None?
       || ParseInt(TrimExtension(segments[|segments| - 1])).None?)
    ensures ExtractZXYFromUrlTrim(url) == None
  {
  }

  /** Splitting a URL that ends in three slash-free segments. */
  lemma {:induction false} SplitLastThree(prefix: string, a: string, b: string, c: string)
    requires '/' !in a && '/' !in b && '/' !in c
    ensures Split(prefix + "/" + a + "/" + b + "/" + c, '/') == Split(prefix, '/') + [a, b, c]
  {
    var bc := b + ['/'] + c;
    var abc := a + ['/'] + bc;
    assert prefix + "/" + a + "/" + b + "/" + c == prefix + ['/'] + abc;
    assert Split(bc, '/') == [b, c] by {
      SplitAround(b, '/', c);
      SplitNoSeparator(b, '/');
      SplitNoSeparator(c, '/');
    }
    assert Split(abc, '/') == [a, b, c] by {
      SplitAround(a, '/', bc);
      SplitNoSeparator(a, '/');
    }
    SplitAround(prefix, '/', abc);
  }

  /** Trimming the extension off a written number gives back the number. */
  lemma {:induction false} TrimmedNumberParses(n: int, ext: string)
    requires ext == "" || ext[0] == '.'
    ensures ParseInt(TrimExtension(IntToString(n) + ext)) == Some(n)
  {
    var s := IntToString(n);
    var t := s + ext;
    NoDotInNumber(n);
    var lastDot := LastIndexOf(t, '.');
    if ext == "" {
      assert t == s && s + "" == s;
      ParseIntToString(n, "");
    } else {
      assert t[|s|] == '.';
      assert lastDot >= |s|;
      assert TrimExtension(t) == s + ext[..lastDot - |s|];
      ParseIntToString(n, ext[..lastDot - |s|]);
    }
  }

  /** Round trip: the coordinates written as the last three path segments of
      any URL, optionally followed by an extension, are read back exactly. */
  lemma {:induction false} ExtractRoundTrip(prefix: string, z: int, x: int, y: int, ext: string)
    requires ext == "" || (ext[0] == '.' && '/' !in ext)
    ensures ExtractZXYFromUrlTrim(prefix + "/" + IntToString(z) + "/" + IntToString(x) + "/"
      + IntToString(y) + ext) == Some(ZXY(z, x, y))
  {
    UrlSegments(prefix, z, x, y, ext);
    SegmentsRoundTrip(Split(prefix, '/'), z, x, y, ext);
  }

  /** The URL has a `/`, and its segments end in the three written numbers,
      the last one with its extension. */
  lemma {:induction false} UrlSegments(prefix: string, z: int, x: int, y: int, ext: string)
    requires ext == "" || '/' !in ext
    ensures var url := prefix + "/" + IntToString(z) + "/" + IntToString(x) + "/" + IntToString(y) + ext;
      LastIndexOf(url, '/') != -1 &&
      Split(url, '/') == Split(prefix, '/') + [IntToString(z), IntToString(x), IntToString(y) + ext]
  {
    var zs, xs, ys := IntToString(z), IntToString(x), IntToString(y);
    var last := ys + ext;
    assert prefix + "/" + zs + "/" + xs + "/" + ys + ext == prefix + "/" + zs + "/" + xs + "/" + last by {
      AppendAssoc(prefix + "/" + zs + "/" + xs + "/", ys, ext);
    }
    assert '/' !in last by {
      NoSlashInNumber(y);
      assert forall i :: 0 <= i < |last| ==> last[i] == if i < |ys| then ys[i] else ext[i - |ys|];
    }
    NoSlashInNumber(z);
    NoSlashInNumber(x);
    UrlOfSegments(prefix, zs, xs, last);
  }

  /** Segments ending in the three written numbers read back as them. */
  lemma {:induction false} SegmentsRoundTrip(front: seq<string>, z: int, x: int, y: int, ext: string)
    requires front != [] && (ext == "" || ext[0] == '.')
    ensures ZXYOfSegments(front + [IntToString(z), IntToString(x), IntToString(y) + ext]) == Some(ZXY(z, x, y))
  {
    var segments := front + [IntToString(z), IntToString(x), IntToString(y) + ext];
    assert segments[|segments| - 3] == IntToString(z);
    assert segments[|segments| - 2] == IntToString(x);
    assert segments[|segments| - 1] == IntToString(y) + ext;
    ParseIntRoundTrip(z);
    ParseIntRoundTrip(x);
    TrimmedNumberParses(y, ext);
    SegmentsParse(segments, z, x, y);
  }

  /** The last three segments read as numbers give those numbers. */
  lemma {:induction false} SegmentsParse(segments: seq<string>, z: int, x: int, y: int)
    requires |segments| > 3
    requires ParseInt(segments[|segments| - 3]) == Some(z)
    requires ParseInt(segments[|segments| - 2]) == Some(x)
    requires ParseInt(TrimExtension(segments[|segments| - 1])) == Some(y)
    ensures ZXYOfSegments(segments) == Some(ZXY(z, x, y))
  {
  }

  /** A URL ending in three slash-free segments has a `/` and splits into its
      prefix's pieces then those three. */
  lemma {:induction false} UrlOfSegments(prefix: string, a: string, b: string, c: string)
    requires '/' !in a && '/' !in b && '/' !in c
    ensures LastIndexOf(prefix + "/" + a + "/" + b + "/" + c, '/') != -1
    ensures Split(prefix + "/" + a + "/" + b + "/" + c, '/') == Split(prefix, '/') + [a, b, c]
  {
    var url := prefix + "/" + a + "/" + b + "/" + c;
    assert url[|prefix|] == '/';
    SplitLastThree(prefix, a, b, c);
  }

  lemma {:induction false} NoSlashInNumber(n: int)
    ensures '/' !in IntToString(n)
  {
  }

  lemma {:induction false} NoDotInNumber(n: int)
    ensures '.' !in IntToString(n)
  {
  }

  /** A threshold table entry: one level or a list of levels. */
  datatype ThresholdValue = Single(level: real) | Many(levels: seq<real>)

  /** Either a fixed list of contour levels or a sparse zoom -> levels table. */
  datatype LevelSpec = Levels(levels: seq<real>) | Thresholds(table: map<int, ThresholdValue>)

  /** The maplibre-contour options object of the pyramid scripts. */
  datatype ContourOptions = ContourOptions(
    multiplier: int,
    spec: LevelSpec,
    contourLayer: string,
    elevationKey: string,
    levelKey: string,
    extent: int,
    buffer: int)

  /** A number value becomes a one-element list; a list is used as it is. */
  function AsLevels(v: ThresholdValue): seq<real>
  {
    match v
    case Single(l) => [l]
    case Many(ls) => ls
  }

  /** `k` is the largest key of `table` that is at most `zoom`. */
  ghost predicate IsFloorKey(table: map<int, ThresholdValue>, zoom: int, k: int)
  {
    k in table && k <= zoom && forall k' :: k' in table && k' <= zoom ==> k' <= k
  }

  /** The largest element of `keys` that is at most `zoom`, if there is one. */
  ghost function FloorOf(keys: set<int>, zoom: int): (r: Option<int>)
    ensures r.None? <==> forall k :: k in keys ==> k > zoom
    ensures r.Some? ==> r.value in keys && r.value <= zoom
    ensures r.Some? ==> forall k :: k in keys && k <= zoom ==> k <= r.value
    decreases |keys|
  {
    if keys == {} then None
    else
      assert exists k :: k in keys by { HasElement(keys); }
      var k :| k in keys;
      var rest := keys - {k};
      assert forall k' :: k' in keys <==> k' == k || k' in rest;
      var below := FloorOf(rest, zoom);
      if k > zoom then below
      else if below.Some? && below.value > k then below
      else Some(k)
  }

  lemma {:induction false} HasElement(keys: set<int>)
    requires keys != {}
    ensures exists k :: k in keys
  {
    if forall k :: k !in keys {
      assert false;
    }
  }

  /** The floor lookup: the levels at the largest key at most `zoom`, or no level at all. */
  ghost function ResolveLevels(table: map<int, ThresholdValue>, zoom: int): seq<real>
  {
    match FloorOf(table.Keys, zoom)
    case None => []
    case Some(k) => AsLevels(table[k])
  }

  /** The resolved levels are those of the floor key, and empty when every key exceeds the zoom. */
  lemma {:induction false} ResolveLevelsFloor(table: map<int, ThresholdValue>, zoom: int)
    ensures forall k :: IsFloorKey(table, zoom, k) ==> ResolveLevels(table, zoom) == AsLevels(table[k])
    ensures (forall k :: k in table ==> k > zoom) <==> ResolveLevels(table, zoom) == [] && FloorOf(table.Keys, zoom).None?
  {
  }

  /** `getOptionsForZoom`: walks the table entries in `entryOrder` (the order
      `Object.entries` yields them), keeping the largest key at most `zoom`
      seen so far; the result carries those levels, every other field
      unchanged, and no table. Whatever the order, the result is the floor
      lookup. */
  method GetOptionsForZoom(options: ContourOptions, zoom: int, entryOrder: seq<int>)
    returns (r: ContourOptions)
    requires options.spec.Thresholds?
    requires Tiles.NoDuplicates(entryOrder) && forall k :: k in entryOrder <==> k in options.spec.table
    ensures r == options.(spec := Levels(ResolveLevels(options.spec.table, zoom)))
  {
    var table := options.spec.table;
    var levels: seq<real> := [];
    var found := false;
    var maxLessThanOrEqualTo := 0;
    for i := 0 to |entryOrder|
      invariant !found ==> levels == [] && forall j :: 0 <= j < i ==> entryOrder[j] > zoom
      invariant found ==> maxLessThanOrEqualTo in table && maxLessThanOrEqualTo <= zoom
      invariant found ==> levels == AsLevels(table[maxLessThanOrEqualTo])
      invariant found ==> forall j :: 0 <= j < i && entryOrder[j] <= zoom ==> entryOrder[j] <= maxLessThanOrEqualTo
    {
      var z := entryOrder[i];
      if z <= zoom && (!found || z > maxLessThanOrEqualTo) {
        maxLessThanOrEqualTo := z;
        found := true;
        levels := AsLevels(table[z]);
      }
    }
    if found {
      assert IsFloorKey(table, zoom, maxLessThanOrEqualTo) by {
        forall k | k in table && k <= zoom ensures k <= maxLessThanOrEqualTo {
          var j :| 0 <= j < |entryOrder| && entryOrder[j] == k;
        }
      }
    } else {
      assert forall k :: k in table ==> k > zoom by {
        forall k | k in table ensures k > zoom {
          var j :| 0 <= j < |entryOrder| && entryOrder[j] == k;
        }
      }
    }
    r := options.(spec := Levels(levels));
  }

}
