/** `bbox_to_tiles.ts`: the tile range covering a longitude/latitude box at
    one zoom, and the listing of that range as a string of `"z x y "`
    entries. Coordinates are reals. The Mercator row projection is passed
    in as a function, and only its monotonicity is relied upon. */
module BboxToTiles {
  import opened Tiles
  import opened JsText
  import opened Arith

  /** `[minLon, minLat, maxLon, maxLat]`. */
  datatype Bounds = Bounds(minLon: real, minLat: real, maxLon: real, maxLat: real)

  datatype TileRange = TileRange(minX: int, minY: int, maxX: int, maxY: int)

  /** The tile column of a longitude: `floor((lon + 180) / 360 * 2^zoom)`. */
  function TileX(lon: real, zoom: nat): (c: int)
    ensures c as real <= (lon + 180.0) / 360.0 * (Pow2(zoom) as real) < c as real + 1.0
  {
    ((lon + 180.0) / 360.0 * (Pow2(zoom) as real)).Floor
  }

  /** A row projection that never increases as the latitude grows, as the
      Mercator formula does (rows count from the north). */
  ghost predicate NonIncreasing(tileY: (real, nat) -> int)
  {
    forall a: real, b: real, zoom: nat :: a <= b ==> tileY(b, zoom) <= tileY(a, zoom)
  }

  /** `calculateTileRangeForBounds`: the south-west corner gives the first
      column and the last row, the north-east corner the last column and
      the first row. */
  function CalculateTileRangeForBounds(b: Bounds, zoom: nat, tileY: (real, nat) -> int): (r: TileRange)
    ensures r.minX == TileX(b.minLon, zoom) && r.maxY == tileY(b.minLat, zoom)
    ensures r.maxX == TileX(b.maxLon, zoom) && r.minY == tileY(b.maxLat, zoom)
    ensures forall lon :: b.minLon <= lon <= b.maxLon ==> r.minX <= TileX(lon, zoom) <= r.maxX
    ensures NonIncreasing(tileY) ==>
      forall lat :: b.minLat <= lat <= b.maxLat ==> r.minY <= tileY(lat, zoom) <= r.maxY
  {
    CornersCover(b, zoom, tileY);
    var minX, maxY := TileX(b.minLon, zoom), tileY(b.minLat, zoom);
    var maxX, minY := TileX(b.maxLon, zoom), tileY(b.maxLat, zoom);
    TileRange(minX, minY, maxX, maxY)
  }

  /** The corners bound the columns and rows of every point of the box. */
  lemma {:induction false} CornersCover(b: Bounds, zoom: nat, tileY: (real, nat) -> int)
    ensures forall lon :: b.minLon <= lon <= b.maxLon ==>
      TileX(b.minLon, zoom) <= TileX(lon, zoom) <= TileX(b.maxLon, zoom)
    ensures NonIncreasing(tileY) ==> forall lat :: b.minLat <= lat <= b.maxLat ==>
      tileY(b.maxLat, zoom) <= tileY(lat, zoom) <= tileY(b.minLat, zoom)
  {
    forall lon | b.minLon <= lon <= b.maxLon
      ensures TileX(b.minLon, zoom) <= TileX(lon, zoom) <= TileX(b.maxLon, zoom)
    {
      TileXMonotone(b.minLon, lon, zoom);
      TileXMonotone(lon, b.maxLon, zoom);
    }
  }

  /** The column never decreases eastward. */
  lemma {:induction false} TileXMonotone(a: real, b: real, zoom: nat)
    requires a <= b
    ensures TileX(a, zoom) <= TileX(b, zoom)
  {
    var n := Pow2(zoom) as real;
    var fa, fb := (a + 180.0) / 360.0 * n, (b + 180.0) / 360.0 * n;
    assert fb - fa == (b - a) / 360.0 * n;
    assert fa <= fb;
  }

  /** The western edge of the world is column 0 and the eastern edge is
      column `2^zoom`, one past the last column. */
  lemma {:induction false} TileXEdges(zoom: nat)
    ensures TileX(-180.0, zoom) == 0
    ensures TileX(180.0, zoom) == Pow2(zoom)
  {
    var n := Pow2(zoom) as real;
    assert (180.0 + 180.0) / 360.0 * n == n;
    assert (-180.0 + 180.0) / 360.0 * n == 0.0;
  }

  /** Any longitude short of the eastern edge falls in an existing column. */
  lemma {:induction false} TileXInWorld(lon: real, zoom: nat)
    requires -180.0 <= lon < 180.0
    ensures 0 <= TileX(lon, zoom) < Pow2(zoom)
  {
    var q := (lon + 180.0) / 360.0;
    assert 0.0 <= q < 1.0;
    ScaledFloor(q, Pow2(zoom));
  }

  /** The floor of a fraction of `m` is a natural below `m`. */
  lemma {:induction false} ScaledFloor(q: real, m: nat)
    requires 0.0 <= q < 1.0 && m >= 1
    ensures 0 <= (q * (m as real)).Floor < m
  {
    var n := m as real;
    assert n - q * n == (1.0 - q) * n;
    assert 0.0 <= q * n < n;
  }

  /** A box whose corners are in order yields a non-empty range of columns
      and of rows. */
  lemma {:induction false} RangeOrdered(b: Bounds, zoom: nat, tileY: (real, nat) -> int)
    requires b.minLon <= b.maxLon && b.minLat <= b.maxLat && NonIncreasing(tileY)
    ensures var r := CalculateTileRangeForBounds(b, zoom, tileY);
      r.minX <= r.maxX && r.minY <= r.maxY
  {
    TileXMonotone(b.minLon, b.maxLon, zoom);
  }

  /** The column of a longitude, kept inside the world: the eastern edge
      maps to the last column instead of one past it. */
  function ClampedTileX(lon: real, zoom: nat): int
  {
    Min(TileX(lon, zoom), Pow2(zoom) - 1)
  }

  /** Every longitude of the world, both edges included, has an existing
      column; short of the eastern edge it is the unclamped one, and the
      eastern edge itself belongs to the last column. */
  lemma {:induction false} ClampedTileXInWorld(lon: real, zoom: nat)
    requires -180.0 <= lon <= 180.0
    ensures 0 <= ClampedTileX(lon, zoom) < Pow2(zoom)
    ensures lon < 180.0 ==> ClampedTileX(lon, zoom) == TileX(lon, zoom)
    ensures lon == 180.0 ==> ClampedTileX(lon, zoom) == Pow2(zoom) - 1
  {
    if lon < 180.0 {
      TileXInWorld(lon, zoom);
    } else {
      TileXEdges(zoom);
    }
  }

  /** The tile range with the clamped column. */
  function ClampedTileRangeForBounds(b: Bounds, zoom: nat, tileY: (real, nat) -> int): TileRange
  {
    TileRange(ClampedTileX(b.minLon, zoom), tileY(b.maxLat, zoom), ClampedTileX(b.maxLon, zoom), tileY(b.minLat, zoom))
  }

  /** The clamped range of a box inside the world has only existing columns,
      and keeps its corners in order. */
  lemma {:induction false} ClampedRangeInWorld(b: Bounds, zoom: nat, tileY: (real, nat) -> int)
    requires -180.0 <= b.minLon <= b.maxLon <= 180.0
    ensures var r := ClampedTileRangeForBounds(b, zoom, tileY);
      0 <= r.minX <= r.maxX < Pow2(zoom)
  {
    ClampedTileXInWorld(b.minLon, zoom);
    ClampedTileXInWorld(b.maxLon, zoom);
    TileXMonotone(b.minLon, b.maxLon, zoom);
  }

  /** One entry of the listing: `"<zoom> <x> <y> "`. */
  function Entry(t: Tile): string
  {
    IntToString(t.z) + " " + IntToString(t.x) + " " + IntToString(t.y) + " "
  }

  /** The entries of `ts`, in order. */
  function Render(ts: seq<Tile>): string
  {
    if ts == [] then "" else Render(ts[..|ts| - 1]) + Entry(ts[|ts| - 1])
  }

  /** The three numbers of each entry, in order. */
  function Words(ts: seq<Tile>): seq<string>
  {
    if ts == [] then [] else [IntToString(ts[0].z), IntToString(ts[0].x), IntToString(ts[0].y)] + Words(ts[1..])
  }

  /** `bboxToTiles`: the range of the box, then one entry per tile, row by
      row from `minY` to `maxY` and column by column from `minX` to `maxX`
      within a row. */
  method BboxToTiles(b: Bounds, zoom: nat, tileY: (real, nat) -> int) returns (tiles: string)
    ensures var r := CalculateTileRangeForBounds(b, zoom, tileY);
      tiles == Render(Rect(zoom, r.minX, r.maxX, r.minY, r.maxY))
  {
    var range := CalculateTileRangeForBounds(b, zoom, tileY);
    var minX, minY, maxX, maxY := range.minX, range.minY, range.maxX, range.maxY;
    tiles := "";
    var y := minY;
    while y <= maxY
      invariant minY <= y && (y <= maxY + 1 || y == minY)
      invariant tiles == Render(Rect(zoom, minX, maxX, minY, y - 1))
      decreases maxY - y
    {
      tiles := AppendRow(tiles, zoom, minX, maxX, y);
      RenderAppend(Rect(zoom, minX, maxX, minY, y - 1), Row(zoom, minX, maxX, y));
      y := y + 1;
    }
  }

  /** The inner loop of `bboxToTiles`: one entry per column of row `y`,
      appended to the listing so far. */
  method AppendRow(prefix: string, zoom: nat, minX: int, maxX: int, y: int) returns (tiles: string)
    ensures tiles == prefix + Render(Row(zoom, minX, maxX, y))
  {
    tiles := prefix;
    var x := minX;
    while x <= maxX
      invariant minX <= x && (x <= maxX + 1 || x == minX)
      invariant tiles == prefix + Render(Row(zoom, minX, x - 1, y))
      decreases maxX - x
    {
      var entry := IntToString(zoom) + " " + IntToString(x) + " " + IntToString(y) + " ";
      assert entry == Entry(Tile(x, y, zoom));
      RenderSnoc(Row(zoom, minX, x - 1, y), Tile(x, y, zoom));
      AppendAssoc(prefix, Render(Row(zoom, minX, x - 1, y)), entry);
      tiles := tiles + entry;
      x := x + 1;
    }
    if maxX < minX {
      assert Row(zoom, minX, x - 1, y) == Row(zoom, minX, maxX, y);
    }
  }

  lemma {:induction false} RenderSnoc(ts: seq<Tile>, t: Tile)
    ensures Render(ts + [t]) == Render(ts) + Entry(t)
  {
    assert (ts + [t])[..|ts|] == ts;
  }

  lemma {:induction false} RenderCons(t: Tile, ts: seq<Tile>)
    ensures Render([t] + ts) == Entry(t) + Render(ts)
  {
    RenderAppend([t], ts);
    assert [t] == [] + [t];
    RenderSnoc([], t);
    assert Render([]) + Entry(t) == Entry(t);
  }

  /** Rendering distributes over concatenation. */
  lemma {:induction false} RenderAppend(a: seq<Tile>, b: seq<Tile>)
    ensures Render(a + b) == Render(a) + Render(b)
    decreases |b|
  {
    if b == [] {
      assert a + b == a;
    } else {
      var b' := b[..|b| - 1];
      var t := b[|b| - 1];
      assert b == b' + [t];
      assert a + b == (a + b') + [t];
      RenderAppend(a, b');
      RenderSnoc(a + b', t);
      RenderSnoc(b', t);
      AppendAssoc(Render(a), Render(b'), Entry(t));
    }
  }

  /** Splitting the listing on spaces gives back the three numbers of every
      entry, then the empty piece after the final space. */
  lemma {:induction false} SplitRender(ts: seq<Tile>, rest: string)
    ensures Split(Render(ts) + rest, ' ') == Words(ts) + Split(rest, ' ')
    decreases |ts|
  {
    if ts != [] {
      SplitRender(ts[1..], rest);
      SplitRenderStep(ts, rest);
    } else {
      assert Render(ts) + rest == rest;
      assert Words(ts) + Split(rest, ' ') == Split(rest, ' ');
    }
  }

  /** One entry more in front of a listing already known to split well. */
  lemma {:induction false} SplitRenderStep(ts: seq<Tile>, rest: string)
    requires ts != []
    requires Split(Render(ts[1..]) + rest, ' ') == Words(ts[1..]) + Split(rest, ' ')
    ensures Split(Render(ts) + rest, ' ') == Words(ts) + Split(rest, ' ')
  {
    var t, u := ts[0], ts[1..];
    var tail := Render(u) + rest;
    assert Render(ts) + rest == Entry(t) + tail by {
      assert ts == [t] + u;
      RenderCons(t, u);
      AppendAssoc(Entry(t), Render(u), rest);
    }
    SplitEntry(t, tail);
    var head := [IntToString(t.z), IntToString(t.x), IntToString(t.y)];
    assert Words(ts) == head + Words(u);
    AppendAssoc(head, Words(u), Split(rest, ' '));
  }

  /** Splitting one entry followed by more text. */
  lemma {:induction false} SplitEntry(t: Tile, tail: string)
    ensures Split(Entry(t) + tail, ' ') ==
      [IntToString(t.z), IntToString(t.x), IntToString(t.y)] + Split(tail, ' ')
  {
    NoSpaceInNumber(t.z);
    NoSpaceInNumber(t.x);
    NoSpaceInNumber(t.y);
    SplitThreeWords(IntToString(t.z), IntToString(t.x), IntToString(t.y), tail);
  }

  /** Three space-free words, each followed by a space, then more text. */
  lemma {:induction false} SplitThreeWords(a: string, b: string, c: string, tail: string)
    requires ' ' !in a && ' ' !in b && ' ' !in c
    ensures Split(a + " " + b + " " + c + " " + tail, ' ') == [a, b, c] + Split(tail, ' ')
  {
    var r2 := c + " " + tail;
    var r1 := b + " " + r2;
    Regroup(a + " " + b, c, tail);
    Regroup(a, b, r2);
    var w := Split(tail, ' ');
    SplitWord(c, tail);
    SplitWord(b, r2);
    SplitWord(a, r1);
    assert Split(a + " " + r1, ' ') == [a] + ([b] + ([c] + w));
    ThreeCons(a, b, c, w);
  }

  lemma {:induction false} ThreeCons<T>(a: T, b: T, c: T, w: seq<T>)
    ensures [a] + ([b] + ([c] + w)) == [a, b, c] + w
  {
  }

  lemma {:induction false} Regroup(a: string, b: string, tail: string)
    ensures a + " " + b + " " + tail == a + " " + (b + " " + tail)
  {
    AppendAssoc(a + " " + b, " ", tail);
    AppendAssoc(a + " ", b, " " + tail);
    AppendAssoc(b, " ", tail);
  }

  /** A space-free word, a space, then more text. */
  lemma {:induction false} SplitWord(w: string, rest: string)
    requires ' ' !in w
    ensures Split(w + " " + rest, ' ') == [w] + Split(rest, ' ')
  {
    assert " " == [' '];
    SplitAround(w, ' ', rest);
    SplitNoSeparator(w, ' ');
  }

  lemma {:induction false} NoSpaceInNumber(n: int)
    ensures ' ' !in IntToString(n)
  {
  }

  lemma {:induction false} WordsSize(ts: seq<Tile>)
    ensures |Words(ts)| == 3 * |ts|
    decreases |ts|
  {
    if ts != [] {
      WordsSize(ts[1..]);
    }
  }

  /** The listing of a range: empty when either the rows or the columns run
      backwards, and otherwise `(maxX - minX + 1) * (maxY - minY + 1)`
      space-terminated entries, that is three numbers per tile. */
  lemma {:induction false} ListingShape(zoom: nat, r: TileRange)
    ensures r.minY > r.maxY || r.minX > r.maxX ==> Render(Rect(zoom, r.minX, r.maxX, r.minY, r.maxY)) == ""
    ensures var s := Render(Rect(zoom, r.minX, r.maxX, r.minY, r.maxY));
      s != "" ==> s[|s| - 1] == ' '
    ensures var pieces := Split(Render(Rect(zoom, r.minX, r.maxX, r.minY, r.maxY)), ' ');
      |pieces| == 3 * (if r.minY > r.maxY || r.minX > r.maxX then 0
                       else (r.maxX - r.minX + 1) * (r.maxY - r.minY + 1)) + 1
      && pieces[|pieces| - 1] == ""
  {
    var ts := Rect(zoom, r.minX, r.maxX, r.minY, r.maxY);
    RectSize(zoom, r.minX, r.maxX, r.minY, r.maxY);
    SplitRender(ts, "");
    assert Render(ts) + "" == Render(ts);
    WordsSize(ts);
  }
}
