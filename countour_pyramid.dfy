/** The option selection of `generate-countour-tile-pyramid.ts`, the
    near-duplicate pyramid script: the same shape as in `ContourPyramid` but
    with a four-entry table of single levels. Its expansion, sort, batching
    and per-tile planning are the shared ones of module `Pyramid`. */
module CountourPyramid {
  import opened JsText
  import opened MlcontourAdapter
  import opened Tiles
  import Pyramid
  import ContourPyramid

  /** The zoom -> level table of this script: one level per entry. */
  function Table(): map<int, ThresholdValue>
  {
    map[1 := Single(500.0), 9 := Single(100.0), 11 := Single(50.0), 12 := Single(10.0)]
  }

  /** The table's keys in `Object.entries` order. */
  const ThresholdKeys: seq<int> := [1, 9, 11, 12]

  /** The `contourOptions` object of this script. */
  function ContourOptionsFor(increment: Option<real>): (r: ContourOptions)
    ensures r.spec.Levels? <==> ContourPyramid.IsTruthy(increment)
    ensures r.spec.Levels? ==> r.spec.levels == [increment.value]
    ensures r.spec.Thresholds? ==> r.spec.table == Table() && ContourPyramid.KeyOrder(r.spec.table, ThresholdKeys)
  {
    ContourOptions(
      1,
      if ContourPyramid.IsTruthy(increment) then Levels([increment.value]) else Thresholds(Table()),
      "contours", "ele", "level", 4096, 1)
  }

  /** The largest key of the table at most `zoom`, for `zoom >= 1`. */
  function FloorKey(zoom: int): (k: int)
    requires zoom >= 1
    ensures k in Table() && k <= zoom
    ensures forall k' :: k' in Table() && k' <= zoom ==> k' <= k
  {
    assert Table().Keys == {1, 9, 11, 12};
    if zoom < 9 then 1 else if zoom < 11 then 9 else if zoom < 12 then 11 else 12
  }

  /** Reference step function of the table. */
  function LevelsAt(zoom: int): seq<real>
  {
    if zoom < 1 then []
    else if zoom < 9 then [500.0]
    else if zoom < 11 then [100.0]
    else if zoom < 12 then [50.0]
    else [10.0]
  }

  /** The floor lookup in the table agrees with the step function at every zoom. */
  lemma {:induction false} ResolvedLevels(zoom: int)
    ensures ResolveLevels(Table(), zoom) == LevelsAt(zoom)
  {
    var t := Table();
    assert t.Keys == {1, 9, 11, 12};
    ResolveLevelsFloor(t, zoom);
    if zoom >= 1 {
      var k := FloorKey(zoom);
      assert IsFloorKey(t, zoom, k);
      assert AsLevels(t[k]) == LevelsAt(zoom);
    }
  }

  /** Sample zooms: nothing below the first key, 500 at zoom 5, and 10 from
      zoom 12 on. */
  lemma {:induction false} SampleLevels()
    ensures ResolveLevels(Table(), 0) == []
    ensures ResolveLevels(Table(), 5) == [500.0]
    ensures ResolveLevels(Table(), 12) == [10.0]
    ensures ResolveLevels(Table(), 20) == [10.0]
  {
    ResolvedLevels(0);
    ResolvedLevels(5);
    ResolvedLevels(12);
    ResolvedLevels(20);
  }

  /** `processTile`'s plan in this script: the file under `oDir` and the
      options the tile is fetched with. */
  method PlanCountourTile(increment: Option<real>, oDir: string, v: Tile)
    returns (filePath: string, tileOptions: ContourOptions)
    ensures filePath == Pyramid.TilePath(oDir, v)
    ensures tileOptions == ContourOptionsFor(increment).(spec :=
      Levels(if ContourPyramid.IsTruthy(increment) then [increment.value] else LevelsAt(v.z)))
  {
    filePath, tileOptions := Pyramid.PlanTile(ContourOptionsFor(increment), ThresholdKeys, oDir, v);
    if !ContourPyramid.IsTruthy(increment) {
      ResolvedLevels(v.z);
    }
  }
}
