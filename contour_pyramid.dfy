/** The option selection of `generate-contour-tile-pyramid.ts`: a fixed level
    list when an increment is given, else its nine-entry threshold table. The
    expansion, sort, batching and per-tile planning it shares with the other
    pyramid script are in module `Pyramid`. */
module ContourPyramid {
  import opened JsText
  import opened MlcontourAdapter
  import opened Tiles
  import Pyramid

  /** `Number(increment)` is used as a condition: `None` stands for `NaN`
      (no increment given), which like 0 is falsy. */
  predicate IsTruthy(increment: Option<real>)
  {
    increment.Some? && increment.value != 0.0
  }

  /** The zoom -> `[minor, major]` interval table of this script. */
  function Table(): map<int, ThresholdValue>
  {
    map[1 := Many([600.0, 3000.0]), 4 := Many([300.0, 1500.0]), 8 := Many([150.0, 750.0]),
        9 := Many([80.0, 400.0]), 10 := Many([40.0, 200.0]), 11 := Many([20.0, 100.0]),
        12 := Many([10.0, 50.0]), 14 := Many([5.0, 25.0]), 16 := Many([1.0, 5.0])]
  }

  /** The order `Object.entries` lists the table's keys: integer-like keys
      ascending. */
  const ThresholdKeys: seq<int> := [1, 4, 8, 9, 10, 11, 12, 14, 16]

  /** The `contourOptions` object: a single level equal to a truthy increment,
      otherwise the threshold table; the other fields are constants. */
  function ContourOptionsFor(increment: Option<real>): (r: ContourOptions)
    ensures r.spec.Levels? <==> IsTruthy(increment)
    ensures r.spec.Levels? ==> r.spec.levels == [increment.value]
    ensures r.spec.Thresholds? ==> r.spec.table == Table() && KeyOrder(r.spec.table, ThresholdKeys)
  {
    ContourOptions(
      1,
      if IsTruthy(increment) then Levels([increment.value]) else Thresholds(Table()),
      "contours", "ele", "level", 4096, 1)
  }

  /** `order` lists the keys of `table`, each once. */
  ghost predicate KeyOrder(table: map<int, ThresholdValue>, order: seq<int>)
  {
    NoDuplicates(order) && forall k :: k in order <==> k in table
  }

  /** Reference step function of the table: the levels each zoom gets. */
  function LevelsAt(zoom: int): seq<real>
  {
    if zoom < 1 then []
    else if zoom < 4 then [600.0, 3000.0]
    else if zoom < 8 then [300.0, 1500.0]
    else if zoom == 8 then [150.0, 750.0]
    else if zoom == 9 then [80.0, 400.0]
    else if zoom == 10 then [40.0, 200.0]
    else if zoom == 11 then [20.0, 100.0]
    else if zoom < 14 then [10.0, 50.0]
    else if zoom < 16 then [5.0, 25.0]
    else [1.0, 5.0]
  }

  /** The floor lookup in the table agrees with the step function at every zoom. */
  lemma {:induction false} ResolvedLevels(zoom: int)
    ensures ResolveLevels(Table(), zoom) == LevelsAt(zoom)
  {
    ResolveLevelsFloor(Table(), zoom);
    if zoom < 1 {
      KeysFromOne();
    } else {
      var k := FloorKey(zoom);
      assert IsFloorKey(Table(), zoom, k);
      FloorKeyLevels(zoom);
    }
  }

  lemma {:induction false} KeysFromOne()
    ensures forall k :: k in Table() ==> k >= 1
  {
    assert Table().Keys == {1, 4, 8, 9, 10, 11, 12, 14, 16};
  }

  /** The entry at the floor key holds the step function's levels. */
  lemma {:induction false} FloorKeyLevels(zoom: int)
    requires zoom >= 1
    ensures AsLevels(Table()[FloorKey(zoom)]) == LevelsAt(zoom)
  {
    if zoom < 4 {
      assert FloorKey(zoom) == 1;
    } else if zoom < 8 {
      assert FloorKey(zoom) == 4;
    } else if zoom < 12 {
      assert FloorKey(zoom) == zoom;
    } else if zoom < 14 {
      assert FloorKey(zoom) == 12;
    } else if zoom < 16 {
      assert FloorKey(zoom) == 14;
    } else {
      assert FloorKey(zoom) == 16;
    }
  }

  /** The largest key of the table at most `zoom`, for `zoom >= 1`. */
  function FloorKey(zoom: int): (k: int)
    requires zoom >= 1
    ensures k in Table() && k <= zoom
    ensures forall k' :: k' in Table() && k' <= zoom ==> k' <= k
  {
    assert Table().Keys == {1, 4, 8, 9, 10, 11, 12, 14, 16};
    if zoom < 4 then 1 else if zoom < 8 then 4 else if zoom < 12 then zoom
    else if zoom < 14 then 12 else if zoom < 16 then 14 else 16
  }

  /** `processTile`'s plan in this script: the tile's file and the options it
      is fetched with, which carry the increment when there is one and
      otherwise the levels of the tile's zoom from the table. */
  method PlanContourTile(increment: Option<real>, outputDir: string, v: Tile)
    returns (filePath: string, tileOptions: ContourOptions)
    ensures filePath == Pyramid.TilePath(outputDir, v)
    ensures tileOptions == ContourOptionsFor(increment).(spec :=
      Levels(if IsTruthy(increment) then [increment.value] else LevelsAt(v.z)))
  {
    filePath, tileOptions := Pyramid.PlanTile(ContourOptionsFor(increment), ThresholdKeys, outputDir, v);
    if !IsTruthy(increment) {
      ResolvedLevels(v.z);
    }
  }
}
