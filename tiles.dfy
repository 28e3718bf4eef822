/** Tile addresses of the power-of-two quad-tree tiling of the world, the
    parent/child relation between them (the `getChildren` helper of
    @mapbox/tilebelt), and the row-major rectangles of tiles that the zoom and
    bounding-box sweeps enumerate. */
module Tiles {

  /** A tile: column `x`, row `y`, zoom `z`. The pyramid scripts hold tiles as
      `[x, y, z]` tuples and the entry point as `[z, x, y]`; with named fields
      both are the same value. Coordinates come from the command line
      unchecked, so they are plain integers. */
  datatype Tile = Tile(x: int, y: int, z: int)

  function Pow2(n: nat): (r: nat)
    ensures r >= 1
  {
    if n == 0 then 1 else 2 * Pow2(n - 1)
  }

  function Pow4(n: nat): (r: nat)
    ensures r == Pow2(n) * Pow2(n)
  {
    if n == 0 then 1 else 4 * Pow4(n - 1)
  }

  /** The four quadrant children of `t`, in the order tilebelt lists them. */
  function Children(t: Tile): seq<Tile>
  {
    [ Tile(2 * t.x, 2 * t.y, t.z + 1), Tile(2 * t.x + 1, 2 * t.y, t.z + 1),
      Tile(2 * t.x + 1, 2 * t.y + 1, t.z + 1), Tile(2 * t.x, 2 * t.y + 1, t.z + 1) ]
  }

  function Parent(t: Tile): Tile
  {
    Tile(t.x / 2, t.y / 2, t.z - 1)
  }

  /** The ancestor `k` levels above `t`. */
  function Ancestor(t: Tile, k: nat): (a: Tile)
    ensures a.z == t.z - k
    decreases k
  {
    if k == 0 then t else Ancestor(Parent(t), k - 1)
  }

  /** `t` belongs to the pyramid of `root` cut at zoom `maxZoom`: the root
      itself, or a descendant whose zoom does not exceed `maxZoom`. */
  ghost predicate InPyramid(root: Tile, maxZoom: int, t: Tile)
  {
    root.z <= t.z && (t.z == root.z || t.z <= maxZoom) && Ancestor(t, t.z - root.z) == root
  }

  /** The children of `t` are exactly the tiles one level down whose parent is `t`. */
  lemma {:induction false} ChildIffParent(t: Tile, c: Tile)
    ensures c in Children(t) <==> c.z == t.z + 1 && Parent(c) == t
  {
    if c.z == t.z + 1 && Parent(c) == t {
      assert c.x == 2 * t.x || c.x == 2 * t.x + 1;
      assert c.y == 2 * t.y || c.y == 2 * t.y + 1;
    }
  }

  lemma {:induction false} AncestorStep(t: Tile, k: nat)
    ensures Ancestor(t, k + 1) == Parent(Ancestor(t, k))
    decreases k
  {
    if k > 0 {
      AncestorStep(Parent(t), k - 1);
    }
  }

  /** `v` halved (rounding down) `d` times: the column or row of an ancestor. */
  function Halved(v: int, d: nat): int
    decreases d
  {
    if d == 0 then v else Halved(v / 2, d - 1)
  }

  lemma {:induction false} AncestorCoordinates(t: Tile, d: nat)
    ensures Ancestor(t, d) == Tile(Halved(t.x, d), Halved(t.y, d), t.z - d)
    decreases d
  {
    if d > 0 {
      AncestorCoordinates(Parent(t), d - 1);
    }
  }

  /** Halving `d` times lands on `r` exactly when `v` lies in `[r * 2^d, (r + 1) * 2^d)`. */
  lemma {:induction false} HalvedRange(v: int, r: int, d: nat)
    ensures Halved(v, d) == r <==> r * Pow2(d) <= v < (r + 1) * Pow2(d)
    decreases d
  {
    if d > 0 {
      var m := Pow2(d - 1);
      HalvedRange(v / 2, r, d - 1);
      assert r * Pow2(d) == 2 * (r * m);
      assert (r + 1) * Pow2(d) == 2 * ((r + 1) * m);
    }
  }

  /** The descendants of `root` at depth `d` are the tiles
      `(root.x * 2^d + i, root.y * 2^d + j, root.z + d)` with `0 <= i, j < 2^d`. */
  lemma {:induction false} DescendantRange(root: Tile, t: Tile, d: nat)
    requires t.z == root.z + d
    ensures Ancestor(t, d) == root <==>
      && root.x * Pow2(d) <= t.x < (root.x + 1) * Pow2(d)
      && root.y * Pow2(d) <= t.y < (root.y + 1) * Pow2(d)
  {
    AncestorCoordinates(t, d);
    HalvedRange(t.x, root.x, d);
    HalvedRange(t.y, root.y, d);
  }

  /** The tiles of row `y` at zoom `z` from column `x0` to column `x1`, left to right. */
  function Row(z: int, x0: int, x1: int, y: int): seq<Tile>
    decreases x1 - x0 + 1
  {
    if x1 < x0 then [] else Row(z, x0, x1 - 1, y) + [Tile(x1, y, z)]
  }

  /** The inclusive rectangle `[x0, x1] x [y0, y1]` at zoom `z`, row after row:
      `y` in the outer loop, `x` in the inner one. */
  function Rect(z: int, x0: int, x1: int, y0: int, y1: int): seq<Tile>
    decreases y1 - y0 + 1
  {
    if y1 < y0 then [] else Rect(z, x0, x1, y0, y1 - 1) + Row(z, x0, x1, y1)
  }

  /** `a` comes before `b` in row-major order. */
  predicate RowMajorBefore(a: Tile, b: Tile)
  {
    a.y < b.y || (a.y == b.y && a.x < b.x)
  }

  predicate StrictlyRowMajor(s: seq<Tile>)
  {
    forall i, j :: 0 <= i < j < |s| ==> RowMajorBefore(s[i], s[j])
  }

  lemma {:induction false} RowFacts(z: int, x0: int, x1: int, y: int)
    ensures |Row(z, x0, x1, y)| == if x1 < x0 then 0 else x1 - x0 + 1
    ensures forall t :: t in Row(z, x0, x1, y) <==> t.z == z && t.y == y && x0 <= t.x <= x1
    ensures StrictlyRowMajor(Row(z, x0, x1, y))
    decreases x1 - x0 + 1
  {
    if x0 <= x1 {
      RowFacts(z, x0, x1 - 1, y);
    }
  }

  /** The rectangle holds exactly the tiles of the given zoom inside the bounds. */
  lemma {:induction false} RectMembers(z: int, x0: int, x1: int, y0: int, y1: int)
    ensures forall t :: t in Rect(z, x0, x1, y0, y1) <==>
      t.z == z && x0 <= t.x <= x1 && y0 <= t.y <= y1
    decreases y1 - y0 + 1
  {
    if y0 <= y1 {
      RectMembers(z, x0, x1, y0, y1 - 1);
      RowFacts(z, x0, x1, y1);
    }
  }

  /** The rectangle has `(x1 - x0 + 1) * (y1 - y0 + 1)` tiles, none when either range is empty. */
  lemma {:induction false} RectSize(z: int, x0: int, x1: int, y0: int, y1: int)
    ensures |Rect(z, x0, x1, y0, y1)| ==
      if x1 < x0 || y1 < y0 then 0 else (x1 - x0 + 1) * (y1 - y0 + 1)
    decreases y1 - y0 + 1
  {
    if y0 <= y1 {
      RectSize(z, x0, x1, y0, y1 - 1);
      RowFacts(z, x0, x1, y1);
      if x0 <= x1 {
        assert (x1 - x0 + 1) * (y1 - y0 + 1) == (x1 - x0 + 1) * (y1 - 1 - y0 + 1) + (x1 - x0 + 1);
      }
    }
  }

  /** Row-major order: each tile comes strictly after the previous one by `(y, x)`,
      so the rectangle also has no duplicates. */
  lemma {:induction false} RectOrder(z: int, x0: int, x1: int, y0: int, y1: int)
    ensures StrictlyRowMajor(Rect(z, x0, x1, y0, y1))
    decreases y1 - y0 + 1
  {
    if y0 <= y1 {
      var front := Rect(z, x0, x1, y0, y1 - 1);
      var row := Row(z, x0, x1, y1);
      RectOrder(z, x0, x1, y0, y1 - 1);
      RectMembers(z, x0, x1, y0, y1 - 1);
      RowFacts(z, x0, x1, y1);
      var s := front + row;
      forall i, j | 0 <= i < j < |s| ensures RowMajorBefore(s[i], s[j]) {
        if j < |front| {
          assert s[i] == front[i] && s[j] == front[j];
        } else if i >= |front| {
          assert s[i] == row[i - |front|] && s[j] == row[j - |front|];
        } else {
          assert s[i] in front && s[j] in row;
        }
      }
    }
  }

  /** A sequence with no repeated element. */
  predicate NoDuplicates<T(==)>(s: seq<T>)
  {
    forall i, j :: 0 <= i < j < |s| ==> s[i] != s[j]
  }
}
