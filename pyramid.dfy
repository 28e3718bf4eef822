/** The tile bookkeeping shared, line for line, by the two pyramid scripts
    (`generate-contour-tile-pyramid.ts` and its near-duplicate
    `generate-countour-tile-pyramid.ts`): the quad-tree expansion of one root
    tile down to a maximum zoom, the `(z, x, y)` sort of the result and the
    batch-by-batch processing of the sorted queue. */
module Pyramid {
  import opened Tiles
  import opened Arith
  import opened JsText
  import opened MlcontourAdapter

  // ---------------------------------------------------------------------
  // Quad-tree expansion
  // ---------------------------------------------------------------------

  /** What one `getTileList(t)` call appends: nothing when the children would
      lie beyond `maxZoom`, else the four children followed, child by child,
      by what the recursive calls on them append. */
  function Expand(t: Tile, maxZoom: int): seq<Tile>
    decreases maxZoom - t.z, 1
  {
    if t.z >= maxZoom then [] else Children(t) + ExpandFirst(t, maxZoom, 4)
  }

  /** What the recursive calls on the first `i` children of `t` append. */
  function ExpandFirst(t: Tile, maxZoom: int, i: nat): seq<Tile>
    requires t.z < maxZoom && i <= 4
    decreases maxZoom - t.z, 0, i
  {
    if i == 0 then [] else ExpandFirst(t, maxZoom, i - 1) + Expand(Children(t)[i - 1], maxZoom)
  }

  /** Number of tiles in a full pyramid `depth` levels deep: the sum of `4^d`
      for `d` from 0 to `depth`. */
  function PyramidSize(depth: nat): nat
  {
    if depth == 0 then 1 else PyramidSize(depth - 1) + Pow4(depth)
  }

  /** `getTileList`: the children of `tile` that do not exceed `maxZoom` (all
      four or none, as they share a zoom) are appended to `allTiles`, then
      each child below `maxZoom` is expanded in turn. */
  method GetTileList(tile: Tile, maxZoom: int, allTiles: seq<Tile>) returns (r: seq<Tile>)
    ensures r == allTiles + Expand(tile, maxZoom)
    decreases maxZoom - tile.z
  {
    var children := if tile.z + 1 <= maxZoom then Children(tile) else [];
    r := allTiles + children;
    if children == [] {
      return;
    }
    for i := 0 to |children|
      invariant r == allTiles + children + ExpandFirst(tile, maxZoom, i)
    {
      var childTile := children[i];
      var childZoom := childTile.z;
      if childZoom < maxZoom {
        r := GetTileList(childTile, maxZoom, r);
      }
    }
  }

  /** `getAllTiles`: the root first, then its expansion. The result holds
      exactly the root's pyramid down to `maxZoom` (only the root when
      `root.z >= maxZoom`), every tile once, `PyramidSize` tiles in all. */
  method GetAllTiles(root: Tile, maxZoom: int) returns (r: seq<Tile>)
    ensures r != [] && r[0] == root
    ensures root.z >= maxZoom ==> r == [root]
    ensures forall t :: t in r <==> InPyramid(root, maxZoom, t)
    ensures forall t :: t in r ==> t.z <= if root.z >= maxZoom then root.z else maxZoom
    ensures NoDuplicates(r)
    ensures |r| == PyramidSize(if root.z >= maxZoom then 0 else maxZoom - root.z)
  {
    r := [root];
    r := GetTileList(root, maxZoom, r);
    PyramidFacts(root, maxZoom);
  }

  /** The facts `GetAllTiles` promises, about `[root] + Expand(root, maxZoom)`. */
  lemma {:induction false} PyramidFacts(root: Tile, maxZoom: int)
    ensures forall t :: t in [root] + Expand(root, maxZoom) <==> InPyramid(root, maxZoom, t)
    ensures NoDuplicates([root] + Expand(root, maxZoom))
    ensures |[root] + Expand(root, maxZoom)| ==
      PyramidSize(if root.z >= maxZoom then 0 else maxZoom - root.z)
  {
    var e := Expand(root, maxZoom);
    forall t ensures t in [root] + e <==> InPyramid(root, maxZoom, t) {
      ExpandMember(root, maxZoom, t);
      assert Ancestor(t, 0) == t;
    }
    ExpandNoDuplicates(root, maxZoom);
    assert forall t :: t in e ==> t != root by {
      forall t | t in e ensures t != root {
        ExpandMember(root, maxZoom, t);
      }
    }
    ConcatNoDuplicates([root], e);
    ExpandSize(root, maxZoom);
  }

  /** The expansion of `t` written out: its children, then the expansion of
      each child in order. */
  lemma {:induction false} ExpandUnfold(t: Tile, maxZoom: int)
    requires t.z < maxZoom
    ensures Expand(t, maxZoom) == Children(t) + Expand(Children(t)[0], maxZoom)
      + Expand(Children(t)[1], maxZoom) + Expand(Children(t)[2], maxZoom)
      + Expand(Children(t)[3], maxZoom)
  {
    var c := Children(t);
    assert ExpandFirst(t, maxZoom, 1) == Expand(c[0], maxZoom);
    assert ExpandFirst(t, maxZoom, 2) == Expand(c[0], maxZoom) + Expand(c[1], maxZoom);
    assert ExpandFirst(t, maxZoom, 3) == Expand(c[0], maxZoom) + Expand(c[1], maxZoom) + Expand(c[2], maxZoom);
    assert ExpandFirst(t, maxZoom, 4) == Expand(c[0], maxZoom) + Expand(c[1], maxZoom) + Expand(c[2], maxZoom)
      + Expand(c[3], maxZoom);
  }

  /** The expansion of `t` holds exactly its strict descendants down to `maxZoom`. */
  lemma {:induction false} ExpandMember(t: Tile, maxZoom: int, u: Tile)
    ensures u in Expand(t, maxZoom) <==> t.z < u.z <= maxZoom && Ancestor(u, u.z - t.z) == t
    decreases maxZoom - t.z
  {
    if t.z < maxZoom {
      var c := Children(t);
      ExpandUnfold(t, maxZoom);
      ExpandMember(c[0], maxZoom, u);
      ExpandMember(c[1], maxZoom, u);
      ExpandMember(c[2], maxZoom, u);
      ExpandMember(c[3], maxZoom, u);
      ChildIffParent(t, u);
      if u.z > t.z + 1 {
        var a := Ancestor(u, u.z - t.z - 1);
        AncestorStep(u, u.z - t.z - 1);
        ChildIffParent(t, a);
        assert a in c <==> Ancestor(u, u.z - t.z) == t;
      } else if u.z == t.z + 1 {
        assert Ancestor(u, 1) == Parent(u);
      }
    }
  }

  /** What the first `i` children expand to has no repeated tile, and each of
      its tiles lies at least two levels below `t`, under one of those children. */
  lemma {:induction false} ExpandFirstFacts(t: Tile, maxZoom: int, i: nat)
    requires t.z < maxZoom && i <= 4
    ensures NoDuplicates(ExpandFirst(t, maxZoom, i))
    ensures forall u :: u in ExpandFirst(t, maxZoom, i) ==>
      u.z > t.z + 1 && Ancestor(u, u.z - t.z - 1) in Children(t)[..i]
    decreases maxZoom - t.z, 0, i
  {
    if i > 0 {
      ExpandFirstFacts(t, maxZoom, i - 1);
      ExpandNoDuplicates(Children(t)[i - 1], maxZoom);
      UnderChild(t, maxZoom, i - 1);
      ExpandFirstStep(t, maxZoom, i);
    }
  }

  /** Adding the expansion of child `i - 1` keeps the facts of `ExpandFirstFacts`. */
  lemma {:induction false} ExpandFirstStep(t: Tile, maxZoom: int, i: nat)
    requires t.z < maxZoom && 0 < i <= 4
    requires NoDuplicates(ExpandFirst(t, maxZoom, i - 1))
    requires forall u :: u in ExpandFirst(t, maxZoom, i - 1) ==>
      u.z > t.z + 1 && Ancestor(u, u.z - t.z - 1) in Children(t)[..i - 1]
    requires NoDuplicates(Expand(Children(t)[i - 1], maxZoom))
    requires forall u :: u in Expand(Children(t)[i - 1], maxZoom) ==>
      u.z > t.z + 1 && Ancestor(u, u.z - t.z - 1) == Children(t)[i - 1]
    ensures NoDuplicates(ExpandFirst(t, maxZoom, i))
    ensures forall u :: u in ExpandFirst(t, maxZoom, i) ==>
      u.z > t.z + 1 && Ancestor(u, u.z - t.z - 1) in Children(t)[..i]
  {
    var c := Children(t);
    var front, last := ExpandFirst(t, maxZoom, i - 1), Expand(c[i - 1], maxZoom);
    assert ExpandFirst(t, maxZoom, i) == front + last;
    assert c[i - 1] !in c[..i - 1] by {
      ChildrenDistinct(t);
    }
    forall u | u in front ensures u !in last {
      assert Ancestor(u, u.z - t.z - 1) in c[..i - 1];
    }
    ConcatNoDuplicates(front, last);
    assert c[..i] == c[..i - 1] + [c[i - 1]];
  }

  /** The four children of a tile are four different tiles. */
  lemma {:induction false} ChildrenDistinct(t: Tile)
    ensures forall p, q :: 0 <= p < q < 4 ==> Children(t)[p] != Children(t)[q]
  {
    var c := Children(t);
    assert c[0].x != c[1].x && c[0].y != c[2].y && c[0].x == c[3].x;
    assert c[1].y != c[2].y && c[1].x != c[3].x && c[2].x != c[3].x;
  }

  /** Every tile of the expansion of child `k` of `t` lies under that child. */
  lemma {:induction false} UnderChild(t: Tile, maxZoom: int, k: nat)
    requires k < 4
    ensures forall u :: u in Expand(Children(t)[k], maxZoom) ==>
      u.z > t.z + 1 && Ancestor(u, u.z - t.z - 1) == Children(t)[k]
  {
    var c := Children(t)[k];
    forall u | u in Expand(c, maxZoom)
      ensures u.z > t.z + 1 && Ancestor(u, u.z - t.z - 1) == c
    {
      ExpandMember(c, maxZoom, u);
    }
  }

  lemma {:induction false} ExpandNoDuplicates(t: Tile, maxZoom: int)
    ensures NoDuplicates(Expand(t, maxZoom))
    decreases maxZoom - t.z, 1
  {
    if t.z < maxZoom {
      ExpandFirstFacts(t, maxZoom, 4);
      ConcatNoDuplicates(Children(t), ExpandFirst(t, maxZoom, 4));
    }
  }

  /** Two duplicate-free sequences with no common element concatenate to a
      duplicate-free sequence. */
  lemma {:induction false} ConcatNoDuplicates(a: seq<Tile>, b: seq<Tile>)
    requires NoDuplicates(a) && NoDuplicates(b)
    requires forall u :: u in a ==> u !in b
    ensures NoDuplicates(a + b)
  {
    var s := a + b;
    forall i, j | 0 <= i < j < |s| ensures s[i] != s[j] {
      if j < |a| {
        assert s[i] == a[i] && s[j] == a[j];
      } else if i >= |a| {
        assert s[i] == b[i - |a|] && s[j] == b[j - |a|];
      } else {
        assert s[i] == a[i] && s[j] == b[j - |a|];
        assert a[i] in a && b[j - |a|] in b;
      }
    }
  }

  /** The expansion of `t` has `4 + 16 + ... + 4^d` tiles, `d` levels down to `maxZoom`. */
  lemma {:induction false} ExpandSize(t: Tile, maxZoom: int)
    ensures |Expand(t, maxZoom)| + 1 == PyramidSize(if t.z >= maxZoom then 0 else maxZoom - t.z)
  {
    if t.z < maxZoom {
      ExpandSizeDepth(t, maxZoom, maxZoom - t.z);
    }
  }

  /** The same, by induction on the depth `d` of the pyramid below `t`. */
  lemma {:induction false} ExpandSizeDepth(t: Tile, maxZoom: int, d: nat)
    requires t.z + d == maxZoom
    ensures |Expand(t, maxZoom)| + 1 == PyramidSize(d)
    decreases d
  {
    if d > 0 {
      var c := Children(t);
      forall k | 0 <= k < 4 ensures |Expand(c[k], maxZoom)| + 1 == PyramidSize(d - 1) {
        assert c[k].z == t.z + 1;
        ExpandSizeDepth(c[k], maxZoom, d - 1);
      }
      ExpandSizeStep(t, maxZoom, PyramidSize(d - 1));
      PyramidSizeUnfold(d);
    }
  }

  /** Four children whose expansions hold `n - 1` tiles each give an
      expansion of `4 * n` tiles. */
  lemma {:induction false} ExpandSizeStep(t: Tile, maxZoom: int, n: int)
    requires t.z < maxZoom
    requires forall k :: 0 <= k < 4 ==> |Expand(Children(t)[k], maxZoom)| + 1 == n
    ensures |Expand(t, maxZoom)| == 4 * n
  {
    ExpandUnfold(t, maxZoom);
  }

  /** A pyramid is its root plus four pyramids one level shallower. */
  lemma {:induction false} PyramidSizeUnfold(depth: nat)
    requires depth >= 1
    ensures PyramidSize(depth) == 1 + 4 * PyramidSize(depth - 1)
  {
    if depth > 1 {
      PyramidSizeUnfold(depth - 1);
    }
  }

  /** The pyramid of `(0, 0, 0)` down to zoom 2 has 1 + 4 + 16 = 21 tiles. */
  lemma {:induction false} WorldToZoomTwo()
    ensures |[Tile(0, 0, 0)] + Expand(Tile(0, 0, 0), 2)| == 21
  {
    ExpandSize(Tile(0, 0, 0), 2);
    assert Pow4(2) == 16 && Pow4(1) == 4;
  }

  // ---------------------------------------------------------------------
  // The `(z, x, y)` sort
  // ---------------------------------------------------------------------

  /** `a` comes strictly before `b` ordered by zoom, then column, then row. */
  predicate ZxyLess(a: Tile, b: Tile)
  {
    a.z < b.z || (a.z == b.z && (a.x < b.x || (a.x == b.x && a.y < b.y)))
  }

  /** The comparator handed to `children.sort`: zoom difference, else column
      difference, else row difference. Negative, zero and positive mean
      before, same tile and after. */
  function Compare(a: Tile, b: Tile): (r: int)
    ensures r < 0 <==> ZxyLess(a, b)
    ensures r == 0 <==> a == b
    ensures r > 0 <==> ZxyLess(b, a)
  {
    if a.z != b.z then a.z - b.z
    else if a.x != b.x then a.x - b.x
    else a.y - b.y
  }

  /** Ordered by the comparator: no pair out of order. */
  predicate SortedByZxy(s: seq<Tile>)
  {
    forall i, j :: 0 <= i < j < |s| ==> Compare(s[i], s[j]) <= 0
  }

  predicate StrictlyAscending(s: seq<Tile>)
  {
    forall i, j :: 0 <= i < j < |s| ==> ZxyLess(s[i], s[j])
  }

  /** `Array.prototype.sort` with the comparator, as an insertion sort: the
      array ends up ordered and holds the same tiles as before. */
  method SortByZxy(a: array<Tile>)
    modifies a
    ensures SortedByZxy(a[..])
    ensures multiset(a[..]) == multiset(old(a[..]))
  {
    for i := 0 to a.Length
      invariant SortedByZxy(a[..i])
      invariant multiset(a[..]) == multiset(old(a[..]))
    {
      Insert(a, i);
    }
    assert a[..a.Length] == a[..];
  }

  /** Moves `a[i]` left past every larger tile, so that the first `i + 1`
      tiles end up ordered. */
  method Insert(a: array<Tile>, i: int)
    requires 0 <= i < a.Length && SortedByZxy(a[..i])
    modifies a
    ensures SortedByZxy(a[..i + 1])
    ensures multiset(a[..]) == multiset(old(a[..]))
    ensures a[i + 1..] == old(a[i + 1..])
  {
    var j := i;
    assert InsertionState(a[..], i, j);
    while j > 0 && Compare(a[j - 1], a[j]) > 0
      invariant 0 <= j <= i
      invariant multiset(a[..]) == multiset(old(a[..]))
      invariant a[i + 1..] == old(a[i + 1..])
      invariant InsertionState(a[..], i, j)
    {
      ghost var s := a[..];
      a[j - 1], a[j] := a[j], a[j - 1];
      assert a[..] == s[j - 1 := s[j]][j := s[j - 1]];
      assert a[i + 1..] == s[i + 1..];
      SwapMultiset(s, j);
      InsertionStep(s, i, j);
      j := j - 1;
    }
    InsertionDone(a[..], i, j);
  }

  /** While `s[j]` travels left from position `i`: the first `i + 1` tiles are
      ordered except around position `j`, and the neighbours of `j` are
      ordered with each other. */
  ghost predicate InsertionState(s: seq<Tile>, i: int, j: int)
    requires 0 <= j <= i < |s|
  {
    && (forall p, q :: 0 <= p < q <= i && q != j ==> Compare(s[p], s[q]) <= 0)
    && (0 < j < i ==> Compare(s[j - 1], s[j + 1]) <= 0)
  }

  lemma {:induction false} InsertionStep(s: seq<Tile>, i: int, j: int)
    requires 0 < j <= i < |s| && InsertionState(s, i, j) && Compare(s[j - 1], s[j]) > 0
    ensures InsertionState(s[j - 1 := s[j]][j := s[j - 1]], i, j - 1)
  {
  }

  /** Swapping two neighbours keeps the same tiles. */
  lemma {:induction false} SwapMultiset(s: seq<Tile>, j: int)
    requires 0 < j < |s|
    ensures multiset(s[j - 1 := s[j]][j := s[j - 1]]) == multiset(s)
  {
  }

  lemma {:induction false} InsertionDone(s: seq<Tile>, i: int, j: int)
    requires 0 <= j <= i < |s| && InsertionState(s, i, j)
    requires j == 0 || Compare(s[j - 1], s[j]) <= 0
    ensures SortedByZxy(s[..i + 1])
  {
    forall p | 0 <= p < j ensures Compare(s[p], s[j]) <= 0 {
      CompareTransitive(s[p], s[j - 1], s[j]);
    }
  }

  /** The comparator orders tiles consistently: before-or-same is transitive. */
  lemma {:induction false} CompareTransitive(a: Tile, b: Tile, c: Tile)
    requires Compare(a, b) <= 0 && Compare(b, c) <= 0
    ensures Compare(a, c) <= 0
  {
  }

  /** A duplicate-free sequence ordered by the comparator is strictly ascending. */
  lemma {:induction false} SortedDistinctAscending(s: seq<Tile>)
    requires SortedByZxy(s) && NoDuplicates(s)
    ensures StrictlyAscending(s)
  {
    forall i, j | 0 <= i < j < |s| ensures ZxyLess(s[i], s[j]) {
      assert Compare(s[i], s[j]) <= 0 && s[i] != s[j];
    }
  }

  /** A permutation of a duplicate-free sequence is duplicate-free. */
  lemma {:induction false} PermutationNoDuplicates(s: seq<Tile>, t: seq<Tile>)
    requires multiset(s) == multiset(t) && NoDuplicates(s)
    ensures NoDuplicates(t)
  {
    NoDuplicatesCount(s);
    forall i, j | 0 <= i < j < |t| ensures t[i] != t[j] {
      if t[i] == t[j] {
        TwoOccurrences(t, i, j);
      }
    }
  }

  /** In a duplicate-free sequence every tile occurs at most once. */
  lemma {:induction false} NoDuplicatesCount(s: seq<Tile>)
    requires NoDuplicates(s)
    ensures forall u :: multiset(s)[u] <= 1
  {
    if s != [] {
      assert s == [s[0]] + s[1..];
      assert NoDuplicates(s[1..]) by {
        forall i, j | 0 <= i < j < |s[1..]| ensures s[1..][i] != s[1..][j] {
          assert s[1..][i] == s[i + 1] && s[1..][j] == s[j + 1];
        }
      }
      NoDuplicatesCount(s[1..]);
      assert s[0] !in s[1..] by {
        forall k | 0 <= k < |s[1..]| ensures s[1..][k] != s[0] {
          assert s[1..][k] == s[k + 1];
        }
      }
    }
  }

  lemma {:induction false} TwoOccurrences(t: seq<Tile>, i: nat, j: nat)
    requires i < j < |t| && t[i] == t[j]
    ensures multiset(t)[t[i]] >= 2
  {
    assert t == t[..i] + [t[i]] + t[i + 1..j] + [t[j]] + t[j + 1..];
  }

  /** The script's queue: every tile of the root's pyramid once, in strictly
      ascending `(z, x, y)` order. */
  method BuildQueue(root: Tile, maxZoom: int) returns (queue: seq<Tile>)
    ensures StrictlyAscending(queue)
    ensures forall t :: t in queue <==> InPyramid(root, maxZoom, t)
    ensures |queue| == PyramidSize(if root.z >= maxZoom then 0 else maxZoom - root.z)
  {
    var children := GetAllTiles(root, maxZoom);
    var a := new Tile[|children|](i requires 0 <= i < |children| => children[i]);
    assert a[..] == children;
    SortByZxy(a);
    queue := a[..];
    assert multiset(queue) == multiset(children);
    PermutationNoDuplicates(children, queue);
    SortedDistinctAscending(queue);
    forall t ensures t in queue <==> t in children {
      assert t in queue <==> t in multiset(queue);
      assert t in children <==> t in multiset(children);
    }
    assert |queue| == |multiset(queue)| == |multiset(children)| == |children|;
  }

  // ---------------------------------------------------------------------
  // Batch processing
  // ---------------------------------------------------------------------

  /** The batch size `processQueue` uses when none is given. */
  const DefaultBatchSize := 25

  /** The slices `queue.slice(i, i + batchSize)` the loop takes from index `i` on. */
  function BatchesFrom(queue: seq<Tile>, batchSize: int, i: nat): seq<seq<Tile>>
    requires batchSize >= 1
    decreases |queue| - i
  {
    if i >= |queue| then [] else [queue[i..Min(i + batchSize, |queue|)]] + BatchesFrom(queue, batchSize, i + batchSize)
  }

  function Batches(queue: seq<Tile>, batchSize: int): seq<seq<Tile>>
    requires batchSize >= 1
  {
    BatchesFrom(queue, batchSize, 0)
  }

  function Flatten(bs: seq<seq<Tile>>): seq<Tile>
  {
    if bs == [] then [] else bs[0] + Flatten(bs[1..])
  }

  /** The batches, put back together, are the queue. */
  lemma {:induction false} BatchesFlatten(queue: seq<Tile>, batchSize: int, i: nat)
    requires batchSize >= 1 && i <= |queue|
    ensures Flatten(BatchesFrom(queue, batchSize, i)) == queue[i..]
    decreases |queue| - i
  {
    var bs := BatchesFrom(queue, batchSize, i);
    if i < |queue| {
      var j := Min(i + batchSize, |queue|);
      BatchesFlatten(queue, batchSize, j);
      if j == |queue| {
        assert BatchesFrom(queue, batchSize, i + batchSize) == [];
      }
      assert bs[1..] == BatchesFrom(queue, batchSize, i + batchSize);
      assert queue[i..] == queue[i..j] + queue[j..];
    }
  }

  /** There are `ceil(n / batchSize)` batches. */
  lemma {:induction false} BatchesCount(queue: seq<Tile>, batchSize: int, i: nat)
    requires batchSize >= 1 && i <= |queue|
    ensures |BatchesFrom(queue, batchSize, i)| == (|queue| - i + batchSize - 1) / batchSize
    decreases |queue| - i
  {
    var n := |queue| - i + batchSize - 1;
    if i < |queue| {
      if i + batchSize < |queue| {
        BatchesCount(queue, batchSize, i + batchSize);
        DivStep(n - batchSize, batchSize);
      } else {
        assert BatchesFrom(queue, batchSize, i + batchSize) == [];
        DivUnique(n, batchSize, 1);
      }
    } else {
      DivUnique(n, batchSize, 0);
    }
  }

  /** At the scripts' batch size of 25 there are `ceil(n / 25)` batches,
      all of 25 tiles but the last, which holds 1 to 25. */
  lemma {:induction false} DefaultBatches(queue: seq<Tile>)
    ensures |Batches(queue, DefaultBatchSize)| == (|queue| + 24) / 25
    ensures forall k :: 0 <= k < |Batches(queue, DefaultBatchSize)| - 1 ==>
      |Batches(queue, DefaultBatchSize)[k]| == 25
    ensures forall k :: 0 <= k < |Batches(queue, DefaultBatchSize)| ==>
      1 <= |Batches(queue, DefaultBatchSize)[k]| <= 25
  {
    BatchesCount(queue, DefaultBatchSize, 0);
    BatchesSizes(queue, DefaultBatchSize, 0);
  }

  /** The 21 tiles of the world down to zoom 2 go out as a single batch. */
  lemma {:induction false} WorldToZoomTwoOneBatch()
    ensures |Batches([Tile(0, 0, 0)] + Expand(Tile(0, 0, 0), 2), DefaultBatchSize)| == 1
  {
    WorldToZoomTwo();
    DefaultBatches([Tile(0, 0, 0)] + Expand(Tile(0, 0, 0), 2));
  }

  /** All batches but the last hold `batchSize` tiles; the last holds between
      1 and `batchSize`. */
  lemma {:induction false} BatchesSizes(queue: seq<Tile>, batchSize: int, i: nat)
    requires batchSize >= 1 && i <= |queue|
    ensures forall k :: 0 <= k < |BatchesFrom(queue, batchSize, i)| - 1 ==>
      |BatchesFrom(queue, batchSize, i)[k]| == batchSize
    ensures forall k :: 0 <= k < |BatchesFrom(queue, batchSize, i)| ==>
      1 <= |BatchesFrom(queue, batchSize, i)[k]| <= batchSize
    decreases |queue| - i
  {
    var bs := BatchesFrom(queue, batchSize, i);
    if i < |queue| {
      var rest := BatchesFrom(queue, batchSize, i + batchSize);
      assert bs == [queue[i..Min(i + batchSize, |queue|)]] + rest;
      if i + batchSize <= |queue| {
        BatchesSizes(queue, batchSize, i + batchSize);
      } else {
        assert rest == [];
      }
      assert forall k :: 1 <= k < |bs| ==> bs[k] == rest[k - 1];
    }
  }

  /** Every tile of `batch` succeeds. */
  predicate AllSucceed(batch: seq<Tile>, process: Tile -> bool)
  {
    forall j :: 0 <= j < |batch| ==> process(batch[j])
  }

  /** Every tile of the batches succeeds exactly when every tile of their
      concatenation does. */
  lemma {:induction false} AllSucceedFlatten(bs: seq<seq<Tile>>, process: Tile -> bool)
    ensures (forall k :: 0 <= k < |bs| ==> AllSucceed(bs[k], process)) <==> AllSucceed(Flatten(bs), process)
  {
    if bs != [] {
      AllSucceedFlatten(bs[1..], process);
      var f := Flatten(bs[1..]);
      assert Flatten(bs) == bs[0] + f;
      assert AllSucceed(bs[0] + f, process) <==> AllSucceed(bs[0], process) && AllSucceed(f, process) by {
        assert forall j :: 0 <= j < |f| ==> (bs[0] + f)[|bs[0]| + j] == f[j];
        assert forall j :: 0 <= j < |bs[0]| ==> (bs[0] + f)[j] == bs[0][j];
      }
      assert forall k :: 1 <= k < |bs| ==> bs[k] == bs[1..][k - 1];
    }
  }

  /** `processQueue`: the queue is cut into consecutive batches of
      `batchSize`; each batch is processed as a whole (`Promise.all`) and the
      next starts only once it has resolved. `process` is the outcome of
      processing one tile. `started` records the batches that were
      started, in order: a prefix of the batches, every one but the last
      fully successful, so no tile after a failing batch is ever touched.
      The run succeeds exactly when every tile of the queue does. */
  method ProcessQueue(queue: seq<Tile>, batchSize: int, process: Tile -> bool)
    returns (ok: bool, ghost started: seq<seq<Tile>>)
    requires batchSize >= 1
    ensures |started| <= |Batches(queue, batchSize)| && started == Batches(queue, batchSize)[..|started|]
    ensures forall k :: 0 <= k < |started| - 1 ==> AllSucceed(started[k], process)
    ensures ok ==> started == Batches(queue, batchSize)
    ensures !ok ==> started != [] && !AllSucceed(started[|started| - 1], process)
    ensures ok <==> AllSucceed(queue, process)
  {
    ok := true;
    started := [];
    var i := 0;
    while i < |queue|
      invariant i >= 0
      invariant started + BatchesFrom(queue, batchSize, i) == Batches(queue, batchSize)
      invariant forall k :: 0 <= k < |started| ==> AllSucceed(started[k], process)
      invariant i <= |queue| ==> Flatten(started) == queue[..i]
      invariant i > |queue| ==> Flatten(started) == queue
      decreases |queue| - i
    {
      var batch := queue[i..Min(i + batchSize, |queue|)];
      ghost var before := started;
      started := started + [batch];
      BatchStep(queue, batchSize, i, before, started);
      PrefixOfConcat(started, BatchesFrom(queue, batchSize, i + batchSize), Batches(queue, batchSize));
      if !AllSucceed(batch, process) {
        ok := false;
        assert started[|started| - 1] == batch;
        FailingBatch(queue, i, Min(i + batchSize, |queue|), process);
        return;
      }
      SnocAllSucceed(before, batch, process);
      i := i + batchSize;
    }
    AllBatchesStarted(queue, batchSize, i, started, process);
  }

  /** Once the loop has passed the end of the queue, every batch has been
      started, and all of them succeeding means every tile did. */
  lemma {:induction false} AllBatchesStarted(queue: seq<Tile>, batchSize: int, i: nat,
                                             started: seq<seq<Tile>>, process: Tile -> bool)
    requires batchSize >= 1 && i >= |queue|
    requires started + BatchesFrom(queue, batchSize, i) == Batches(queue, batchSize)
    requires forall k :: 0 <= k < |started| ==> AllSucceed(started[k], process)
    requires i <= |queue| ==> Flatten(started) == queue[..i]
    requires i > |queue| ==> Flatten(started) == queue
    ensures started == Batches(queue, batchSize)
    ensures AllSucceed(queue, process)
  {
    assert BatchesFrom(queue, batchSize, i) == [];
    assert started + [] == started;
    assert Flatten(started) == queue by {
      if i == |queue| {
        assert queue[..i] == queue;
      }
    }
    AllSucceedFlatten(started, process);
  }

  /** Starting the batch at `i` keeps the loop's bookkeeping: the batches
      started so far are followed by those still to come, and put back
      together they are the queue up to the next start. */
  lemma {:induction false} BatchStep(queue: seq<Tile>, batchSize: int, i: nat,
                                     started: seq<seq<Tile>>, next: seq<seq<Tile>>)
    requires batchSize >= 1 && i < |queue|
    requires started + BatchesFrom(queue, batchSize, i) == Batches(queue, batchSize)
    requires Flatten(started) == queue[..i]
    requires next == started + [queue[i..Min(i + batchSize, |queue|)]]
    ensures next + BatchesFrom(queue, batchSize, i + batchSize) == Batches(queue, batchSize)
    ensures i + batchSize <= |queue| ==> Flatten(next) == queue[..i + batchSize]
    ensures i + batchSize > |queue| ==> Flatten(next) == queue
  {
    var j := Min(i + batchSize, |queue|);
    var batch := queue[i..j];
    var rest := BatchesFrom(queue, batchSize, i + batchSize);
    assert BatchesFrom(queue, batchSize, i) == [batch] + rest;
    AppendAssoc(started, [batch], rest);
    FlattenSnoc(started, batch);
    assert queue[..j] == queue[..i] + batch;
    assert j == |queue| ==> queue[..j] == queue;
  }

  /** One more successful batch keeps every started batch successful. */
  lemma {:induction false} SnocAllSucceed(bs: seq<seq<Tile>>, b: seq<Tile>, process: Tile -> bool)
    requires forall k :: 0 <= k < |bs| ==> AllSucceed(bs[k], process)
    requires AllSucceed(b, process)
    ensures forall k :: 0 <= k < |bs + [b]| ==> AllSucceed((bs + [b])[k], process)
  {
    assert forall k :: 0 <= k < |bs| ==> (bs + [b])[k] == bs[k];
  }

  /** A sequence followed by another is a prefix of their concatenation. */
  lemma {:induction false} PrefixOfConcat<T>(a: seq<T>, b: seq<T>, c: seq<T>)
    requires a + b == c
    ensures |a| <= |c| && a == c[..|a|]
  {
    assert c[..|a|] == (a + b)[..|a|];
  }

  /** A tile of the queue that fails makes the whole queue fail. */
  lemma {:induction false} FailingBatch(queue: seq<Tile>, i: nat, j: nat, process: Tile -> bool)
    requires i <= j <= |queue| && !AllSucceed(queue[i..j], process)
    ensures !AllSucceed(queue, process)
  {
    var k :| 0 <= k < j - i && !process(queue[i..j][k]);
    assert queue[i..j][k] == queue[i + k];
  }

  lemma {:induction false} FlattenSnoc(bs: seq<seq<Tile>>, b: seq<Tile>)
    ensures Flatten(bs + [b]) == Flatten(bs) + b
  {
    if bs == [] {
      assert [b][1..] == [];
      assert Flatten([b]) == b + [];
    } else {
      assert (bs + [b])[1..] == bs[1..] + [b];
      FlattenSnoc(bs[1..], b);
    }
  }

  // ---------------------------------------------------------------------
  // Per-tile path and options
  // ---------------------------------------------------------------------

  /** The file a tile is written to: `<outputDir>/<z>/<x>/<y>.pbf`. */
  function TilePath(outputDir: string, t: Tile): string
  {
    outputDir + "/" + IntToString(t.z) + "/" + IntToString(t.x) + "/" + IntToString(t.y) + ".pbf"
  }

  /** The path names its tile: the URL reader recovers `z`, `x` and `y` from it. */
  lemma {:induction false} TilePathNamesTile(outputDir: string, t: Tile)
    ensures ExtractZXYFromUrlTrim(TilePath(outputDir, t)) == Some(ZXY(t.z, t.x, t.y))
  {
    ExtractRoundTrip(outputDir, t.z, t.x, t.y, ".pbf");
  }

  /** Different tiles of one run go to different files. */
  lemma {:induction false} TilePathInjective(outputDir: string, a: Tile, b: Tile)
    ensures TilePath(outputDir, a) == TilePath(outputDir, b) <==> a == b
  {
    TilePathNamesTile(outputDir, a);
    TilePathNamesTile(outputDir, b);
  }

  /** What `processTile` computes before fetching: the output path and the
      options of the tile's zoom. A fixed level list is used as it is; a
      threshold table is resolved at the tile's zoom. `entryOrder` is the
      table's key order under `Object.entries`. */
  method PlanTile(options: ContourOptions, entryOrder: seq<int>, outputDir: string, v: Tile)
    returns (filePath: string, tileOptions: ContourOptions)
    requires options.spec.Thresholds? ==>
      NoDuplicates(entryOrder) && forall k :: k in entryOrder <==> k in options.spec.table
    ensures filePath == TilePath(outputDir, v)
    ensures options.spec.Levels? ==> tileOptions == options
    ensures options.spec.Thresholds? ==>
      tileOptions == options.(spec := Levels(ResolveLevels(options.spec.table, v.z)))
  {
    var z, x, y := v.z, v.x, v.y;
    filePath := outputDir + "/" + IntToString(z) + "/" + IntToString(x) + "/" + IntToString(y) + ".pbf";
    tileOptions := options;
    if options.spec.Thresholds? {
      tileOptions := GetOptionsForZoom(options, z, entryOrder);
    }
  }
}
