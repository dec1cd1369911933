/**
 * The integer parts of LinearClustering (Gorgon.BCnEncoder.NET/Shared/LinearClustering.cs):
 * the argument guard of ClusterPixels and the connectivity pass that
 * relabels the superpixel map so that every label is a 4-connected region
 * of reasonable size.
 *
 * Labels live in a flat array, pixel (x, y) at x + y * width; -1 in the new
 * map means "not visited yet".
 */
module LinearClustering {
  import opened Results
  import opened Grids
  import Bc7Clusters

  /** ClusterPixels' guard: fewer than two clusters throws ArgumentException before any work. */
  function CheckClusterCount(clusters: int): (r: Result<int>)
    ensures r.Failure? <==> clusters < 2
    ensures r.Failure? ==> r.error == ArgumentException
    ensures r.Success? ==> r.value == clusters && r.value > 0
  {
    if clusters < 2 then Failure(ArgumentException) else Success(clusters)
  }

  /** neighborX and neighborY: left, up, right, down. */
  const NEIGHBOR_X: seq<int> := [-1, 0, 1, 0]
  const NEIGHBOR_Y: seq<int> := [0, -1, 0, 1]

  /** (x2, y2) is one of the four neighbours of (x1, y1). */
  predicate Adjacent(x1: int, y1: int, x2: int, y2: int)
  {
    (x2 == x1 && (y2 == y1 - 1 || y2 == y1 + 1)) || (y2 == y1 && (x2 == x1 - 1 || x2 == x1 + 1))
  }

  /** The neighbour tables name exactly the four neighbours. */
  lemma NeighborsAdjacent(x: int, y: int, i: int)
    requires 0 <= i < 4
    ensures Adjacent(x, y, x + NEIGHBOR_X[i], y + NEIGHBOR_Y[i])
  {
  }

  /**
   * Whether the neighbour i of (x, y) is settled: outside the grid, of a
   * different old label, or no longer -1 in the new map.
   */
  ghost predicate NeighborSettled(oldMap: seq<int>, cur: seq<int>, width: int, height: int, seedLabel: int, x: int, y: int, i: int)
    requires 0 <= i < 4 && |oldMap| == |cur|
  {
    var nx, ny := x + NEIGHBOR_X[i], y + NEIGHBOR_Y[i];
    InGrid(nx, ny, width, height) && 0 <= Index(nx, ny, width) < |cur| && oldMap[Index(nx, ny, width)] == seedLabel ==>
      cur[Index(nx, ny, width)] != -1
  }

  /**
   * The cluster a flood fill from a seed has grown so far: the seed first,
   * each later pixel an unvisited 4-neighbour of an earlier one (its
   * parent) with the seed's old label, no pixel twice, every cluster pixel
   * labelled, and nothing outside the cluster changed since the start.
   */
  ghost predicate ClusterShape(oldMap: seq<int>, start: seq<int>, cur: seq<int>, width: int, height: int, seedLabel: int,
                               cx: seq<int>, cy: seq<int>, cells: seq<int>, parents: seq<int>)
  {
    |oldMap| == |start| == |cur| &&
    |cx| == |cy| == |cells| == |parents| >= 1 &&
    (forall k :: 0 <= k < |cells| ==>
       InGrid(cx[k], cy[k], width, height) && cells[k] == Index(cx[k], cy[k], width) && 0 <= cells[k] < |cur| &&
       oldMap[cells[k]] == seedLabel && cur[cells[k]] == seedLabel) &&
    (forall k :: 1 <= k < |cells| ==>
       start[cells[k]] == -1 && 0 <= parents[k] < k && Adjacent(cx[parents[k]], cy[parents[k]], cx[k], cy[k])) &&
    Bc7Clusters.Distinct(cells) &&
    (forall p :: 0 <= p < |cur| && p !in cells ==> cur[p] == start[p])
  }

  /** Every neighbour of the first n cluster pixels, and the first d neighbours of pixel n, is settled. */
  ghost predicate ClosedUpTo(oldMap: seq<int>, cur: seq<int>, width: int, height: int, seedLabel: int,
                             cx: seq<int>, cy: seq<int>, n: int, d: int)
    requires |oldMap| == |cur| && |cx| == |cy| && 0 <= n <= |cx| && 0 <= d <= 4
  {
    (forall k, i :: 0 <= k < n && 0 <= i < 4 ==> NeighborSettled(oldMap, cur, width, height, seedLabel, cx[k], cy[k], i)) &&
    (n < |cx| ==> forall i :: 0 <= i < d ==> NeighborSettled(oldMap, cur, width, height, seedLabel, cx[n], cy[n], i))
  }

  /** A sequence of distinct indices into a range of n values holds at most n of them. */
  lemma DistinctBounded(cells: seq<int>, n: nat)
    requires Bc7Clusters.Distinct(cells) && forall k :: 0 <= k < |cells| ==> 0 <= cells[k] < n
    ensures |cells| <= n
  {
    Bc7Clusters.DistinctCount(cells);
    assert Bc7Clusters.Values(cells) <= Range(n);
    SubsetSize(Bc7Clusters.Values(cells), Range(n));
  }

  /** The indices 0 .. n - 1. */
  function Range(n: nat): (r: set<int>)
    ensures forall p :: p in r <==> 0 <= p < n
    ensures |r| == n
  {
    if n == 0 then {} else Range(n - 1) + {n - 1}
  }

  lemma SubsetSize(a: set<int>, b: set<int>)
    requires a <= b
    ensures |a| <= |b|
  {
    assert b == a + (b - a);
  }

  /**
   * The flood fill of the connectivity pass: from a seed already given its old label, every unvisited
   * 4-neighbour of a cluster pixel with the same old seedLabel joins the
   * cluster and is labelled, until no cluster pixel has such a neighbour.
   */
  method GrowCluster(oldLabels: array<int>, newLabels: array<int>, width: int, height: int, x: int, y: int)
    returns (clusterX: seq<int>, clusterY: seq<int>, ghost cells: seq<int>, ghost parents: seq<int>)
    requires oldLabels != newLabels && oldLabels.Length == newLabels.Length == width * height
    requires InGrid(x, y, width, height)
    requires 0 <= Index(x, y, width) < newLabels.Length
    requires oldLabels[Index(x, y, width)] >= 0 && newLabels[Index(x, y, width)] == oldLabels[Index(x, y, width)]
    modifies newLabels
    ensures ClusterShape(oldLabels[..], old(newLabels[..]), newLabels[..], width, height, oldLabels[Index(x, y, width)],
                         clusterX, clusterY, cells, parents)
    ensures clusterX[0] == x && clusterY[0] == y
    ensures ClosedUpTo(oldLabels[..], newLabels[..], width, height, oldLabels[Index(x, y, width)], clusterX, clusterY, |clusterX|, 0)
  {
    var seedLabel := oldLabels[Index(x, y, width)];
    ghost var oldMap, start := oldLabels[..], newLabels[..];
    clusterX, clusterY := [x], [y];
    cells, parents := [Index(x, y, width)], [0];
    var c := 0;
    while c < |clusterX|
      invariant ClusterShape(oldMap, start, newLabels[..], width, height, seedLabel, clusterX, clusterY, cells, parents)
      invariant 0 <= c <= |clusterX| && clusterX[0] == x && clusterY[0] == y
      invariant ClosedUpTo(oldMap, newLabels[..], width, height, seedLabel, clusterX, clusterY, c, 0)
      invariant |cells| <= newLabels.Length
      decreases newLabels.Length - |cells|, |clusterX| - c
    {
      ghost var before := |cells|;
      for i := 0 to 4
        invariant ClusterShape(oldMap, start, newLabels[..], width, height, seedLabel, clusterX, clusterY, cells, parents)
        invariant |cells| >= before && c < |clusterX| && clusterX[0] == x && clusterY[0] == y
        invariant ClosedUpTo(oldMap, newLabels[..], width, height, seedLabel, clusterX, clusterY, c, i)
      {
        clusterX, clusterY, cells, parents :=
          VisitNeighbor(oldLabels, newLabels, width, height, seedLabel, clusterX, clusterY, cells, parents, oldMap, start, c, i);
      }
      ClosedNext(oldMap, newLabels[..], width, height, seedLabel, clusterX, clusterY, c);
      DistinctBounded(cells, newLabels.Length);
      c := c + 1;
    }
  }

  /** One neighbour of cluster pixel c: joins the cluster when unvisited and of the seed's old label. */
  method VisitNeighbor(oldLabels: array<int>, newLabels: array<int>, width: int, height: int, seedLabel: int,
                       clusterX: seq<int>, clusterY: seq<int>, ghost cells: seq<int>, ghost parents: seq<int>,
                       ghost oldMap: seq<int>, ghost start: seq<int>, c: int, i: int)
    returns (clusterX': seq<int>, clusterY': seq<int>, ghost cells': seq<int>, ghost parents': seq<int>)
    requires oldLabels != newLabels && oldLabels[..] == oldMap && seedLabel >= 0 && 0 <= i < 4
    requires newLabels.Length == width * height
    requires ClusterShape(oldMap, start, newLabels[..], width, height, seedLabel, clusterX, clusterY, cells, parents)
    requires 0 <= c < |clusterX| && ClosedUpTo(oldMap, newLabels[..], width, height, seedLabel, clusterX, clusterY, c, i)
    modifies newLabels
    ensures ClusterShape(oldMap, start, newLabels[..], width, height, seedLabel, clusterX', clusterY', cells', parents')
    ensures |cells'| >= |cells| && clusterX' == clusterX + clusterX'[|clusterX|..] && clusterY' == clusterY + clusterY'[|clusterY|..]
    ensures ClosedUpTo(oldMap, newLabels[..], width, height, seedLabel, clusterX', clusterY', c, i + 1)
  {
    clusterX', clusterY', cells', parents' := clusterX, clusterY, cells, parents;
    var nX := clusterX[c] + NEIGHBOR_X[i];
    var nY := clusterY[c] + NEIGHBOR_Y[i];
    var nI := nX + nY * width;
    if nX < width && nX >= 0 && nY < height && nY >= 0 {
      IndexInRange(nX, nY, width, height);
      if newLabels[nI] == -1 && seedLabel == oldLabels[nI] {
        clusterX', clusterY', cells', parents' :=
          JoinCluster(oldLabels, newLabels, width, height, seedLabel, clusterX, clusterY, cells, parents, oldMap, start, c, i);
      }
    }
    assert NeighborSettled(oldMap, newLabels[..], width, height, seedLabel, clusterX'[c], clusterY'[c], i);
    ClosedStep(oldMap, newLabels[..], width, height, seedLabel, clusterX', clusterY', c, i);
  }

  /** Neighbour i of cluster pixel c is unvisited and of the seed's old label: label it and append it to the cluster. */
  method JoinCluster(oldLabels: array<int>, newLabels: array<int>, width: int, height: int, seedLabel: int,
                     clusterX: seq<int>, clusterY: seq<int>, ghost cells: seq<int>, ghost parents: seq<int>,
                     ghost oldMap: seq<int>, ghost start: seq<int>, c: int, i: int)
    returns (clusterX': seq<int>, clusterY': seq<int>, ghost cells': seq<int>, ghost parents': seq<int>)
    requires oldLabels != newLabels && oldLabels[..] == oldMap && seedLabel >= 0 && 0 <= i < 4
    requires newLabels.Length == width * height
    requires ClusterShape(oldMap, start, newLabels[..], width, height, seedLabel, clusterX, clusterY, cells, parents)
    requires 0 <= c < |clusterX| && ClosedUpTo(oldMap, newLabels[..], width, height, seedLabel, clusterX, clusterY, c, i)
    requires InGrid(clusterX[c] + NEIGHBOR_X[i], clusterY[c] + NEIGHBOR_Y[i], width, height)
    requires var nI := Index(clusterX[c] + NEIGHBOR_X[i], clusterY[c] + NEIGHBOR_Y[i], width);
      0 <= nI < newLabels.Length && newLabels[nI] == -1 && oldLabels[nI] == seedLabel
    modifies newLabels
    ensures var nX, nY := clusterX[c] + NEIGHBOR_X[i], clusterY[c] + NEIGHBOR_Y[i];
      clusterX' == clusterX + [nX] && clusterY' == clusterY + [nY] &&
      newLabels[..] == old(newLabels[..])[Index(nX, nY, width) := seedLabel]
    ensures |cells'| >= |cells|
    ensures ClusterShape(oldMap, start, newLabels[..], width, height, seedLabel, clusterX', clusterY', cells', parents')
    ensures ClosedUpTo(oldMap, newLabels[..], width, height, seedLabel, clusterX', clusterY', c, i)
  {
    var nX := clusterX[c] + NEIGHBOR_X[i];
    var nY := clusterY[c] + NEIGHBOR_Y[i];
    var nI := nX + nY * width;
    NeighborsAdjacent(clusterX[c], clusterY[c], i);
    AddToCluster(oldMap, start, newLabels[..], width, height, seedLabel, clusterX, clusterY, cells, parents, c, nX, nY);
    ghost var cur := newLabels[..];
    newLabels[nI] := seedLabel;
    assert newLabels[..] == cur[nI := seedLabel];
    ClosedGrows(oldMap, cur, newLabels[..], width, height, seedLabel, clusterX, clusterY, nX, nY, c, i);
    clusterX', clusterY' := clusterX + [nX], clusterY + [nY];
    cells', parents' := cells + [nI], parents + [c];
  }

  /** Settling neighbour d of cluster pixel n extends the closed prefix by one neighbour. */
  lemma ClosedStep(oldMap: seq<int>, cur: seq<int>, width: int, height: int, seedLabel: int,
                   cx: seq<int>, cy: seq<int>, n: int, d: int)
    requires |oldMap| == |cur| && |cx| == |cy| && 0 <= n < |cx| && 0 <= d < 4
    requires ClosedUpTo(oldMap, cur, width, height, seedLabel, cx, cy, n, d)
    requires NeighborSettled(oldMap, cur, width, height, seedLabel, cx[n], cy[n], d)
    ensures ClosedUpTo(oldMap, cur, width, height, seedLabel, cx, cy, n, d + 1)
  {
  }

  /** Labelling an unvisited neighbour of the seed's old seedLabel and appending it keeps the cluster's shape. */
  lemma AddToCluster(oldMap: seq<int>, start: seq<int>, cur: seq<int>, width: int, height: int, seedLabel: int,
                     cx: seq<int>, cy: seq<int>, cells: seq<int>, parents: seq<int>, c: int, nx: int, ny: int)
    requires ClusterShape(oldMap, start, cur, width, height, seedLabel, cx, cy, cells, parents)
    requires 0 <= c < |cx| && Adjacent(cx[c], cy[c], nx, ny) && InGrid(nx, ny, width, height)
    requires 0 <= Index(nx, ny, width) < |cur| && cur[Index(nx, ny, width)] == -1 && oldMap[Index(nx, ny, width)] == seedLabel
    requires seedLabel >= 0
    ensures ClusterShape(oldMap, start, cur[Index(nx, ny, width) := seedLabel], width, height, seedLabel,
                         cx + [nx], cy + [ny], cells + [Index(nx, ny, width)], parents + [c])
    ensures Index(nx, ny, width) !in cells
  {
    var nI := Index(nx, ny, width);
    forall k | 0 <= k < |cells|
      ensures cells[k] != nI
    {
      assert cur[cells[k]] == seedLabel;
    }
    Bc7Clusters.DistinctAppend(cells, nI);
  }

  /** Labelling more pixels never unsettles a neighbour, and growing the cluster keeps the pixels already closed. */
  lemma ClosedGrows(oldMap: seq<int>, cur: seq<int>, next: seq<int>, width: int, height: int, seedLabel: int,
                    cx: seq<int>, cy: seq<int>, nx: int, ny: int, n: int, d: int)
    requires |oldMap| == |cur| == |next| && |cx| == |cy| && 0 <= n < |cx| && 0 <= d <= 4
    requires forall p :: 0 <= p < |cur| && cur[p] != -1 ==> next[p] != -1
    requires ClosedUpTo(oldMap, cur, width, height, seedLabel, cx, cy, n, d)
    ensures ClosedUpTo(oldMap, next, width, height, seedLabel, cx + [nx], cy + [ny], n, d)
  {
    forall k, i | 0 <= k < n && 0 <= i < 4
      ensures NeighborSettled(oldMap, next, width, height, seedLabel, (cx + [nx])[k], (cy + [ny])[k], i)
    {
      assert NeighborSettled(oldMap, cur, width, height, seedLabel, cx[k], cy[k], i);
    }
    forall i | 0 <= i < d
      ensures NeighborSettled(oldMap, next, width, height, seedLabel, (cx + [nx])[n], (cy + [ny])[n], i)
    {
      assert NeighborSettled(oldMap, cur, width, height, seedLabel, cx[n], cy[n], i);
    }
  }

  /** Settling the fourth neighbour of pixel n closes pixel n. */
  lemma ClosedNext(oldMap: seq<int>, cur: seq<int>, width: int, height: int, seedLabel: int,
                   cx: seq<int>, cy: seq<int>, n: int)
    requires |oldMap| == |cur| && |cx| == |cy| && 0 <= n < |cx|
    requires ClosedUpTo(oldMap, cur, width, height, seedLabel, cx, cy, n, 4)
    ensures ClosedUpTo(oldMap, cur, width, height, seedLabel, cx, cy, n + 1, 0)
  {
    forall k, i | 0 <= k < n + 1 && 0 <= i < 4
      ensures NeighborSettled(oldMap, cur, width, height, seedLabel, cx[k], cy[k], i)
    {
    }
  }

  /** The label of neighbour i of (x, y) in the new map, or -1 when that neighbour lies outside the grid. */
  function NeighborLabel(cur: seq<int>, width: int, height: int, x: int, y: int, i: int): int
    requires 0 <= i < 4
  {
    var nx, ny := x + NEIGHBOR_X[i], y + NEIGHBOR_Y[i];
    if InGrid(nx, ny, width, height) && 0 <= Index(nx, ny, width) < |cur| then cur[Index(nx, ny, width)] else -1
  }

  /**
   * The label a new cluster would merge into: the label of the first of
   * its neighbours, from i on, that already belongs to a finished cluster,
   * or the fallback (the previous cluster's choice) when none does.
   */
  function FirstLabelled(cur: seq<int>, width: int, height: int, x: int, y: int, i: nat, fallback: int): (r: int)
    requires i <= 4
    ensures (forall j :: i <= j < 4 ==> NeighborLabel(cur, width, height, x, y, j) < 0) ==> r == fallback
    ensures r == fallback || (r >= 0 && exists j :: i <= j < 4 && NeighborLabel(cur, width, height, x, y, j) == r)
    decreases 4 - i
  {
    if i == 4 then fallback
    else if NeighborLabel(cur, width, height, x, y, i) >= 0 then NeighborLabel(cur, width, height, x, y, i)
    else FirstLabelled(cur, width, height, x, y, i + 1, fallback)
  }

  /** When some neighbour from i on is labelled, the merge target is the label of the first such neighbour. */
  lemma {:induction false} FirstLabelledIsFirst(cur: seq<int>, width: int, height: int, x: int, y: int, i: nat, fallback: int, j: int)
    requires i <= j < 4 && NeighborLabel(cur, width, height, x, y, j) >= 0
    requires forall k :: i <= k < j ==> NeighborLabel(cur, width, height, x, y, k) < 0
    ensures FirstLabelled(cur, width, height, x, y, i, fallback) == NeighborLabel(cur, width, height, x, y, j)
    decreases 4 - i
  {
    if i < j {
      FirstLabelledIsFirst(cur, width, height, x, y, i + 1, fallback, j);
    }
  }

  /** The merge target is the fallback or a label already in the map, so it stays among the cluster labels. */
  lemma FirstLabelledInRange(cur: seq<int>, width: int, height: int, x: int, y: int, fallback: int, clusters: int)
    requires 0 <= fallback < clusters
    requires forall p :: 0 <= p < |cur| ==> cur[p] < clusters
    ensures 0 <= FirstLabelled(cur, width, height, x, y, 0, fallback) < clusters
  {
    var r := FirstLabelled(cur, width, height, x, y, 0, fallback);
    if r != fallback {
      var j :| 0 <= j < 4 && NeighborLabel(cur, width, height, x, y, j) == r;
    }
  }

  /** The search for an already finished neighbour ("Search neighbors for already completed clusters"). */
  method FindAdjacentLabel(newLabels: array<int>, width: int, height: int, x: int, y: int, fallback: int)
    returns (adjacent: int)
    ensures adjacent == FirstLabelled(newLabels[..], width, height, x, y, 0, fallback)
  {
    adjacent := fallback;
    var i := 0;
    while i < 4
      invariant 0 <= i <= 4
      invariant FirstLabelled(newLabels[..], width, height, x, y, 0, fallback) == FirstLabelled(newLabels[..], width, height, x, y, i, fallback)
    {
      var nX := x + NEIGHBOR_X[i];
      var nY := y + NEIGHBOR_Y[i];
      var nI := nX + nY * width;
      if nX < width && nX >= 0 && nY < height && nY >= 0 && 0 <= nI < newLabels.Length {
        if newLabels[nI] >= 0 {
          adjacent := newLabels[nI];
          return;
        }
      }
      i := i + 1;
    }
  }

  /** The map with every pixel of the cluster given the label v. */
  function Relabel(s: seq<int>, cells: seq<int>, v: int): seq<int>
  {
    seq(|s|, p requires 0 <= p < |s| => if p in cells then v else s[p])
  }

  /**
   * The end of one cluster: a cluster smaller than a quarter of the mean
   * cluster size, or one whose label an earlier cluster already kept,
   * merges into the adjacent label; otherwise its label is marked as used.
   * Looking up a label at or beyond the number of clusters fails as the
   * span indexer does (the size test comes first, so a small cluster never
   * looks its label up).
   */
  method SettleCluster(newLabels: array<int>, usedLabels: array<bool>, width: int, clusterX: seq<int>, clusterY: seq<int>,
                       ghost cells: seq<int>, seedLabel: int, adjacentLabel: int, sSquared: int)
    returns (ok: bool)
    requires |clusterX| == |clusterY| == |cells| && seedLabel >= 0
    requires forall k :: 0 <= k < |cells| ==> cells[k] == clusterX[k] + clusterY[k] * width && 0 <= cells[k] < newLabels.Length
    modifies newLabels, usedLabels
    ensures ok <==> |clusterX| < sSquared / 4 || seedLabel < usedLabels.Length
    ensures ok && (|clusterX| < sSquared / 4 || old(usedLabels[seedLabel])) ==>
      newLabels[..] == Relabel(old(newLabels[..]), cells, adjacentLabel) && usedLabels[..] == old(usedLabels[..])
    ensures ok && !(|clusterX| < sSquared / 4 || old(usedLabels[seedLabel])) ==>
      newLabels[..] == old(newLabels[..]) && usedLabels[..] == old(usedLabels[..])[seedLabel := true]
    ensures !ok ==> newLabels[..] == old(newLabels[..]) && usedLabels[..] == old(usedLabels[..])
  {
    if |clusterX| >= sSquared / 4 && seedLabel >= usedLabels.Length {
      return false;
    }
    ok := true;
    if |clusterX| < sSquared / 4 || usedLabels[seedLabel] {
      ghost var before := newLabels[..];
      for i := 0 to |clusterX|
        invariant forall p :: 0 <= p < newLabels.Length ==> newLabels[p] == if p in cells[..i] then adjacentLabel else before[p]
        modifies newLabels
      {
        assert cells[..i + 1] == cells[..i] + [cells[i]];
        newLabels[clusterY[i] * width + clusterX[i]] := adjacentLabel;
      }
      assert cells[..|clusterX|] == cells;
      assert newLabels[..] == Relabel(before, cells, adjacentLabel);
    } else {
      usedLabels[seedLabel] := true;
    }
  }

  /** Every entry of the map is -1 or a label in [0, clusters), and the first done entries are not -1. */
  ghost predicate Settled(s: seq<int>, clusters: int, done: int)
  {
    (forall p :: 0 <= p < |s| ==> s[p] == -1 || 0 <= s[p] < clusters) &&
    (forall p :: 0 <= p < done && p < |s| ==> s[p] >= 0)
  }

  /**
   * One pixel of the row-by-row scan: when not yet visited, it seeds a new
   * cluster, which is grown and then kept or merged.
   */
  method VisitPixel(oldLabels: array<int>, newLabels: array<int>, usedLabels: array<bool>, width: int, height: int,
                    clusters: int, sSquared: int, x: int, y: int, adjacentLabel: int)
    returns (ok: bool, adjacent: int)
    requires oldLabels != newLabels && oldLabels.Length == newLabels.Length == width * height && usedLabels.Length == clusters
    requires forall p :: 0 <= p < oldLabels.Length ==> oldLabels[p] >= 0
    requires InGrid(x, y, width, height) && 0 <= Index(x, y, width) < newLabels.Length && 0 <= adjacentLabel < clusters
    requires Settled(newLabels[..], clusters, Index(x, y, width))
    modifies newLabels, usedLabels
    ensures ok ==> Settled(newLabels[..], clusters, Index(x, y, width) + 1) && 0 <= adjacent < clusters
    ensures !ok ==> oldLabels[Index(x, y, width)] >= clusters
  {
    ok, adjacent := true, adjacentLabel;
    var xyIndex := x + y * width;
    if newLabels[xyIndex] < 0 {
      ghost var pre := newLabels[..];
      adjacent := SeedCluster(oldLabels, newLabels, width, height, clusters, x, y, adjacentLabel);
      ok := GrowAndSettle(oldLabels, newLabels, usedLabels, width, height, clusters, sSquared, x, y, adjacent, pre);
    }
  }

  /** Gives a fresh seed its old label and picks the label a small cluster would merge into. */
  method SeedCluster(oldLabels: array<int>, newLabels: array<int>, width: int, height: int, clusters: int,
                     x: int, y: int, adjacentLabel: int)
    returns (adjacent: int)
    requires oldLabels != newLabels && newLabels.Length == width * height && InGrid(x, y, width, height)
    requires 0 <= Index(x, y, width) < newLabels.Length == oldLabels.Length && 0 <= adjacentLabel < clusters
    requires forall p :: 0 <= p < newLabels.Length ==> newLabels[p] < clusters
    modifies newLabels
    ensures newLabels[..] == old(newLabels[..])[Index(x, y, width) := oldLabels[Index(x, y, width)]]
    ensures adjacent == FirstLabelled(old(newLabels[..]), width, height, x, y, 0, adjacentLabel)
    ensures 0 <= adjacent < clusters
  {
    var xyIndex := x + y * width;
    newLabels[xyIndex] := oldLabels[xyIndex];
    ghost var cur := newLabels[..];
    FirstLabelledInRange(old(newLabels[..]), width, height, x, y, adjacentLabel, clusters);
    adjacent := FindAdjacentLabel(newLabels, width, height, x, y, adjacentLabel);
    NeighborsSkipSeed(old(newLabels[..]), cur, width, height, x, y, adjacentLabel);
  }

  /** The seed is not its own neighbour, so labelling it does not change the merge target. */
  lemma NeighborsSkipSeed(pre: seq<int>, cur: seq<int>, width: int, height: int, x: int, y: int, fallback: int)
    requires InGrid(x, y, width, height) && |pre| == width * height && 0 <= Index(x, y, width) < |pre|
    requires |cur| == |pre| && cur == pre[Index(x, y, width) := cur[Index(x, y, width)]]
    ensures FirstLabelled(cur, width, height, x, y, 0, fallback) == FirstLabelled(pre, width, height, x, y, 0, fallback)
  {
    forall j | 0 <= j < 4
      ensures NeighborLabel(cur, width, height, x, y, j) == NeighborLabel(pre, width, height, x, y, j)
    {
      var nx, ny := x + NEIGHBOR_X[j], y + NEIGHBOR_Y[j];
      if InGrid(nx, ny, width, height) {
        IndexInRange(nx, ny, width, height);
        assert Index(nx, ny, width) != Index(x, y, width) by { IndexDistinct(x, y, nx, ny, width); }
      }
    }
    assert FirstLabelled(cur, width, height, x, y, 3, fallback) == FirstLabelled(pre, width, height, x, y, 3, fallback);
    assert FirstLabelled(cur, width, height, x, y, 2, fallback) == FirstLabelled(pre, width, height, x, y, 2, fallback);
    assert FirstLabelled(cur, width, height, x, y, 1, fallback) == FirstLabelled(pre, width, height, x, y, 1, fallback);
  }

  /** Grows the cluster of a freshly seeded pixel and keeps or merges it. */
  method GrowAndSettle(oldLabels: array<int>, newLabels: array<int>, usedLabels: array<bool>, width: int, height: int,
                       clusters: int, sSquared: int, x: int, y: int, adjacent: int, ghost pre: seq<int>)
    returns (ok: bool)
    requires oldLabels != newLabels && oldLabels.Length == newLabels.Length == width * height && usedLabels.Length == clusters
    requires forall p :: 0 <= p < oldLabels.Length ==> oldLabels[p] >= 0
    requires InGrid(x, y, width, height) && 0 <= Index(x, y, width) < newLabels.Length && 0 <= adjacent < clusters
    requires Settled(pre, clusters, Index(x, y, width)) && |pre| == newLabels.Length && pre[Index(x, y, width)] < 0
    requires newLabels[..] == pre[Index(x, y, width) := oldLabels[Index(x, y, width)]]
    modifies newLabels, usedLabels
    ensures ok ==> Settled(newLabels[..], clusters, Index(x, y, width) + 1)
    ensures !ok ==> oldLabels[Index(x, y, width)] >= clusters
  {
    var xyIndex := x + y * width;
    var seedLabel := oldLabels[xyIndex];
    ghost var start := newLabels[..];
    var clusterX, clusterY, cells, parents := GrowCluster(oldLabels, newLabels, width, height, x, y);
    ghost var cur := newLabels[..];
    ok := SettleCluster(newLabels, usedLabels, width, clusterX, clusterY, cells, seedLabel, adjacent, sSquared);
    if ok {
      SettleKeeps(oldLabels[..], pre, start, cur, newLabels[..], width, height, clusterX, clusterY, cells, parents,
                  xyIndex, seedLabel, adjacent, clusters);
    }
  }

  /** A settled cluster leaves the map settled one pixel further. */
  lemma SettleKeeps(oldMap: seq<int>, pre: seq<int>, start: seq<int>, cur: seq<int>, fin: seq<int>, width: int, height: int,
                    cx: seq<int>, cy: seq<int>, cells: seq<int>, parents: seq<int>,
                    xy: int, seedLabel: int, adjacent: int, clusters: int)
    requires Settled(pre, clusters, xy) && 0 <= xy < |pre| && pre[xy] < 0 && start == pre[xy := seedLabel]
    requires ClusterShape(oldMap, start, cur, width, height, seedLabel, cx, cy, cells, parents) && cells[0] == xy
    requires 0 <= adjacent < clusters
    requires fin == Relabel(cur, cells, adjacent) || (fin == cur && 0 <= seedLabel < clusters)
    ensures Settled(fin, clusters, xy + 1)
  {
    assert xy in cells;
    forall p | 0 <= p < |fin|
      ensures fin[p] == -1 || 0 <= fin[p] < clusters
      ensures p < xy + 1 ==> fin[p] >= 0
    {
      if p !in cells {
        assert cur[p] == start[p];
        if p < xy {
          assert pre[p] >= 0;
        }
      } else {
        var k :| 0 <= k < |cells| && cells[k] == p;
        assert cur[cells[k]] == seedLabel;
      }
    }
  }

  /** The new map before the scan: every pixel unvisited. */
  method Unvisited(n: nat) returns (newLabels: array<int>)
    ensures fresh(newLabels) && newLabels.Length == n
    ensures forall p :: 0 <= p < n ==> newLabels[p] == -1
  {
    newLabels := new int[n];
    for i := 0 to n
      invariant forall p :: 0 <= p < i ==> newLabels[p] == -1
    {
      newLabels[i] := -1;
    }
  }

  /** One row of the scan. */
  method ScanRow(oldLabels: array<int>, newLabels: array<int>, usedLabels: array<bool>, width: int, height: int,
                 clusters: int, sSquared: int, y: int, adjacentLabel: int)
    returns (ok: bool, adjacent: int)
    requires oldLabels != newLabels && oldLabels.Length == newLabels.Length == width * height && usedLabels.Length == clusters
    requires forall p :: 0 <= p < oldLabels.Length ==> oldLabels[p] >= 0
    requires 0 <= y < height && 0 <= adjacentLabel < clusters
    requires Settled(newLabels[..], clusters, y * width)
    modifies newLabels, usedLabels
    ensures ok ==> Settled(newLabels[..], clusters, (y + 1) * width) && 0 <= adjacent < clusters
    ensures !ok ==> exists p :: 0 <= p < oldLabels.Length && oldLabels[p] >= clusters
  {
    ok, adjacent := true, adjacentLabel;
    for x := 0 to width
      invariant Settled(newLabels[..], clusters, x + y * width) && 0 <= adjacent < clusters
    {
      IndexInRange(x, y, width, height);
      ok, adjacent := VisitPixel(oldLabels, newLabels, usedLabels, width, height, clusters, sSquared, x, y, adjacent);
      if !ok {
        return;
      }
    }
    NextRow(y, width, height);
  }

  /**
   * The connectivity pass: visits the pixels row by row, grows a cluster
   * from every pixel not yet visited, and merges small or repeated
   * clusters into an adjacent one. The result holds a label in [0, clusters)
   * for every pixel; the pass fails only when a large cluster carries a
   * label at or beyond the number of clusters.
   */
  method EnforceConnectivity(oldLabels: array<int>, width: int, height: int, clusters: int) returns (result: Result<array<int>>)
    requires width >= 0 && height >= 0 && clusters >= 1 && oldLabels.Length == width * height
    requires forall p :: 0 <= p < oldLabels.Length ==> oldLabels[p] >= 0
    ensures result.Success? ==> fresh(result.value) && result.value.Length == oldLabels.Length
    ensures result.Success? ==> forall p :: 0 <= p < result.value.Length ==> 0 <= result.value[p] < clusters
    ensures result.Failure? ==> result.error == IndexOutOfRangeException
    ensures result.Failure? ==> exists p :: 0 <= p < oldLabels.Length && oldLabels[p] >= clusters
  {
    var sSquared := (width * height) / clusters;
    var adjacentLabel := 0;
    var usedLabels := new bool[clusters](_ => false);
    var newLabels := Unvisited(oldLabels.Length);
    for y := 0 to height
      invariant y * width <= newLabels.Length
      invariant Settled(newLabels[..], clusters, y * width) && 0 <= adjacentLabel < clusters
    {
      var ok;
      ok, adjacentLabel := ScanRow(oldLabels, newLabels, usedLabels, width, height, clusters, sSquared, y, adjacentLabel);
      if !ok {
        return Failure(IndexOutOfRangeException);
      }
      NextRow(y, width, height);
    }
    assert height * width == newLabels.Length;
    result := Success(newLabels);
  }
}
