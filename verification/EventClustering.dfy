/**
 * The event clustering node (scripts/event-clustering-node.js): a DBSCAN over the items that
 * carry an embedding, with a hard cap on cluster size, followed by the assembly of one output
 * item per input item.
 *
 * Points are indices 0 .. n-1. "Point j lies within eps of point p" (cosine distance at most
 * eps) is the oracle `near(p, j)`; the labels array holds 0 for unvisited, -1 for noise and
 * k > 0 for cluster k.
 */
module EventClustering {
  import opened Common
  import SemanticDedupe

  // ------------------------------------------------------------------
  // Neighbourhoods
  // ------------------------------------------------------------------

  /** The indices below k, other than p, that lie within eps of p, in increasing order. */
  function NeighborsBelow(k: nat, p: int, near: (int, int) -> bool): (r: seq<int>)
    ensures forall a :: 0 <= a < |r| ==> 0 <= r[a] < k
    ensures forall a, b :: 0 <= a < b < |r| ==> r[a] < r[b]
  {
    if k == 0 then []
    else NeighborsBelow(k - 1, p, near) + (if k - 1 != p && near(p, k - 1) then [k - 1] else [])
  }

  /** `regionQuery(points, p, eps)` as a value. */
  function Neighbors(n: nat, p: int, near: (int, int) -> bool): seq<int>
  {
    NeighborsBelow(n, p, near)
  }

  /** A neighbourhood holds exactly the other points within eps, each once, in index order. */
  lemma {:induction false} NeighborsIff(k: nat, p: int, near: (int, int) -> bool, j: int)
    ensures j in NeighborsBelow(k, p, near) <==> 0 <= j < k && j != p && near(p, j)
  {
    if k > 0 {
      NeighborsIff(k - 1, p, near, j);
    }
  }

  /** Every listed neighbour is another point within eps. */
  lemma NeighborsSound(n: nat, p: int, near: (int, int) -> bool)
    ensures forall k :: 0 <= k < |Neighbors(n, p, near)| ==>
              Neighbors(n, p, near)[k] != p && near(p, Neighbors(n, p, near)[k])
  {
    forall k | 0 <= k < |Neighbors(n, p, near)|
      ensures Neighbors(n, p, near)[k] != p && near(p, Neighbors(n, p, near)[k])
    {
      NeighborsIff(n, p, near, Neighbors(n, p, near)[k]);
    }
  }

  /** A core point has at least `minPts - 1` neighbours. */
  predicate Core(n: nat, p: int, minPts: int, near: (int, int) -> bool)
  {
    |Neighbors(n, p, near)| >= minPts - 1
  }

  /** The neighbour search: scans every other point. */
  method RegionQuery(n: nat, p: int, near: (int, int) -> bool) returns (neighbors: seq<int>)
    ensures neighbors == Neighbors(n, p, near)
  {
    neighbors := [];
    var i := 0;
    while i < n
      invariant 0 <= i <= n
      invariant neighbors == NeighborsBelow(i, p, near)
    {
      if i == p {
        i := i + 1;
        continue;
      }
      if near(p, i) {
        neighbors := neighbors + [i];
      }
      i := i + 1;
    }
  }

  // ------------------------------------------------------------------
  // Counting labels
  // ------------------------------------------------------------------

  /** The number of points labelled c. */
  function CountLabel(labels: seq<int>, c: int): nat
  {
    if labels == [] then 0
    else CountLabel(labels[..|labels| - 1], c) + (if labels[|labels| - 1] == c then 1 else 0)
  }

  lemma {:induction false} CountLabelUpdate(labels: seq<int>, i: int, v: int, c: int)
    requires 0 <= i < |labels|
    ensures CountLabel(labels[i := v], c)
            == CountLabel(labels, c) - (if labels[i] == c then 1 else 0) + (if v == c then 1 else 0)
  {
    var n := |labels| - 1;
    if i < n {
      CountLabelUpdate(labels[..n], i, v, c);
      assert labels[i := v][..n] == labels[..n][i := v];
    } else {
      assert labels[i := v][..n] == labels[..n];
    }
  }

  lemma {:induction false} CountLabelSame(a: seq<int>, b: seq<int>, c: int)
    requires |a| == |b|
    requires forall i :: 0 <= i < |a| ==> (a[i] == c <==> b[i] == c)
    ensures CountLabel(a, c) == CountLabel(b, c)
  {
    if a != [] {
      CountLabelSame(a[..|a| - 1], b[..|b| - 1], c);
    }
  }

  lemma {:induction false} CountLabelNone(a: seq<int>, c: int)
    requires forall i :: 0 <= i < |a| ==> a[i] != c
    ensures CountLabel(a, c) == 0
  {
    if a != [] {
      CountLabelNone(a[..|a| - 1], c);
    }
  }

  // ------------------------------------------------------------------
  // Cluster expansion
  // ------------------------------------------------------------------

  /** The neighbours not yet visited, in order: what the expansion appends to its queue. */
  function Unvisited(ns: seq<int>, visited: set<int>): (r: seq<int>)
    ensures forall x :: x in r ==> x in ns && x !in visited
  {
    if ns == [] then []
    else Unvisited(ns[..|ns| - 1], visited) + (if ns[|ns| - 1] in visited then [] else [ns[|ns| - 1]])
  }

  method PushUnvisited(queue: seq<int>, ns: seq<int>, visited: set<int>) returns (q: seq<int>)
    ensures q == queue + Unvisited(ns, visited)
  {
    q := queue;
    for j := 0 to |ns|
      invariant q == queue + Unvisited(ns[..j], visited)
    {
      assert ns[..j + 1][..j] == ns[..j];
      if ns[j] !in visited {
        q := q + [ns[j]];
      }
    }
    assert ns[..|ns|] == ns;
  }

  /** The indices 0 .. n-1, as a set. */
  function Range(n: nat): (r: set<int>)
    ensures forall x :: x in r <==> 0 <= x < n
  {
    if n == 0 then {} else Range(n - 1) + {n - 1}
  }

  /** Some point labelled c, other than x, has x within eps. */
  ghost predicate Reached(labels: seq<int>, x: int, c: int, near: (int, int) -> bool)
  {
    exists y :: 0 <= y < |labels| && y != x && labels[y] == c && near(y, x)
  }

  /** Apart from the seed p, labels only moved from unvisited or noise to cluster c. */
  ghost predicate OnlyClaimed(before: seq<int>, labels: seq<int>, p: int, c: int)
  {
    |labels| == |before| &&
    forall i :: 0 <= i < |labels| && i != p ==>
      labels[i] == before[i] || (before[i] <= 0 && labels[i] == c)
  }

  /** Every member of cluster c other than the seed p lies within eps of another member. */
  ghost predicate MembersReached(labels: seq<int>, p: int, c: int, near: (int, int) -> bool)
  {
    forall i :: 0 <= i < |labels| && i != p && labels[i] == c ==> Reached(labels, i, c, near)
  }

  /** The state the expansion loop keeps. */
  ghost predicate Expanding(before: seq<int>, labels: seq<int>, p: int, c: int, near: (int, int) -> bool,
                            neighbors: seq<int>, queue: seq<int>, visited: set<int>)
  {
    0 <= p < |labels| && labels[p] == c &&
    (forall i :: 0 <= i < |labels| ==> labels[i] >= -1) &&
    (forall k :: 0 <= k < |queue| ==> 0 <= queue[k] < |labels| && Reached(labels, queue[k], c, near)) &&
    p in visited && visited <= Range(|labels|) &&
    OnlyClaimed(before, labels, p, c) &&
    MembersReached(labels, p, c, near) &&
    (forall i :: 0 <= i < |labels| && labels[i] == c ==> i in visited) &&
    (forall x :: x in visited && x != p ==> 0 <= x < |labels| && labels[x] > 0) &&
    (forall x :: x in neighbors ==> x in visited || x in queue)
  }

  /** Taking the head of the queue: a point already visited is dropped. */
  lemma PopVisited(before: seq<int>, labels: seq<int>, p: int, c: int, near: (int, int) -> bool,
                   neighbors: seq<int>, queue: seq<int>, visited: set<int>)
    requires |queue| > 0 && queue[0] in visited
    requires Expanding(before, labels, p, c, near, neighbors, queue, visited)
    ensures Expanding(before, labels, p, c, near, neighbors, queue[1..], visited)
  {
    forall x | x in neighbors ensures x in visited || x in queue[1..] {
      if x !in visited {
        var k :| 0 <= k < |queue| && queue[k] == x;
        assert queue[1..][k - 1] == x;
      }
    }
  }

  /** Claiming a point for cluster c keeps every point reached from c reached. */
  lemma ClaimKeepsReached(labels: seq<int>, cur: int, c: int, near: (int, int) -> bool)
    requires 0 <= cur < |labels|
    ensures forall x :: Reached(labels, x, c, near) ==> Reached(labels[cur := c], x, c, near)
  {
    forall x | Reached(labels, x, c, near) ensures Reached(labels[cur := c], x, c, near) {
      var y :| 0 <= y < |labels| && y != x && labels[y] == c && near(y, x);
      assert labels[cur := c][y] == c;
    }
  }

  /** Dropping the head of the queue once it is visited loses no neighbour of the seed. */
  lemma TailCovers(neighbors: seq<int>, queue: seq<int>, visited: set<int>)
    requires |queue| > 0
    requires forall x :: x in neighbors ==> x in visited || x in queue
    ensures forall x :: x in neighbors ==> x in visited + {queue[0]} || x in queue[1..]
  {
    forall x | x in neighbors ensures x in visited + {queue[0]} || x in queue[1..] {
      if x !in visited && x != queue[0] {
        var k :| 0 <= k < |queue| && queue[k] == x;
        assert queue[1..][k - 1] == x;
      }
    }
  }

  /** Taking the head of the queue: an unvisited point already in another cluster is only
      marked visited. */
  lemma PopKeep(before: seq<int>, labels: seq<int>, p: int, c: int, near: (int, int) -> bool,
                neighbors: seq<int>, queue: seq<int>, visited: set<int>)
    requires Expanding(before, labels, p, c, near, neighbors, queue, visited)
    requires |queue| > 0 && queue[0] !in visited && labels[queue[0]] > 0
    ensures Expanding(before, labels, p, c, near, neighbors, queue[1..], visited + {queue[0]})
  {
    TailCovers(neighbors, queue, visited);
  }

  /** Taking the head of the queue: an unvisited or noise point is visited and claimed for
      cluster c. */
  lemma PopClaim(before: seq<int>, labels: seq<int>, p: int, c: int, near: (int, int) -> bool,
                 neighbors: seq<int>, queue: seq<int>, visited: set<int>)
    requires Expanding(before, labels, p, c, near, neighbors, queue, visited)
    requires |queue| > 0 && queue[0] !in visited && labels[queue[0]] <= 0 && c > 0
    ensures Expanding(before, labels[queue[0] := c], p, c, near, neighbors, queue[1..], visited + {queue[0]})
  {
    var cur := queue[0];
    assert Reached(labels, cur, c, near);
    ClaimMembers(labels, p, cur, c, near);
    ClaimQueue(labels, queue, cur, c, near);
    TailCovers(neighbors, queue, visited);
  }

  lemma ClaimMembers(labels: seq<int>, p: int, cur: int, c: int, near: (int, int) -> bool)
    requires 0 <= cur < |labels| && MembersReached(labels, p, c, near) && Reached(labels, cur, c, near)
    ensures MembersReached(labels[cur := c], p, c, near)
  {
    ClaimKeepsReached(labels, cur, c, near);
  }

  lemma ClaimQueue(labels: seq<int>, queue: seq<int>, cur: int, c: int, near: (int, int) -> bool)
    requires 0 <= cur < |labels| && |queue| > 0
    requires forall k :: 0 <= k < |queue| ==> 0 <= queue[k] < |labels| && Reached(labels, queue[k], c, near)
    ensures forall k :: 0 <= k < |queue[1..]| ==>
              0 <= queue[1..][k] < |labels| && Reached(labels[cur := c], queue[1..][k], c, near)
  {
    ClaimKeepsReached(labels, cur, c, near);
    forall k | 0 <= k < |queue[1..]|
      ensures 0 <= queue[1..][k] < |labels| && Reached(labels[cur := c], queue[1..][k], c, near)
    {
      assert queue[1..][k] == queue[k + 1];
    }
  }

  /** Queueing the unvisited neighbours of a claimed core point. */
  lemma PushNeighbors(before: seq<int>, labels: seq<int>, p: int, c: int, near: (int, int) -> bool,
                      neighbors: seq<int>, queue: seq<int>, visited: set<int>, cur: int)
    requires 0 <= cur < |labels| && labels[cur] == c
    requires Expanding(before, labels, p, c, near, neighbors, queue, visited)
    ensures Expanding(before, labels, p, c, near, neighbors,
                      queue + Unvisited(Neighbors(|labels|, cur, near), visited), visited)
  {
    var ns := Neighbors(|labels|, cur, near);
    var q := queue + Unvisited(ns, visited);
    forall k | 0 <= k < |q| ensures 0 <= q[k] < |labels| && Reached(labels, q[k], c, near) {
      if k >= |queue| {
        var x := q[k];
        assert x in Unvisited(ns, visited);
        NeighborsIff(|labels|, cur, near, x);
      }
    }
  }

  /** `expandCluster`: labels the seed p and grows the cluster breadth-first from its
      neighbours, stopping when the queue is empty or the cluster has `maxSize` members.
      A noise point reached is relabelled; an unvisited one is relabelled and, when it is a
      core point, its unvisited neighbours are queued. */
  method ExpandCluster(labels: array<int>, p: int, neighbors: seq<int>, clusterId: int,
                       minPts: int, maxSize: int, near: (int, int) -> bool)
    returns (clusterSize: int)
    requires 0 <= p < labels.Length
    requires forall k :: 0 <= k < |neighbors| ==> 0 <= neighbors[k] < labels.Length && neighbors[k] != p
    requires forall k :: 0 <= k < |neighbors| ==> near(p, neighbors[k])
    requires clusterId > 0 && forall i :: 0 <= i < labels.Length ==> -1 <= labels[i] < clusterId
    modifies labels
    ensures labels[p] == clusterId
    ensures OnlyClaimed(old(labels[..]), labels[..], p, clusterId)
    ensures clusterSize == CountLabel(labels[..], clusterId) <= Max(1, maxSize)
    ensures MembersReached(labels[..], p, clusterId, near)
    ensures clusterSize < maxSize ==> forall x :: x in neighbors ==> labels[x] > 0
  {
    var n := labels.Length;
    ghost var before := labels[..];
    CountLabelNone(labels[..], clusterId);
    CountLabelUpdate(labels[..], p, clusterId, clusterId);
    labels[p] := clusterId;
    clusterSize := 1;
    var queue := neighbors;
    var visited: set<int> := {p};
    forall k | 0 <= k < |queue| ensures Reached(labels[..], queue[k], clusterId, near) {
      assert labels[..][p] == clusterId;
    }
    while |queue| > 0 && clusterSize < maxSize
      invariant n == labels.Length
      invariant Expanding(before, labels[..], p, clusterId, near, neighbors, queue, visited)
      invariant clusterSize == CountLabel(labels[..], clusterId) && 1 <= clusterSize <= Max(1, maxSize)
      decreases Range(n) - visited, |queue|
    {
      var cur := queue[0];
      if cur in visited {
        PopVisited(before, labels[..], p, clusterId, near, neighbors, queue, visited);
        queue := queue[1..];
        continue;
      }
      if labels[cur] > 0 {
        PopKeep(before, labels[..], p, clusterId, near, neighbors, queue, visited);
      } else {
        PopClaim(before, labels[..], p, clusterId, near, neighbors, queue, visited);
      }
      queue := queue[1..];
      visited := visited + {cur};
      if labels[cur] == -1 {
        clusterSize := Claim(labels, cur, clusterId, clusterSize);
      } else if labels[cur] == 0 {
        clusterSize := Claim(labels, cur, clusterId, clusterSize);
        var newNeighbors := RegionQuery(n, cur, near);
        if |newNeighbors| >= minPts - 1 {
          PushNeighbors(before, labels[..], p, clusterId, near, neighbors, queue, visited, cur);
          queue := PushUnvisited(queue, newNeighbors, visited);
        }
      }
    }
    ExpandDone(before, labels[..], p, clusterId, near, neighbors, queue, visited);
  }

  /** `labels[cur] = clusterId; clusterSize++`: the cluster gains one member. */
  method Claim(labels: array<int>, cur: int, clusterId: int, clusterSize: int) returns (clusterSize': int)
    requires 0 <= cur < labels.Length && labels[cur] != clusterId
    requires clusterSize == CountLabel(labels[..], clusterId)
    modifies labels
    ensures labels[..] == old(labels[..])[cur := clusterId]
    ensures clusterSize' == clusterSize + 1 == CountLabel(labels[..], clusterId)
  {
    CountLabelUpdate(labels[..], cur, clusterId, clusterId);
    labels[cur] := clusterId;
    clusterSize' := clusterSize + 1;
  }

  /** When the queue runs dry, every neighbour of the seed has been visited and so is clustered. */
  lemma ExpandDone(before: seq<int>, labels: seq<int>, p: int, c: int, near: (int, int) -> bool,
                   neighbors: seq<int>, queue: seq<int>, visited: set<int>)
    requires Expanding(before, labels, p, c, near, neighbors, queue, visited) && c > 0
    ensures OnlyClaimed(before, labels, p, c) && MembersReached(labels, p, c, near)
    ensures queue == [] ==> forall x :: x in neighbors ==> 0 <= x < |labels| && labels[x] > 0
  {
  }

  // ------------------------------------------------------------------
  // DBSCAN
  // ------------------------------------------------------------------

  /** What the DBSCAN scan keeps once points 0 .. i-1 have been processed and `clusters`
      clusters have been started, cluster k from seed `seeds[k-1]`. */
  ghost predicate Scanned(labels: seq<int>, i: int, clusters: nat, seeds: seq<int>, n: nat,
                          minPts: int, maxSize: int, near: (int, int) -> bool)
  {
    |labels| == n && 0 <= i <= n &&
    (forall j :: 0 <= j < i ==> labels[j] != 0) &&
    (forall j :: 0 <= j < n ==> labels[j] == -1 || 0 <= labels[j] <= clusters) &&
    |seeds| == clusters &&
    (forall k :: 0 <= k < |seeds| ==> 0 <= seeds[k] < n && labels[seeds[k]] == k + 1) &&
    (forall j :: 0 <= j < n && labels[j] == -1 ==> !Core(n, j, minPts, near)) &&
    (forall c :: 1 <= c <= clusters ==> CountLabel(labels, c) <= Max(1, maxSize)) &&
    (forall j :: 0 <= j < n && labels[j] > 0 ==> Core(n, j, minPts, near) || Reached(labels, j, labels[j], near))
  }

  lemma ScanStart(labels: seq<int>, n: nat, minPts: int, maxSize: int, near: (int, int) -> bool)
    requires |labels| == n && forall j :: 0 <= j < n ==> labels[j] == 0
    ensures Scanned(labels, 0, 0, [], n, minPts, maxSize, near)
  {
  }

  /** A point that is not core when the scan reaches it becomes noise. */
  lemma ScanNoise(labels: seq<int>, i: int, clusters: nat, seeds: seq<int>, n: nat,
                  minPts: int, maxSize: int, near: (int, int) -> bool)
    requires Scanned(labels, i, clusters, seeds, n, minPts, maxSize, near)
    requires i < n && labels[i] == 0 && !Core(n, i, minPts, near)
    ensures Scanned(labels[i := -1], i + 1, clusters, seeds, n, minPts, maxSize, near)
  {
    var after := labels[i := -1];
    forall c | 1 <= c <= clusters ensures CountLabel(after, c) <= Max(1, maxSize) {
      CountLabelUpdate(labels, i, -1, c);
    }
    forall j | 0 <= j < n && after[j] > 0
      ensures Core(n, j, minPts, near) || Reached(after, j, after[j], near)
    {
      if !Core(n, j, minPts, near) {
        var y :| 0 <= y < n && y != j && labels[y] == labels[j] && near(y, j);
        assert after[y] == after[j];
      }
    }
  }

  /** Counts of clusters other than the one being grown are unchanged by the expansion. */
  lemma ExpandKeepsCounts(before: seq<int>, after: seq<int>, p: int, clusterId: int, clusters: nat)
    requires OnlyClaimed(before, after, p, clusterId) && 0 <= p < |before|
    requires before[p] == 0 && after[p] == clusterId && clusters < clusterId
    ensures forall c :: 1 <= c <= clusters ==> CountLabel(after, c) == CountLabel(before, c)
  {
    forall c | 1 <= c <= clusters ensures CountLabel(after, c) == CountLabel(before, c) {
      CountLabelSame(before, after, c);
    }
  }

  /** Points of earlier clusters stay reached: their witnesses keep their labels. */
  lemma ExpandKeepsReached(before: seq<int>, after: seq<int>, p: int, clusterId: int, near: (int, int) -> bool)
    requires OnlyClaimed(before, after, p, clusterId) && 0 <= p < |before| && before[p] == 0
    ensures forall j :: 0 <= j < |before| && before[j] > 0 && Reached(before, j, before[j], near) ==>
              after[j] == before[j] && Reached(after, j, after[j], near)
  {
    forall j | 0 <= j < |before| && before[j] > 0 && Reached(before, j, before[j], near)
      ensures after[j] == before[j] && Reached(after, j, after[j], near)
    {
      var y :| 0 <= y < |before| && y != j && before[y] == before[j] && near(y, j);
      assert after[y] == before[y];
    }
  }

  /** The labels after growing cluster c from seed i: none of 0 .. i is unvisited, all are in
      range, and noise is only what was noise before. */
  lemma ClusterLabels(before: seq<int>, after: seq<int>, i: int, c: int, minPts: int, near: (int, int) -> bool)
    requires OnlyClaimed(before, after, i, c) && 0 <= i < |before| && after[i] == c && c > 0
    requires forall j :: 0 <= j < i ==> before[j] != 0
    requires forall j :: 0 <= j < |before| ==> before[j] == -1 || 0 <= before[j] < c
    requires forall j :: 0 <= j < |before| && before[j] == -1 ==> !Core(|before|, j, minPts, near)
    ensures forall j :: 0 <= j < i + 1 ==> after[j] != 0
    ensures forall j :: 0 <= j < |after| ==> after[j] == -1 || 0 <= after[j] <= c
    ensures forall j :: 0 <= j < |after| && after[j] == -1 ==> !Core(|after|, j, minPts, near)
  {
  }

  /** Earlier seeds keep their clusters and i is the seed of the new one. */
  lemma ClusterSeeds(before: seq<int>, after: seq<int>, i: int, seeds: seq<int>)
    requires OnlyClaimed(before, after, i, |seeds| + 1) && 0 <= i < |before| && before[i] == 0 && after[i] == |seeds| + 1
    requires forall k :: 0 <= k < |seeds| ==> 0 <= seeds[k] < |before| && before[seeds[k]] == k + 1
    ensures forall k :: 0 <= k < |seeds + [i]| ==> 0 <= (seeds + [i])[k] < |after| && after[(seeds + [i])[k]] == k + 1
  {
    var s := seeds + [i];
    forall k | 0 <= k < |s| ensures 0 <= s[k] < |after| && after[s[k]] == k + 1 {
      if k < |seeds| {
        assert s[k] == seeds[k];
      }
    }
  }

  /** Clustered points stay core or reached after the expansion. */
  lemma ClusterReached(before: seq<int>, after: seq<int>, i: int, c: int, minPts: int, near: (int, int) -> bool)
    requires OnlyClaimed(before, after, i, c) && 0 <= i < |before| && before[i] == 0 && after[i] == c
    requires Core(|before|, i, minPts, near) && MembersReached(after, i, c, near)
    requires forall j :: 0 <= j < |before| ==> before[j] < c
    requires forall j :: 0 <= j < |before| && before[j] > 0 ==>
               Core(|before|, j, minPts, near) || Reached(before, j, before[j], near)
    ensures forall j :: 0 <= j < |after| && after[j] > 0 ==>
              Core(|after|, j, minPts, near) || Reached(after, j, after[j], near)
  {
    ExpandKeepsReached(before, after, i, c, near);
  }

  /** A core point the scan reaches unlabelled seeds a new cluster, which the expansion grows. */
  lemma ScanCluster(before: seq<int>, after: seq<int>, i: int, clusters: nat, seeds: seq<int>, n: nat,
                    minPts: int, maxSize: int, near: (int, int) -> bool)
    requires Scanned(before, i, clusters, seeds, n, minPts, maxSize, near)
    requires i < n && before[i] == 0 && Core(n, i, minPts, near)
    requires OnlyClaimed(before, after, i, clusters + 1) && after[i] == clusters + 1
    requires CountLabel(after, clusters + 1) <= Max(1, maxSize)
    requires MembersReached(after, i, clusters + 1, near)
    ensures Scanned(after, i + 1, clusters + 1, seeds + [i], n, minPts, maxSize, near)
  {
    ExpandKeepsCounts(before, after, i, clusters + 1, clusters);
    ClusterLabels(before, after, i, clusters + 1, minPts, near);
    ClusterSeeds(before, after, i, seeds);
    ClusterReached(before, after, i, clusters + 1, minPts, near);
  }

  /** Some point is labelled c. */
  ghost predicate HasMember(labels: seq<int>, c: int)
  {
    exists j :: 0 <= j < |labels| && labels[j] == c
  }

  /** What `dbscan` promises of its labels for n points: every point is noise (-1) or in one
      of the clusters 1 .. clusters; every cluster has a member and at most max(1, maxSize)
      members; a noise point is not core; a clustered point is core or lies within eps of
      another member of its cluster. */
  ghost predicate Labelling(labels: seq<int>, clusters: nat, n: nat, minPts: int, maxSize: int,
                            near: (int, int) -> bool)
  {
    |labels| == n &&
    (forall j :: 0 <= j < n ==> labels[j] == -1 || 1 <= labels[j] <= clusters) &&
    (forall c :: 1 <= c <= clusters ==> HasMember(labels, c)) &&
    (forall c :: 1 <= c <= clusters ==> CountLabel(labels, c) <= Max(1, maxSize)) &&
    (forall j :: 0 <= j < n && labels[j] == -1 ==> !Core(n, j, minPts, near)) &&
    (forall j :: 0 <= j < n && labels[j] > 0 ==> Core(n, j, minPts, near) || Reached(labels, j, labels[j], near))
  }

  /** The finished scan: no point is left unvisited and every cluster has its seed. */
  lemma ScanDone(labels: seq<int>, clusters: nat, seeds: seq<int>, n: nat,
                 minPts: int, maxSize: int, near: (int, int) -> bool)
    requires Scanned(labels, n, clusters, seeds, n, minPts, maxSize, near)
    ensures Labelling(labels, clusters, n, minPts, maxSize, near)
  {
    forall c | 1 <= c <= clusters ensures HasMember(labels, c) {
      assert labels[seeds[c - 1]] == c;
    }
  }

  /** A lone point is noise once a core point needs a neighbour. */
  lemma SinglePointIsNoise(labels: seq<int>, clusters: nat, minPts: int, maxSize: int, near: (int, int) -> bool)
    requires Labelling(labels, clusters, 1, minPts, maxSize, near) && minPts >= 2
    ensures labels == [-1]
  {
    assert Neighbors(1, 0, near) == [];
    assert labels[0] != 0;
  }

  /** One step of the scan: point i is skipped when already labelled, marked noise when it
      is not core, and otherwise seeds cluster `clusterId + 1`. */
  method ScanPoint(a: array<int>, i: int, clusterId: nat, ghost seeds: seq<int>,
                   minPts: int, maxSize: int, near: (int, int) -> bool)
    returns (clusterId': nat, ghost seeds': seq<int>)
    requires Scanned(a[..], i, clusterId, seeds, a.Length, minPts, maxSize, near) && i < a.Length
    modifies a
    ensures Scanned(a[..], i + 1, clusterId', seeds', a.Length, minPts, maxSize, near)
  {
    var n := a.Length;
    clusterId', seeds' := clusterId, seeds;
    if a[i] != 0 {
      return;
    }
    var neighbors := RegionQuery(n, i, near);
    if |neighbors| < minPts - 1 {
      ScanNoise(a[..], i, clusterId, seeds, n, minPts, maxSize, near);
      a[i] := -1;
    } else {
      ghost var before := a[..];
      NeighborsSound(n, i, near);
      var _ := ExpandCluster(a, i, neighbors, clusterId + 1, minPts, maxSize, near);
      ScanCluster(before, a[..], i, clusterId, seeds, n, minPts, maxSize, near);
      clusterId', seeds' := clusterId + 1, seeds + [i];
    }
  }

  /** `dbscan`: every point the scan reaches unlabelled becomes noise when it has fewer than
      `minPts - 1` neighbours, and otherwise seeds a new cluster grown by the expansion. */
  method Dbscan(n: nat, minPts: int, maxSize: int, near: (int, int) -> bool)
    returns (labels: seq<int>, clusters: nat)
    ensures Labelling(labels, clusters, n, minPts, maxSize, near)
  {
    var a := new int[n](_ => 0);
    var clusterId := 0;
    ghost var seeds: seq<int> := [];
    ScanStart(a[..], n, minPts, maxSize, near);
    for i := 0 to n
      invariant Scanned(a[..], i, clusterId, seeds, n, minPts, maxSize, near)
    {
      clusterId, seeds := ScanPoint(a, i, clusterId, seeds, minPts, maxSize, near);
    }
    labels := a[..];
    clusters := clusterId;
    ScanDone(labels, clusters, seeds, n, minPts, maxSize, near);
  }

  // ------------------------------------------------------------------
  // Points
  // ------------------------------------------------------------------

  const DefaultEps: real := 0.25
  const DefaultMinPts := 2
  const DefaultMaxClusterSize := 8

  /** The fields of an input item this node reads, after its defaults (`title || ''`,
      `url || ''`, `score || 0`); `embedding` None is a value that is not an array. */
  datatype Item = Item(title: string, url: string, score: real, embedding: Option<seq<real>>)

  /** A point: the item at input position `idx`. */
  datatype Point = Point(idx: nat, item: Item)

  function ScoreOf(p: Point): real { p.item.score }

  /** The points among the first k items that carry an embedding, in input order. */
  function ValidBelow(items: seq<Item>, k: nat): (r: seq<Point>)
    requires k <= |items|
    ensures forall a :: 0 <= a < |r| ==> r[a].idx < k && r[a].item == items[r[a].idx] && r[a].item.embedding.Some?
  {
    if k == 0 then []
    else ValidBelow(items, k - 1) + (if items[k - 1].embedding.Some? then [Point(k - 1, items[k - 1])] else [])
  }

  /** The points among the first k items without an embedding, in input order. */
  function InvalidBelow(items: seq<Item>, k: nat): (r: seq<Point>)
    requires k <= |items|
    ensures forall a :: 0 <= a < |r| ==> r[a].idx < k && r[a].item == items[r[a].idx] && r[a].item.embedding.None?
  {
    if k == 0 then []
    else InvalidBelow(items, k - 1) + (if items[k - 1].embedding.None? then [Point(k - 1, items[k - 1])] else [])
  }

  function ValidPoints(items: seq<Item>): seq<Point> { ValidBelow(items, |items|) }
  function InvalidItems(items: seq<Item>): seq<Point> { InvalidBelow(items, |items|) }

  function ItemsOf(ps: seq<Point>): (r: seq<Item>)
    ensures |r| == |ps| && forall a :: 0 <= a < |ps| ==> r[a] == ps[a].item
  {
    if ps == [] then [] else ItemsOf(ps[..|ps| - 1]) + [ps[|ps| - 1].item]
  }

  /** Every item is a valid point or an invalid one. */
  lemma {:induction false} PartitionCount(items: seq<Item>, k: nat)
    requires k <= |items|
    ensures |ValidBelow(items, k)| + |InvalidBelow(items, k)| == k
  {
    if k > 0 {
      PartitionCount(items, k - 1);
    }
  }

  /** Every item with an embedding is a valid point. */
  lemma {:induction false} ValidComplete(items: seq<Item>, k: nat, j: int)
    requires k <= |items| && 0 <= j < k && items[j].embedding.Some?
    ensures exists a :: 0 <= a < |ValidBelow(items, k)| && ValidBelow(items, k)[a].idx == j
  {
    if j < k - 1 {
      ValidComplete(items, k - 1, j);
      var a :| 0 <= a < |ValidBelow(items, k - 1)| && ValidBelow(items, k - 1)[a].idx == j;
      assert ValidBelow(items, k)[a] == ValidBelow(items, k - 1)[a];
    } else {
      assert ValidBelow(items, k)[|ValidBelow(items, k)| - 1].idx == j;
    }
  }

  /** Every item without an embedding is an invalid point. */
  lemma {:induction false} InvalidComplete(items: seq<Item>, k: nat, j: int)
    requires k <= |items| && 0 <= j < k && items[j].embedding.None?
    ensures exists a :: 0 <= a < |InvalidBelow(items, k)| && InvalidBelow(items, k)[a].idx == j
  {
    if j < k - 1 {
      InvalidComplete(items, k - 1, j);
      var a :| 0 <= a < |InvalidBelow(items, k - 1)| && InvalidBelow(items, k - 1)[a].idx == j;
      assert InvalidBelow(items, k)[a] == InvalidBelow(items, k - 1)[a];
    } else {
      assert InvalidBelow(items, k)[|InvalidBelow(items, k)| - 1].idx == j;
    }
  }

  /** The valid points keep input order, so none repeats. */
  lemma {:induction false} ValidInOrder(items: seq<Item>, k: nat)
    requires k <= |items|
    ensures forall a, b :: 0 <= a < b < |ValidBelow(items, k)| ==> ValidBelow(items, k)[a].idx < ValidBelow(items, k)[b].idx
  {
    if k > 0 {
      ValidInOrder(items, k - 1);
    }
  }

  /** The invalid points keep input order, so none repeats. */
  lemma {:induction false} InvalidInOrder(items: seq<Item>, k: nat)
    requires k <= |items|
    ensures forall a, b :: 0 <= a < b < |InvalidBelow(items, k)| ==> InvalidBelow(items, k)[a].idx < InvalidBelow(items, k)[b].idx
  {
    if k > 0 {
      InvalidInOrder(items, k - 1);
    }
  }

  /** The embeddings of the valid points, in order. */
  function Embeddings(ps: seq<Point>): (r: seq<seq<real>>)
    requires forall a :: 0 <= a < |ps| ==> ps[a].item.embedding.Some?
    ensures |r| == |ps| && forall a :: 0 <= a < |ps| ==> r[a] == ps[a].item.embedding.value
  {
    if ps == [] then [] else Embeddings(ps[..|ps| - 1]) + [ps[|ps| - 1].item.embedding.value]
  }

  /** `cosineDistance(a, b) <= eps`, that is `cosineSimilarity(a, b) >= 1 - eps`, between
      points i and j. */
  function NearOf(embs: seq<seq<real>>, eps: real): (int, int) -> bool
  {
    (i, j) => 0 <= i < |embs| && 0 <= j < |embs| && SemanticDedupe.CosineAtLeast(embs[i], embs[j], 1.0 - eps)
  }

  /** The distance is symmetric, so "within eps" is too. */
  lemma NearSymmetric(embs: seq<seq<real>>, eps: real, i: int, j: int)
    ensures NearOf(embs, eps)(i, j) == NearOf(embs, eps)(j, i)
  {
    if 0 <= i < |embs| && 0 <= j < |embs| {
      SemanticDedupe.CosineSymmetric(embs[i], embs[j], 1.0 - eps);
    }
  }

  // ------------------------------------------------------------------
  // Grouping the labels (`clusterMap`)
  // ------------------------------------------------------------------

  /** The points below k labelled c, in index order. */
  function MembersBelow(labels: seq<int>, k: nat, c: int): (r: seq<int>)
    requires k <= |labels|
    ensures forall a :: 0 <= a < |r| ==> 0 <= r[a] < k && labels[r[a]] == c
  {
    if k == 0 then []
    else MembersBelow(labels, k - 1, c) + (if labels[k - 1] == c then [k - 1] else [])
  }

  function Members(labels: seq<int>, c: int): seq<int> { MembersBelow(labels, |labels|, c) }

  lemma {:induction false} MembersComplete(labels: seq<int>, k: nat, c: int, j: int)
    requires k <= |labels| && 0 <= j < k && labels[j] == c
    ensures j in MembersBelow(labels, k, c)
  {
    if j < k - 1 {
      MembersComplete(labels, k - 1, c, j);
    }
  }

  lemma {:induction false} MembersCount(labels: seq<int>, k: nat, c: int)
    requires k <= |labels|
    ensures |MembersBelow(labels, k, c)| == CountLabel(labels[..k], c)
  {
    if k > 0 {
      MembersCount(labels, k - 1, c);
      assert labels[..k][..k - 1] == labels[..k - 1];
    }
  }

  /** `clusterMap[c].push(i)`, creating the entry `[]` first when c is new: the entry keeps
      its place in the object, a new key goes last. */
  function AddMember(m: seq<(int, seq<int>)>, c: int, i: int): seq<(int, seq<int>)>
  {
    if m == [] then [(c, [i])]
    else if m[0].0 == c then [(c, m[0].1 + [i])] + m[1..]
    else [m[0]] + AddMember(m[1..], c, i)
  }

  /** The cluster map after the first k labels: each cluster label, in order of first
      appearance, with its members; noise is not grouped. */
  function GroupsBelow(labels: seq<int>, k: nat): seq<(int, seq<int>)>
    requires k <= |labels|
  {
    if k == 0 then []
    else if labels[k - 1] > 0 then AddMember(GroupsBelow(labels, k - 1), labels[k - 1], k - 1)
    else GroupsBelow(labels, k - 1)
  }

  function Groups(labels: seq<int>): seq<(int, seq<int>)> { GroupsBelow(labels, |labels|) }

  /** Adding a member extends that cluster's list and leaves the other entries alone. */
  lemma {:induction false} AddMemberLookup(m: seq<(int, seq<int>)>, c: int, i: int, d: int)
    ensures Lookup(AddMember(m, c, i), d) ==
            if d == c then Some(if Lookup(m, c).Some? then Lookup(m, c).value + [i] else [i]) else Lookup(m, d)
  {
    if m != [] {
      var r := AddMember(m, c, i);
      if m[0].0 == c {
        assert r[1..] == m[1..];
      } else {
        AddMemberLookup(m[1..], c, i, d);
        assert r[1..] == AddMember(m[1..], c, i);
      }
    }
  }

  /** Adding a member keeps every key in its place and appends c when it is new. */
  lemma {:induction false} AddMemberKeys(m: seq<(int, seq<int>)>, c: int, i: int)
    ensures var r := AddMember(m, c, i);
            (|r| == |m| || (|r| == |m| + 1 && r[|m|].0 == c && forall t :: 0 <= t < |m| ==> m[t].0 != c)) &&
            (forall t :: 0 <= t < |m| ==> r[t].0 == m[t].0)
  {
    if m != [] && m[0].0 != c {
      AddMemberKeys(m[1..], c, i);
      var r := AddMember(m, c, i);
      assert r[1..] == AddMember(m[1..], c, i);
    }
  }

  /** One step of the grouping, in terms of the member list `prev` of cluster c so far. */
  lemma AddMemberStep(g: seq<(int, seq<int>)>, m: seq<(int, seq<int>)>, prev: seq<int>, l: int, i: int, c: int)
    requires Lookup(m, c) == if c > 0 && prev != [] then Some(prev) else None
    requires l > 0 && g == AddMember(m, l, i)
    ensures Lookup(g, c) == if c == l then Some(prev + [i]) else Lookup(m, c)
  {
    AddMemberLookup(m, l, i, c);
    if c == l && prev == [] {
      assert prev + [i] == [i];
    }
  }

  /** What the cluster map should hold for c after the first k labels. */
  function MembersEntry(labels: seq<int>, k: nat, c: int): Option<seq<int>>
    requires k <= |labels|
  {
    if c > 0 && MembersBelow(labels, k, c) != [] then Some(MembersBelow(labels, k, c)) else None
  }

  lemma GroupsLookupStep(labels: seq<int>, k: nat, c: int)
    requires 0 < k <= |labels|
    requires Lookup(GroupsBelow(labels, k - 1), c) == MembersEntry(labels, k - 1, c)
    ensures Lookup(GroupsBelow(labels, k), c) == MembersEntry(labels, k, c)
  {
    var l := labels[k - 1];
    MembersEntryStep(labels, k, c);
    if l > 0 {
      var m := GroupsBelow(labels, k - 1);
      var prev := MembersBelow(labels, k - 1, c);
      AddMemberStep(GroupsBelow(labels, k), m, prev, l, k - 1, c);
    }
  }

  /** The expected entry for c after one more label. */
  lemma MembersEntryStep(labels: seq<int>, k: nat, c: int)
    requires 0 < k <= |labels|
    ensures MembersEntry(labels, k, c) ==
            if c > 0 && labels[k - 1] == c then Some(MembersBelow(labels, k - 1, c) + [k - 1])
            else MembersEntry(labels, k - 1, c)
  {
    var prev := MembersBelow(labels, k - 1, c);
    if labels[k - 1] == c {
      assert MembersBelow(labels, k, c) == prev + [k - 1];
    } else {
      assert MembersBelow(labels, k, c) == prev + [];
      assert prev + [] == prev;
    }
  }

  /** A cluster label maps to exactly its members; noise and absent labels map to nothing. */
  lemma {:induction false} GroupsLookup(labels: seq<int>, k: nat, c: int)
    requires k <= |labels|
    ensures Lookup(GroupsBelow(labels, k), c) == MembersEntry(labels, k, c)
  {
    if k > 0 {
      GroupsLookup(labels, k - 1, c);
      GroupsLookupStep(labels, k, c);
    }
  }

  lemma {:induction false} GroupsDistinct(labels: seq<int>, k: nat)
    requires k <= |labels|
    ensures DistinctKeys(GroupsBelow(labels, k))
  {
    if k > 0 {
      GroupsDistinct(labels, k - 1);
      var m := GroupsBelow(labels, k - 1);
      var l := labels[k - 1];
      if l > 0 {
        AddMemberKeys(m, l, k - 1);
      }
    }
  }

  /** Every entry of the cluster map is a cluster label with its (non-empty) member list. */
  lemma GroupEntries(labels: seq<int>)
    ensures forall t :: 0 <= t < |Groups(labels)| ==>
              Groups(labels)[t].0 > 0 && Groups(labels)[t].1 == Members(labels, Groups(labels)[t].0) &&
              Groups(labels)[t].1 != []
  {
    var g := Groups(labels);
    GroupsDistinct(labels, |labels|);
    forall t | 0 <= t < |g| ensures g[t].0 > 0 && g[t].1 == Members(labels, g[t].0) && g[t].1 != [] {
      LookupAt(g, t);
      GroupsLookup(labels, |labels|, g[t].0);
    }
  }

  /** Every clustered point's label has an entry in the cluster map. */
  lemma GroupsCover(labels: seq<int>, j: int)
    requires 0 <= j < |labels| && labels[j] > 0
    ensures exists t :: 0 <= t < |Groups(labels)| && Groups(labels)[t] == (labels[j], Members(labels, labels[j]))
  {
    var c := labels[j];
    MembersComplete(labels, |labels|, c, j);
    GroupsLookup(labels, |labels|, c);
    var r := Lookup(Groups(labels), c);
    assert r == Some(Members(labels, c));
    var t :| 0 <= t < |Groups(labels)| && Groups(labels)[t] == (c, r.value);
  }

  /** The first loop over the labels: groups the clustered points and counts the noise. */
  method GroupByLabel(labels: seq<int>) returns (clusterMap: seq<(int, seq<int>)>, noiseCount: nat)
    ensures clusterMap == Groups(labels)
    ensures noiseCount == CountLabel(labels, -1)
  {
    clusterMap := [];
    noiseCount := 0;
    for i := 0 to |labels|
      invariant clusterMap == GroupsBelow(labels, i)
      invariant noiseCount == CountLabel(labels[..i], -1)
    {
      assert labels[..i + 1][..i] == labels[..i];
      var clusterLabel := labels[i];
      if clusterLabel == -1 {
        noiseCount := noiseCount + 1;
      } else if clusterLabel > 0 {
        clusterMap := AddMember(clusterMap, clusterLabel, i);
      }
    }
    assert labels[..|labels|] == labels;
  }

  // ------------------------------------------------------------------
  // Cluster summaries
  // ------------------------------------------------------------------

  /** A cluster as the node builds it. `clusterId` is the DBSCAN label (the node draws a random
      id instead); `articles` are the members by descending score, ties in index order. */
  datatype Summary = Summary(clusterId: int, articles: seq<Point>, representativeTitle: string,
                             articleCount: nat, avgScore: real, maxScore: real)

  function SumScores(ps: seq<Point>): real
  {
    if ps == [] then 0.0 else SumScores(ps[..|ps| - 1]) + ps[|ps| - 1].item.score
  }

  function PointsAt(valid: seq<Point>, idxs: seq<int>): (r: seq<Point>)
    requires forall a :: 0 <= a < |idxs| ==> 0 <= idxs[a] < |valid|
    ensures |r| == |idxs| && forall a :: 0 <= a < |idxs| ==> r[a] == valid[idxs[a]]
  {
    if idxs == [] then [] else PointsAt(valid, idxs[..|idxs| - 1]) + [valid[idxs[|idxs| - 1]]]
  }

  function Summarize(valid: seq<Point>, c: int, idxs: seq<int>): Summary
    requires idxs != [] && forall a :: 0 <= a < |idxs| ==> 0 <= idxs[a] < |valid|
  {
    var articles := SortDesc(PointsAt(valid, idxs), ScoreOf);
    Summary(c, articles, articles[0].item.title, |articles|,
            SumScores(articles) / (|articles| as real), articles[0].item.score)
  }

  /** The summary of a cluster is about its members: the articles are exactly the member
      points, highest score first, and `maxScore` is the largest member score. */
  lemma SummarizeMeans(valid: seq<Point>, c: int, idxs: seq<int>)
    requires idxs != [] && forall a :: 0 <= a < |idxs| ==> 0 <= idxs[a] < |valid|
    ensures var s := Summarize(valid, c, idxs);
            multiset(s.articles) == multiset(PointsAt(valid, idxs)) &&
            s.articleCount == |idxs| &&
            (forall a :: 0 <= a < |idxs| ==> valid[idxs[a]].item.score <= s.maxScore) &&
            (exists a :: 0 <= a < |idxs| && valid[idxs[a]] == s.articles[0]) &&
            s.maxScore == s.articles[0].item.score && s.representativeTitle == s.articles[0].item.title
  {
    var ps := PointsAt(valid, idxs);
    var articles := SortDesc(ps, ScoreOf);
    forall a | 0 <= a < |idxs| ensures valid[idxs[a]].item.score <= articles[0].item.score {
      assert ps[a] in multiset(articles);
      var b :| 0 <= b < |articles| && articles[b] == ps[a];
      SortedMember(articles, ScoreOf, 0);
      assert ScoreOf(articles[b]) <= ScoreOf(articles[0]);
    }
    assert articles[0] in multiset(ps);
    var b :| 0 <= b < |ps| && ps[b] == articles[0];
    assert valid[idxs[b]] == articles[0];
  }

  lemma {:induction false} SumScoresBound(ps: seq<Point>, m: real)
    requires forall i :: 0 <= i < |ps| ==> ps[i].item.score <= m
    ensures SumScores(ps) <= |ps| as real * m
  {
    if ps != [] {
      var init := ps[..|ps| - 1];
      SumScoresBound(init, m);
      assert (|init| as real) * m + m == (|init| as real + 1.0) * m;
    }
  }

  lemma MeanAtMost(sum: real, n: real, m: real)
    requires n > 0.0 && sum <= n * m
    ensures sum / n <= m
  {
    var q := sum / n;
    assert q * n == sum;
    assert (q - m) * n == q * n - m * n;
    if q > m {
      SemanticDedupe.PosProduct(q - m, n);
    }
  }

  lemma TopScoreBounds(articles: seq<Point>)
    requires articles != [] && SortedDesc(articles, ScoreOf)
    ensures forall i :: 0 <= i < |articles| ==> articles[i].item.score <= articles[0].item.score
  {
    forall i | 0 <= i < |articles| ensures articles[i].item.score <= articles[0].item.score {
      assert ScoreOf(articles[i]) <= ScoreOf(articles[0]);
    }
  }

  lemma MeanOfSorted(articles: seq<Point>)
    requires articles != [] && SortedDesc(articles, ScoreOf)
    ensures SumScores(articles) / (|articles| as real) <= articles[0].item.score
  {
    TopScoreBounds(articles);
    SumScoresBound(articles, articles[0].item.score);
    MeanAtMost(SumScores(articles), |articles| as real, articles[0].item.score);
  }

  /** A cluster's average score never exceeds its maximum score. */
  lemma AverageAtMostMax(valid: seq<Point>, c: int, idxs: seq<int>)
    requires idxs != [] && forall a :: 0 <= a < |idxs| ==> 0 <= idxs[a] < |valid|
    ensures Summarize(valid, c, idxs).avgScore <= Summarize(valid, c, idxs).maxScore
  {
    MeanOfSorted(SortDesc(PointsAt(valid, idxs), ScoreOf));
  }



  /** Every entry of a cluster map lists at least one point, and only points that exist. */
  predicate GroupsOver(clusterMap: seq<(int, seq<int>)>, n: nat)
  {
    forall t :: 0 <= t < |clusterMap| ==>
      clusterMap[t].1 != [] && forall a :: 0 <= a < |clusterMap[t].1| ==> 0 <= clusterMap[t].1[a] < n
  }

  lemma GroupsOverLabels(labels: seq<int>)
    ensures GroupsOver(Groups(labels), |labels|)
  {
    GroupEntries(labels);
  }

  /** The second loop: a summary for every entry of the cluster map, in map order. */
  method BuildClusters(valid: seq<Point>, clusterMap: seq<(int, seq<int>)>)
    returns (clusters: seq<(Summary, seq<int>)>)
    requires GroupsOver(clusterMap, |valid|)
    ensures |clusters| == |clusterMap|
    ensures forall t :: 0 <= t < |clusters| ==>
              clusters[t] == (Summarize(valid, clusterMap[t].0, clusterMap[t].1), clusterMap[t].1)
  {
    clusters := [];
    for t := 0 to |clusterMap|
      invariant |clusters| == t
      invariant forall u :: 0 <= u < t ==>
                  clusters[u] == (Summarize(valid, clusterMap[u].0, clusterMap[u].1), clusterMap[u].1)
    {
      var (clusterId, pointIndices) := clusterMap[t];
      var articles := SortDesc(PointsAt(valid, pointIndices), ScoreOf);
      var cluster := Summary(clusterId, articles, articles[0].item.title, |articles|,
                             SumScores(articles) / (|articles| as real), articles[0].item.score);
      clusters := clusters + [(cluster, pointIndices)];
    }
  }

  /** What `pointToCluster` holds once built: each clustered point maps to the summary of
      its own cluster, and nothing else is mapped. */
  ghost predicate PointToCluster(ptc: map<int, Summary>, valid: seq<Point>, labels: seq<int>)
    requires |labels| == |valid|
  {
    (forall j :: j in ptc ==> 0 <= j < |labels| && labels[j] > 0) &&
    (forall j :: j in ptc ==>
       Members(labels, labels[j]) != [] && ptc[j] == Summarize(valid, labels[j], Members(labels, labels[j])))
  }

  /** The inner loop of the third: maps each point of one cluster to its summary. */
  method MapPoints(ptc: map<int, Summary>, cluster: Summary, pointIndices: seq<int>)
    returns (ptc': map<int, Summary>)
    ensures forall j :: j in ptc' <==> j in ptc || j in pointIndices
    ensures forall j :: j in ptc' ==> ptc'[j] == if j in pointIndices then cluster else ptc[j]
  {
    ptc' := ptc;
    for a := 0 to |pointIndices|
      invariant forall j :: j in ptc' <==> j in ptc || j in pointIndices[..a]
      invariant forall j :: j in ptc' ==> ptc'[j] == if j in pointIndices[..a] then cluster else ptc[j]
    {
      assert pointIndices[..a + 1] == pointIndices[..a] + [pointIndices[a]];
      ptc' := ptc'[pointIndices[a] := cluster];
    }
    assert pointIndices[..|pointIndices|] == pointIndices;
  }

  /** Mapping the members of a cluster-map entry keeps `PointToCluster`. */
  lemma MapPointsKeeps(ptc: map<int, Summary>, ptc': map<int, Summary>, valid: seq<Point>, labels: seq<int>, t: int)
    requires |labels| == |valid| && 0 <= t < |Groups(labels)|
    requires Groups(labels)[t].0 > 0 && Groups(labels)[t].1 == Members(labels, Groups(labels)[t].0)
    requires Groups(labels)[t].1 != []
    requires PointToCluster(ptc, valid, labels)
    requires forall j :: j in ptc' <==> j in ptc || j in Groups(labels)[t].1
    requires forall j :: j in ptc' ==> ptc'[j] == if j in Groups(labels)[t].1 then
               Summarize(valid, Groups(labels)[t].0, Groups(labels)[t].1) else ptc[j]
    ensures PointToCluster(ptc', valid, labels)
  {
  }

  /** The points of the first t entries of the cluster map are all indexed. */
  ghost predicate Covered(ptc: map<int, Summary>, g: seq<(int, seq<int>)>, t: int)
    requires 0 <= t <= |g|
  {
    forall u, j :: 0 <= u < t && j in g[u].1 ==> j in ptc
  }

  lemma CoveredStep(ptc: map<int, Summary>, ptc': map<int, Summary>, g: seq<(int, seq<int>)>, t: int)
    requires 0 <= t < |g| && Covered(ptc, g, t)
    requires forall j :: j in ptc' <==> j in ptc || j in g[t].1
    ensures Covered(ptc', g, t + 1)
  {
  }

  /** Once every entry is indexed, so is every clustered point. */
  lemma CoveredAll(ptc: map<int, Summary>, labels: seq<int>)
    requires Covered(ptc, Groups(labels), |Groups(labels)|)
    ensures forall j :: 0 <= j < |labels| && labels[j] > 0 ==> j in ptc
  {
    var g := Groups(labels);
    forall j | 0 <= j < |labels| && labels[j] > 0 ensures j in ptc {
      GroupsCover(labels, j);
      MembersComplete(labels, |labels|, labels[j], j);
      var t :| 0 <= t < |g| && g[t] == (labels[j], Members(labels, labels[j]));
      assert j in g[t].1;
    }
  }

  /** The third loop: indexes every clustered point by its cluster. */
  method IndexClusters(valid: seq<Point>, labels: seq<int>, clusters: seq<(Summary, seq<int>)>)
    returns (ptc: map<int, Summary>)
    requires |labels| == |valid| && GroupsOver(Groups(labels), |valid|)
    requires |clusters| == |Groups(labels)|
    requires forall t :: 0 <= t < |clusters| ==>
               clusters[t] == (Summarize(valid, Groups(labels)[t].0, Groups(labels)[t].1), Groups(labels)[t].1)
    ensures PointToCluster(ptc, valid, labels)
    ensures forall j :: 0 <= j < |labels| && labels[j] > 0 ==> j in ptc
  {
    ghost var g := Groups(labels);
    GroupEntries(labels);
    ptc := map[];
    for t := 0 to |clusters|
      invariant PointToCluster(ptc, valid, labels)
      invariant Covered(ptc, g, t)
    {
      var (cluster, pointIndices) := clusters[t];
      ghost var before := ptc;
      ptc := MapPoints(ptc, cluster, pointIndices);
      MapPointsKeeps(before, ptc, valid, labels, t);
      CoveredStep(before, ptc, g, t);
    }
    CoveredAll(ptc, labels);
  }

  // ------------------------------------------------------------------
  // Output
  // ------------------------------------------------------------------

  /** The `cluster` field of a clustered output item (the generated label is not modelled). */
  datatype ClusterTag = ClusterTag(clusterId: int, articleCount: nat, avgScore: real, isRepresentative: bool)

  /** An output item: the input item with `cluster`, `isNoise` and `clusteringSkipped` added
      (`clusteringSkipped` false stands for the field being absent). */
  datatype Out = Out(item: Item, cluster: Option<ClusterTag>, isNoise: bool, clusteringSkipped: bool)

  datatype Outcome = PassThrough(items: seq<Item>) | Annotated(out: seq<Out>)

  function Tag(s: Summary, p: Point): ClusterTag
    requires s.articles != []
  {
    ClusterTag(s.clusterId, s.articleCount, s.avgScore, s.articles[0].item.url == p.item.url)
  }

  /** Every item flagged as noise, without clustering. */
  function AllNoise(items: seq<Item>): (r: seq<Out>)
    ensures |r| == |items| && forall a :: 0 <= a < |items| ==> r[a] == Out(items[a], None, true, false)
  {
    seq(|items|, a requires 0 <= a < |items| => Out(items[a], None, true, false))
  }

  /** The output for valid point i under the labels. */
  function OutFor(valid: seq<Point>, labels: seq<int>, i: int): Out
    requires |labels| == |valid| && 0 <= i < |valid|
  {
    var c := labels[i];
    if c > 0 then
      MembersComplete(labels, |labels|, c, i);
      Out(valid[i].item, Some(Tag(Summarize(valid, c, Members(labels, c)), valid[i])), false, false)
    else Out(valid[i].item, None, true, false)
  }

  /** The outputs of valid points 0 .. k-1. */
  function ValidOuts(valid: seq<Point>, labels: seq<int>, k: nat): (r: seq<Out>)
    requires |labels| == |valid| && k <= |valid|
    ensures |r| == k && forall a :: 0 <= a < k ==> r[a] == OutFor(valid, labels, a)
  {
    if k == 0 then [] else ValidOuts(valid, labels, k - 1) + [OutFor(valid, labels, k - 1)]
  }

  /** The outputs of the first k items without an embedding. */
  function SkippedOuts(invalid: seq<Point>, k: nat): (r: seq<Out>)
    requires k <= |invalid|
    ensures |r| == k && forall a :: 0 <= a < k ==> r[a] == Out(invalid[a].item, None, true, true)
  {
    if k == 0 then [] else SkippedOuts(invalid, k - 1) + [Out(invalid[k - 1].item, None, true, true)]
  }

  /** The annotated output: the valid points in input order, then the items without an
      embedding, flagged as skipped. */
  function Annotate(items: seq<Item>, labels: seq<int>): seq<Out>
    requires |labels| == |ValidPoints(items)|
  {
    ValidOuts(ValidPoints(items), labels, |labels|) + SkippedOuts(InvalidItems(items), |InvalidItems(items)|)
  }

  /** The output item of valid point i, read from `pointToCluster`. */
  lemma OutFromIndex(valid: seq<Point>, labels: seq<int>, ptc: map<int, Summary>, i: int)
    requires |labels| == |valid| && 0 <= i < |valid|
    requires PointToCluster(ptc, valid, labels)
    requires forall j :: 0 <= j < |labels| && labels[j] > 0 ==> j in ptc
    ensures i in ptc ==>
              ptc[i].articles != [] && OutFor(valid, labels, i) == Out(valid[i].item, Some(Tag(ptc[i], valid[i])), false, false)
    ensures i !in ptc ==> OutFor(valid, labels, i) == Out(valid[i].item, None, true, false)
  {
  }

  /** The last two loops: one output item per valid point, then one per skipped item. */
  method BuildOutput(items: seq<Item>, labels: seq<int>, ptc: map<int, Summary>) returns (output: seq<Out>)
    requires |labels| == |ValidPoints(items)|
    requires PointToCluster(ptc, ValidPoints(items), labels)
    requires forall j :: 0 <= j < |labels| && labels[j] > 0 ==> j in ptc
    ensures output == Annotate(items, labels)
  {
    var validPoints := ValidPoints(items);
    var invalidItems := InvalidItems(items);
    output := [];
    for i := 0 to |validPoints|
      invariant output == ValidOuts(validPoints, labels, i)
    {
      var point := validPoints[i];
      OutFromIndex(validPoints, labels, ptc, i);
      if i in ptc {
        var cluster := ptc[i];
        output := output + [Out(point.item, Some(Tag(cluster, point)), false, false)];
      } else {
        output := output + [Out(point.item, None, true, false)];
      }
    }
    ghost var head := output;
    for i := 0 to |invalidItems|
      invariant output == head + SkippedOuts(invalidItems, i)
    {
      output := output + [Out(invalidItems[i].item, None, true, true)];
    }
  }

  // ------------------------------------------------------------------
  // The node
  // ------------------------------------------------------------------

  /** The event clustering node. Disabled, it passes its input through; with no items it
      returns none; with fewer than `minPts` items, or fewer than `minPts` items carrying an
      embedding, every item is flagged as noise. Otherwise DBSCAN runs over the items with an
      embedding and the output is `Annotate` of its labels. */
  method EventClusteringNode(items: seq<Item>, enabled: bool, eps: real, minPts: int, maxSize: int)
    returns (r: Outcome, ghost labels: seq<int>, ghost clusters: nat)
    ensures !enabled ==> r == PassThrough(items)
    ensures enabled && items == [] ==> r == Annotated([])
    ensures enabled && items != [] && (|items| < minPts || |ValidPoints(items)| < minPts) ==>
              r == Annotated(AllNoise(items))
    ensures enabled && items != [] && |items| >= minPts && |ValidPoints(items)| >= minPts ==>
              Labelling(labels, clusters, |ValidPoints(items)|, minPts, maxSize,
                        NearOf(Embeddings(ValidPoints(items)), eps)) &&
              r == Annotated(Annotate(items, labels))
  {
    labels, clusters := [], 0;
    if !enabled {
      return PassThrough(items), labels, clusters;
    }
    if |items| == 0 {
      return Annotated([]), labels, clusters;
    }
    if |items| < minPts {
      return Annotated(AllNoise(items)), labels, clusters;
    }
    var validPoints := ValidPoints(items);
    if |validPoints| < minPts {
      return Annotated(AllNoise(items)), labels, clusters;
    }
    var dbscanLabels;
    dbscanLabels, clusters := Dbscan(|validPoints|, minPts, maxSize, NearOf(Embeddings(validPoints), eps));
    labels := dbscanLabels;
    var clusterMap, noiseCount := GroupByLabel(dbscanLabels);
    GroupsOverLabels(dbscanLabels);
    var clusterList := BuildClusters(validPoints, clusterMap);
    var pointToCluster := IndexClusters(validPoints, dbscanLabels, clusterList);
    var output := BuildOutput(items, dbscanLabels, pointToCluster);
    r := Annotated(output);
  }

  // ------------------------------------------------------------------
  // Properties of the output
  // ------------------------------------------------------------------

  /** The output holds the valid points in input order, then the items without an embedding
      in input order; with `PartitionCount`, `ValidComplete`, `InvalidComplete`, `ValidInOrder`
      and `InvalidInOrder` every input item appears exactly once. */
  lemma AnnotateItems(items: seq<Item>, labels: seq<int>)
    requires |labels| == |ValidPoints(items)|
    ensures |Annotate(items, labels)| == |items|
    ensures forall a :: 0 <= a < |ValidPoints(items)| ==>
              Annotate(items, labels)[a].item == items[ValidPoints(items)[a].idx] &&
              !Annotate(items, labels)[a].clusteringSkipped
    ensures forall b :: 0 <= b < |InvalidItems(items)| ==>
              Annotate(items, labels)[|ValidPoints(items)| + b] ==
              Out(items[InvalidItems(items)[b].idx], None, true, true)
  {
    PartitionCount(items, |items|);
  }

  /** A valid point is flagged as noise exactly when DBSCAN left it out of every cluster. */
  lemma AnnotateNoise(items: seq<Item>, labels: seq<int>, a: int)
    requires |labels| == |ValidPoints(items)| && 0 <= a < |labels|
    ensures Annotate(items, labels)[a].isNoise <==> labels[a] <= 0
    ensures Annotate(items, labels)[a].cluster.None? <==> labels[a] <= 0
  {
  }

  /** The tag of a clustered point names its cluster, counts its members and marks it as
      representative exactly when its url is that of the cluster's top-scored article. */
  lemma AnnotateTag(items: seq<Item>, labels: seq<int>, a: int)
    requires |labels| == |ValidPoints(items)| && 0 <= a < |labels| && labels[a] > 0
    ensures a in Members(labels, labels[a])
    ensures var valid := ValidPoints(items);
            var tag := Annotate(items, labels)[a].cluster.value;
            var top := Summarize(valid, labels[a], Members(labels, labels[a])).articles[0];
            Annotate(items, labels)[a].cluster.Some? &&
            tag.clusterId == labels[a] &&
            tag.articleCount == CountLabel(labels, labels[a]) &&
            (tag.isRepresentative <==> top.item.url == valid[a].item.url)
  {
    MembersCount(labels, |labels|, labels[a]);
    assert labels[..|labels|] == labels;
    MembersComplete(labels, |labels|, labels[a], a);
  }

  /** Every cluster has a member flagged as representative: its top-scored article. */
  lemma RepresentativeExists(items: seq<Item>, labels: seq<int>, a: int)
    requires |labels| == |ValidPoints(items)| && 0 <= a < |labels| && labels[a] > 0
    ensures exists b :: 0 <= b < |labels| && labels[b] == labels[a] &&
              Annotate(items, labels)[b].cluster.Some? && Annotate(items, labels)[b].cluster.value.isRepresentative
  {
    var valid := ValidPoints(items);
    var c := labels[a];
    var idxs := Members(labels, c);
    MembersComplete(labels, |labels|, c, a);
    SummarizeMeans(valid, c, idxs);
    var s := Summarize(valid, c, idxs);
    var t :| 0 <= t < |idxs| && valid[idxs[t]] == s.articles[0];
    var b := idxs[t];
    assert labels[b] == c;
    assert Annotate(items, labels)[b] == OutFor(valid, labels, b);
  }

  /** No cluster in the output is larger than the cap. */
  lemma ClusterSizeCapped(items: seq<Item>, labels: seq<int>, clusters: nat, minPts: int, maxSize: int,
                          near: (int, int) -> bool, a: int)
    requires Labelling(labels, clusters, |ValidPoints(items)|, minPts, maxSize, near)
    requires 0 <= a < |labels| && labels[a] > 0
    ensures Annotate(items, labels)[a].cluster.Some?
    ensures Annotate(items, labels)[a].cluster.value.articleCount <= Max(1, maxSize)
  {
    AnnotateTag(items, labels, a);
  }
}
