// The network analyzer of the primary scenario: adjacency lists built from a
// dense adjacency matrix, one breadth-first search per source agent filling a
// shortest-path matrix, and the summary statistics computed from it.

module Analyzer {
  import opened Graphs
  import opened Reach
  import opened Metrics

  // ---------------------------------------------------------------
  // Adjacency lists
  // ---------------------------------------------------------------

  /** Positions of the set entries of a row, in increasing order. */
  function Neighbours(row: seq<bool>): (r: seq<nat>)
    ensures |r| == Count(row)
    ensures forall k :: 0 <= k < |r| ==> r[k] < |row| && row[r[k]]
  {
    if row == [] then []
    else Neighbours(row[..|row| - 1]) + (if row[|row| - 1] then [|row| - 1] else [])
  }

  lemma {:induction false} NeighboursExact(row: seq<bool>)
    ensures Increasing(Neighbours(row))
    ensures forall x :: x in Neighbours(row) <==> 0 <= x < |row| && row[x]
  {
    if row != [] {
      var init := row[..|row| - 1];
      NeighboursExact(init);
      forall x | 0 <= x < |row| && row[x] ensures x in Neighbours(row) {
        if x < |row| - 1 {
          assert init[x];
        }
      }
    }
  }

  /** The adjacency lists of a matrix: list i holds the j with m[i][j] set. */
  function AdjOf(m: Matrix): (adj: AdjList)
    requires IsSquare(m, |m|)
    ensures |adj| == |m|
  {
    seq(|m|, i requires 0 <= i < |m| => Neighbours(m[i]))
  }

  /** Adjacency lists list exactly the set entries, in increasing order; symmetric matrices give symmetric lists. */
  lemma AdjOfExact(m: Matrix)
    requires IsSquare(m, |m|)
    ensures WellFormed(AdjOf(m))
    ensures forall i :: 0 <= i < |m| ==> Increasing(AdjOf(m)[i])
    ensures forall i, x :: 0 <= i < |m| ==> (x in AdjOf(m)[i] <==> 0 <= x < |m| && m[i][x])
    ensures Symmetric(m) ==> SymmetricAdj(AdjOf(m))
  {
    forall i | 0 <= i < |m| ensures Increasing(AdjOf(m)[i]) && forall x :: x in AdjOf(m)[i] <==> 0 <= x < |m| && m[i][x] {
      NeighboursExact(m[i]);
    }
  }

  // ---------------------------------------------------------------
  // Breadth-first search from one source
  // ---------------------------------------------------------------

  /** Number of vertices the search has not reached yet (distance -1). */
  function Unreached(d: seq<int>): nat
  {
    if d == [] then 0 else Unreached(d[..|d| - 1]) + (if d[|d| - 1] == -1 then 1 else 0)
  }

  lemma {:induction false} UnreachedUpdate(d: seq<int>, k: nat, x: int)
    requires k < |d| && d[k] == -1 && x != -1
    ensures Unreached(d[k := x]) + 1 == Unreached(d)
    decreases |d|
  {
    var last := |d| - 1;
    if k < last {
      assert d[k := x][..last] == d[..last][k := x];
      UnreachedUpdate(d[..last], k, x);
    } else {
      assert d[k := x][..last] == d[..last];
    }
  }

  /** Every agent the search has reached carries its breadth-first distance. */
  ghost predicate Sound(adj: AdjList, s: nat, dist: seq<int>)
  {
    |dist| == |adj| && s < |adj| && dist[s] == 0
    && (forall w :: 0 <= w < |adj| ==> dist[w] >= -1)
    && (forall w {:trigger IsDist(adj, s, w, dist[w])} :: 0 <= w < |adj| && dist[w] >= 0 ==> IsDist(adj, s, w, dist[w]))
  }

  /** The queue holds distinct reached agents of layers lv and lv + 1, in layer order. */
  ghost predicate Queued(dist: seq<int>, queue: seq<nat>, lv: nat)
  {
    (forall k :: 0 <= k < |queue| ==> queue[k] < |dist| && lv <= dist[queue[k]] <= lv + 1)
    && (forall a, b :: 0 <= a < b < |queue| ==> dist[queue[a]] <= dist[queue[b]])
    && (forall a, b :: 0 <= a < b < |queue| ==> queue[a] != queue[b])
  }

  /** Every agent within lv edges of the source has been reached. */
  ghost predicate LayerDone(adj: AdjList, s: nat, dist: seq<int>, lv: nat)
    requires |dist| == |adj|
  {
    forall w {:trigger Within(adj, s, lv, w)} :: 0 <= w < |adj| && Within(adj, s, lv, w) ==> dist[w] >= 0
  }

  /** Every reached agent that has left the queue (other than v) has had all its neighbours reached. */
  ghost predicate Expanded(adj: AdjList, dist: seq<int>, queue: seq<nat>, v: int)
    requires WellFormed(adj) && |dist| == |adj|
  {
    forall u, x :: 0 <= u < |adj| && u != v && dist[u] >= 0 && u !in queue && x in adj[u] ==> dist[x] >= 0
  }

  /** Reaching w from v (at distance lv) for the first time gives w its distance lv + 1. */
  lemma {:induction false} DiscoverSound(adj: AdjList, s: nat, dist: seq<int>, v: nat, w: nat, lv: nat)
    requires WellFormed(adj) && Sound(adj, s, dist) && LayerDone(adj, s, dist, lv)
    requires v < |adj| && dist[v] == lv && w in adj[v] && dist[w] == -1
    ensures Sound(adj, s, dist[w := lv + 1])
  {
    var n := |adj|;
    assert IsDist(adj, s, v, dist[v]);
    assert Within(adj, s, lv + 1, w) by {
      assert 0 <= v < n && Within(adj, s, lv, v) && w in adj[v];
    }
    assert IsDist(adj, s, w, lv + 1);
    var d' := dist[w := lv + 1];
    forall x | 0 <= x < n && d'[x] >= 0 ensures IsDist(adj, s, x, d'[x]) {
      if x != w {
        assert d'[x] == dist[x];
      }
    }
  }

  lemma {:induction false} DiscoverQueued(dist: seq<int>, queue: seq<nat>, w: nat, lv: nat)
    requires Queued(dist, queue, lv) && w < |dist| && dist[w] == -1
    ensures Queued(dist[w := lv + 1], queue + [w], lv)
  {
    var d', q' := dist[w := lv + 1], queue + [w];
    assert forall k :: 0 <= k < |queue| ==> queue[k] != w;
    assert forall k :: 0 <= k < |queue| ==> d'[q'[k]] == dist[queue[k]];
  }

  lemma {:induction false} DiscoverExpanded(adj: AdjList, dist: seq<int>, queue: seq<nat>, v: nat, w: nat, lv: nat)
    requires WellFormed(adj) && |dist| == |adj| && Expanded(adj, dist, queue, v)
    requires w < |adj| && dist[w] == -1
    ensures Expanded(adj, dist[w := lv + 1], queue + [w], v)
  {
  }

  /** The search state while the neighbours of v (at layer lv) are being visited. */
  ghost predicate Visiting(adj: AdjList, s: nat, dist: seq<int>, queue: seq<nat>, v: nat, lv: nat)
    requires WellFormed(adj)
  {
    Sound(adj, s, dist) && Queued(dist, queue, lv) && LayerDone(adj, s, dist, lv)
    && Expanded(adj, dist, queue, v) && v < |adj| && dist[v] == lv && v !in queue
  }

  /** One discovery: the search state stays consistent when w (unreached, next to v) is reached. */
  lemma Discover(adj: AdjList, s: nat, dist: seq<int>, queue: seq<nat>, v: nat, w: nat, lv: nat)
    requires WellFormed(adj) && Visiting(adj, s, dist, queue, v, lv)
    requires w in adj[v] && dist[w] == -1
    ensures Visiting(adj, s, dist[w := lv + 1], queue + [w], v, lv)
    ensures forall x :: 0 <= x < |adj| && dist[x] >= 0 ==> dist[w := lv + 1][x] >= 0
    ensures Unreached(dist[w := lv + 1]) + 1 == Unreached(dist)
  {
    DiscoverSound(adj, s, dist, v, w, lv);
    DiscoverQueued(dist, queue, w, lv);
    DiscoverExpanded(adj, dist, queue, v, w, lv);
    UnreachedUpdate(dist, w, lv + 1);
  }

  /** Every agent of the list has been reached. */
  ghost predicate AllReached(ns: seq<nat>, dist: seq<int>)
  {
    forall k :: 0 <= k < |ns| ==> ns[k] < |dist| && dist[ns[k]] >= 0
  }

  /** Reached agents stay reached, so a reached list grows by each newly visited agent. */
  lemma KeepReached(ns: seq<nat>, dist: seq<int>, dist': seq<int>, x: nat)
    requires AllReached(ns, dist) && |dist'| == |dist|
    requires forall u :: 0 <= u < |dist| && dist[u] >= 0 ==> dist'[u] >= 0
    requires x < |dist'| && dist'[x] >= 0
    ensures AllReached(ns + [x], dist')
  {
  }

  /** Once all neighbours of v are reached, v counts as expanded. */
  lemma FinishExpand(adj: AdjList, dist: seq<int>, queue: seq<nat>, v: nat)
    requires WellFormed(adj) && |dist| == |adj| && Expanded(adj, dist, queue, v)
    requires v < |adj| && AllReached(adj[v], dist)
    ensures Expanded(adj, dist, queue, -1)
  {
  }

  /**
   * The inner loop of the search: the neighbours of v are visited in list
   * order, and each one not reached yet gets distance dist[v] + 1 and joins
   * the back of the queue.
   */
  method Expand(adj: AdjList, s: nat, dist: seq<int>, queue: seq<nat>, v: nat, ghost lv: nat)
    returns (dist': seq<int>, queue': seq<nat>)
    requires WellFormed(adj) && Visiting(adj, s, dist, queue, v, lv)
    ensures Sound(adj, s, dist') && Queued(dist', queue', lv) && LayerDone(adj, s, dist', lv)
    ensures Expanded(adj, dist', queue', -1)
    ensures 2 * Unreached(dist') + |queue'| <= 2 * Unreached(dist) + |queue|
  {
    dist', queue' := dist, queue;
    var i := 0;
    while i < |adj[v]|
      invariant 0 <= i <= |adj[v]|
      invariant Visiting(adj, s, dist', queue', v, lv)
      invariant AllReached(adj[v][..i], dist')
      invariant 2 * Unreached(dist') + |queue'| <= 2 * Unreached(dist) + |queue|
    {
      var w := adj[v][i];
      ghost var before := dist';
      if dist'[w] == -1 {
        Discover(adj, s, dist', queue', v, w, lv);
        dist' := dist'[w := dist'[v] + 1];
        queue' := queue' + [w];
      }
      KeepReached(adj[v][..i], before, dist', w);
      assert adj[v][..i + 1] == adj[v][..i] + [w];
      i := i + 1;
    }
    assert adj[v][..i] == adj[v];
    FinishExpand(adj, dist', queue', v);
  }

  /** Taking v off the front of the queue: when v opens layer lv + 1, that layer is fully reached. */
  lemma AdvanceLayer(adj: AdjList, s: nat, dist: seq<int>, queue: seq<nat>, lv: nat)
    requires WellFormed(adj) && Sound(adj, s, dist) && Queued(dist, queue, lv)
    requires LayerDone(adj, s, dist, lv) && Expanded(adj, dist, queue, -1)
    requires queue != [] && dist[queue[0]] == lv + 1
    ensures LayerDone(adj, s, dist, lv + 1)
  {
    var n := |adj|;
    forall w | 0 <= w < n && Within(adj, s, lv + 1, w) ensures dist[w] >= 0 {
      if !Within(adj, s, lv, w) {
        var u :| 0 <= u < n && Within(adj, s, lv, u) && w in adj[u];
        DistAtMost(adj, s, u, dist[u], lv);
        assert u !in queue;
      }
    }
  }

  /** Taking the front agent off the queue keeps the search state consistent at its layer. */
  lemma PopFront(adj: AdjList, s: nat, dist: seq<int>, queue: seq<nat>, lv: nat)
    requires WellFormed(adj) && Sound(adj, s, dist) && Queued(dist, queue, lv)
    requires LayerDone(adj, s, dist, lv) && Expanded(adj, dist, queue, -1)
    requires queue != []
    ensures queue[0] < |adj| && dist[queue[0]] >= 0
    ensures Visiting(adj, s, dist, queue[1..], queue[0], dist[queue[0]])
  {
    if dist[queue[0]] == lv + 1 {
      AdvanceLayer(adj, s, dist, queue, lv);
    }
  }

  /**
   * The search of set_shortest_path from source s, with its FIFO queue:
   * every agent gets its breadth-first distance from s, -1 when unreachable.
   */
  method Bfs(adj: AdjList, s: nat) returns (dist: seq<int>)
    requires WellFormed(adj) && s < |adj|
    ensures |dist| == |adj|
    ensures forall w :: 0 <= w < |adj| ==> IsDist(adj, s, w, dist[w])
  {
    var n := |adj|;
    dist := seq(n, w => if w == s then 0 else -1);
    var queue: seq<nat> := [s];
    ghost var lv: nat := 0;
    while queue != []
      invariant Sound(adj, s, dist) && Queued(dist, queue, lv) && LayerDone(adj, s, dist, lv)
      invariant Expanded(adj, dist, queue, -1)
      decreases 2 * Unreached(dist) + |queue|
    {
      var v := queue[0];
      PopFront(adj, s, dist, queue, lv);
      lv := dist[v];
      queue := queue[1..];
      dist, queue := Expand(adj, s, dist, queue, v, lv);
    }
    var mark := seq(n, u requires 0 <= u < n => dist[u] >= 0);
    forall w | 0 <= w < n && dist[w] < 0 ensures IsDist(adj, s, w, dist[w]) {
      forall k: nat ensures !Within(adj, s, k, w) {
        if Within(adj, s, k, w) {
          ClosedHoldsReachable(adj, s, mark, k, w);
        }
      }
    }
  }

  // ---------------------------------------------------------------
  // The shortest-path matrix
  // ---------------------------------------------------------------

  function Max(a: nat, b: nat): nat { if a < b then b else a }
  function Min(a: nat, b: nat): nat { if a < b then a else b }

  /**
   * Entry (a, b) once the searches from the sources below s have written
   * their rows and columns: the search from max(a, b) writes it last, the one
   * from min(a, b) before it, and an entry neither has reached keeps -1.
   */
  ghost predicate Entry(adj: AdjList, s: nat, a: nat, b: nat, v: int)
  {
    if Max(a, b) < s then IsDist(adj, Max(a, b), Min(a, b), v)
    else if Min(a, b) < s then IsDist(adj, Min(a, b), Max(a, b), v)
    else v == -1
  }

  ghost predicate FilledUpTo(adj: AdjList, sp: DistMatrix, s: nat)
  {
    IsDistMatrix(sp, |adj|)
    && forall a, b :: 0 <= a < |adj| && 0 <= b < |adj| ==> Entry(adj, s, a, b, sp[a][b])
  }

  /** The matrix set_shortest_path leaves behind for the network m. */
  ghost predicate ShortestPaths(m: Matrix, sp: DistMatrix)
    requires IsSquare(m, |m|)
  {
    FilledUpTo(AdjOf(m), sp, |m|)
  }

  /** sp' is sp with row s and column s replaced by d. */
  predicate StoredAt(sp: DistMatrix, sp': DistMatrix, s: nat, d: seq<int>)
    requires IsDistMatrix(sp, |sp|) && IsDistMatrix(sp', |sp|) && s < |sp| && |d| == |sp|
  {
    (forall b :: 0 <= b < |sp| ==> sp'[s][b] == d[b])
    && (forall a :: 0 <= a < |sp| ==> sp'[a][s] == d[a])
    && (forall a, b :: 0 <= a < |sp| && 0 <= b < |sp| && a != s && b != s ==> sp'[a][b] == sp[a][b])
  }

  /** Copies the distances from s into row s and column s, entry by entry. */
  method Store(sp: DistMatrix, s: nat, d: seq<int>) returns (sp': DistMatrix)
    requires IsDistMatrix(sp, |sp|) && s < |sp| && |d| == |sp|
    ensures IsDistMatrix(sp', |sp|) && StoredAt(sp, sp', s, d)
  {
    var n := |sp|;
    sp' := sp;
    var i := 0;
    while i < n
      invariant 0 <= i <= n && IsDistMatrix(sp', n)
      invariant forall b :: 0 <= b < i ==> sp'[s][b] == d[b]
      invariant forall a :: 0 <= a < i ==> sp'[a][s] == d[a]
      invariant forall a, b :: 0 <= a < n && 0 <= b < n && !(a == s && b < i) && !(b == s && a < i) ==>
                  sp'[a][b] == sp[a][b]
    {
      sp' := sp'[s := sp'[s][i := d[i]]];
      sp' := sp'[i := sp'[i][s := d[i]]];
      i := i + 1;
    }
  }

  /** Writing the distances from s into row s and column s completes the entries of source s. */
  lemma {:induction false} StoreKeepsFilled(adj: AdjList, sp: DistMatrix, sp': DistMatrix, s: nat, d: seq<int>)
    requires FilledUpTo(adj, sp, s) && s < |adj| && |d| == |adj|
    requires forall w :: 0 <= w < |adj| ==> IsDist(adj, s, w, d[w])
    requires IsDistMatrix(sp', |adj|) && StoredAt(sp, sp', s, d)
    ensures FilledUpTo(adj, sp', s + 1)
  {
    var n := |adj|;
    forall a, b | 0 <= a < n && 0 <= b < n ensures Entry(adj, s + 1, a, b, sp'[a][b]) {
      if a == s {
        assert IsDist(adj, s, b, d[b]);
      } else if b == s {
        assert IsDist(adj, s, a, d[a]);
      } else {
        assert Entry(adj, s, a, b, sp[a][b]);
      }
    }
  }

  /** With symmetric adjacency every finished entry holds the distance from its row to its column. */
  lemma FinishedEntry(adj: AdjList, sp: DistMatrix, a: nat, b: nat)
    requires WellFormed(adj) && SymmetricAdj(adj) && FilledUpTo(adj, sp, |adj|)
    requires a < |adj| && b < |adj|
    ensures IsDist(adj, a, b, sp[a][b])
  {
    assert Entry(adj, |adj|, a, b, sp[a][b]);
    if a < b {
      DistSymmetric(adj, b, a, sp[a][b]);
    }
  }

  /** In a symmetric network the matrix is symmetric and holds the distance between a and b. */
  lemma ShortestPathsSymmetric(m: Matrix, sp: DistMatrix)
    requires IsSquare(m, |m|) && Symmetric(m) && ShortestPaths(m, sp)
    ensures IsDistMatrix(sp, |m|) && SymmetricDist(sp)
    ensures forall a, b :: 0 <= a < |m| && 0 <= b < |m| ==> IsDist(AdjOf(m), a, b, sp[a][b])
    ensures forall a :: 0 <= a < |m| ==> sp[a][a] == 0
  {
    var adj, n := AdjOf(m), |m|;
    AdjOfExact(m);
    forall a, b | 0 <= a < n && 0 <= b < n ensures IsDist(adj, a, b, sp[a][b]) {
      FinishedEntry(adj, sp, a, b);
    }
    forall a, b | 0 <= a < n && 0 <= b < n ensures sp[a][b] == sp[b][a] {
      FinishedEntry(adj, sp, a, b);
      FinishedEntry(adj, sp, b, a);
      DistSymmetric(adj, b, a, sp[b][a]);
      DistUnique(adj, a, b, sp[a][b], sp[b][a]);
    }
    forall a | 0 <= a < n ensures sp[a][a] == 0 {
      FinishedEntry(adj, sp, a, a);
      DistZero(adj, a, a, sp[a][a]);
    }
  }

  /** Every pair of distinct agents is linked. */
  predicate Complete(m: Matrix)
    requires IsSquare(m, |m|)
  {
    forall a, b :: 0 <= a < |m| && 0 <= b < |m| && a != b ==> m[a][b]
  }

  /** In a complete network every pair of distinct agents is at distance one. */
  lemma CompleteAllAdjacent(m: Matrix, sp: DistMatrix)
    requires IsSquare(m, |m|) && Complete(m) && ShortestPaths(m, sp)
    ensures IsDistMatrix(sp, |m|) && AllAdjacent(sp)
  {
    var adj, n := AdjOf(m), |m|;
    AdjOfExact(m);
    forall a, b | 0 <= a < b < n ensures sp[a][b] == 1 {
      assert Entry(adj, n, a, b, sp[a][b]);
      assert Within(adj, b, 1, a) by {
        assert Within(adj, b, 0, b) && a in adj[b];
      }
      assert IsDist(adj, b, a, 1);
      DistUnique(adj, b, a, sp[a][b], 1);
    }
  }

  // ---------------------------------------------------------------
  // The statistics loops
  // ---------------------------------------------------------------

  /**
   * The inner loop of set_network_metrics for row i: each target j > i at a
   * positive distance adds to the path-length and efficiency totals, to the
   * closeness totals of both i and j, and to the sums and squares of row i.
   */
  method ScanRow(sp: DistMatrix, i: nat, apl: real, eff: real, close: seq<real>, sum: seq<real>, sq: seq<real>)
    returns (apl': real, eff': real, close': seq<real>, sum': seq<real>, sq': seq<real>)
    requires IsDistMatrix(sp, |sp|) && i < |sp| && |close| == |sp| && |sum| == |sp| && |sq| == |sp|
    ensures apl' == apl + RowSum(sp, i, |sp|) as real
    ensures eff' == eff + RowInv(sp, i, |sp|)
    ensures |close'| == |sp| && close'[i] == close[i] + RowSum(sp, i, |sp|) as real
    ensures forall x :: 0 <= x < |sp| && x != i ==> close'[x] == close[x] + Fwd(sp, i, x) as real
    ensures sum' == sum[i := sum[i] + RowSum(sp, i, |sp|) as real]
    ensures sq' == sq[i := sq[i] + RowSq(sp, i, |sp|) as real]
  {
    apl', eff', close', sum', sq' := apl, eff, close, sum, sq;
    var j := i;
    while j < |sp|
      invariant i <= j <= |sp|
      invariant apl' == apl + RowSum(sp, i, j) as real
      invariant eff' == eff + RowInv(sp, i, j)
      invariant |close'| == |sp| && close'[i] == close[i] + RowSum(sp, i, j) as real
      invariant forall x :: 0 <= x < |sp| && x != i ==> close'[x] == close[x] + (if x < j then Fwd(sp, i, x) else 0) as real
      invariant sum' == sum[i := sum[i] + RowSum(sp, i, j) as real]
      invariant sq' == sq[i := sq[i] + RowSq(sp, i, j) as real]
    {
      if i != j {
        var dist := sp[i][j];
        if dist > 0 {
          var f := dist as real;
          apl' := apl' + f;
          eff' := eff' + 1.0 / f;
          close' := close'[i := close'[i] + f];
          close' := close'[j := close'[j] + f];
          sum' := sum'[i := sum'[i] + f];
          assert (dist * dist) as real == f * f;
          sq' := sq'[i := sq'[i] + f * f];
        }
      }
      j := j + 1;
    }
  }

  /** The local clustering numerator: pairs j < k of listed neighbours that are linked, over both loops. */
  method CountTriangles(net: Matrix, row: seq<nat>) returns (count: nat)
    requires IsSquare(net, |net|) && Bounded(row, |net|)
    ensures count == Triangles(net, row, |row|)
  {
    count := 0;
    var p := 0;
    while p < |row|
      invariant 0 <= p <= |row|
      invariant count == Triangles(net, row, p)
    {
      var j := row[p];
      var q := 0;
      while q < |row|
        invariant 0 <= q <= |row|
        invariant count == Triangles(net, row, p) + Hits(net, row, j, q)
      {
        var k := row[q];
        if j < k && net[j][k] {
          count := count + 1;
        }
        q := q + 1;
      }
      p := p + 1;
    }
  }

  /** The running values of the first loop of set_network_metrics. */
  datatype Totals = Totals(
    pathLength: real, efficiency: real,
    closeness: seq<real>, closenessCentralization: real, closenessMax: real,
    clustering: real, triadic: real, triadicMax: real,
    pathSum: seq<real>, pathSquares: seq<real>)

  /** The running values once agents 0 .. i - 1 have been scanned. */
  ghost predicate Scanned(net: Matrix, adj: AdjList, sp: DistMatrix, i: nat, t: Totals)
    requires IsSquare(net, |net|) && AdjOver(adj, |net|) && IsDistMatrix(sp, |net|) && i <= |net|
  {
    var n := |net|;
    t.pathLength == Upper(sp, i) as real
    && t.efficiency == UpperInv(sp, i)
    && |t.closeness| == n && |t.pathSum| == n && |t.pathSquares| == n
    && (forall x :: 0 <= x < i ==> t.closeness[x] == Closeness(sp, x))
    && (forall x :: i <= x < n ==> t.closeness[x] == ColSum(sp, x, i) as real)
    && (forall x :: 0 <= x < i ==> t.pathSum[x] == RowSum(sp, x, n) as real)
    && (forall x :: 0 <= x < i ==> t.pathSquares[x] == RowSq(sp, x, n) as real)
    && (forall x :: i <= x < n ==> t.pathSum[x] == 0.0 && t.pathSquares[x] == 0.0)
    && t.closenessCentralization == -ClosenessTotal(sp, i)
    && t.closenessMax == ClosenessMax(sp, i)
    && t.clustering == ClusterSum(net, adj, i)
    && t.triadic == -(TriTotal(net, adj, i) as real)
    && t.triadicMax == TriMax(net, adj, i)
  }

  /** Nothing scanned yet: every total 0 and both maxima at FloatMin. */
  function Start(n: nat): (t: Totals)
    ensures |t.closeness| == n && |t.pathSum| == n && |t.pathSquares| == n
  {
    Totals(0.0, 0.0, seq(n, _ => 0.0), 0.0, FloatMin, 0.0, 0.0, FloatMin, seq(n, _ => 0.0), seq(n, _ => 0.0))
  }

  /**
   * Agent i's closeness, once its column and row sums are complete: N - 1 over
   * the sum when the sum is positive, otherwise it stays 0; then the running
   * centralization and maximum take it in.
   */
  method CloseAgent(sp: DistMatrix, i: nat, closeness: seq<real>, centralization: real, closenessMax: real)
    returns (closeness': seq<real>, centralization': real, closenessMax': real)
    requires IsDistMatrix(sp, |sp|) && i < |sp| && |closeness| == |sp|
    requires closeness[i] == Raw(sp, i) as real
    requires centralization == -ClosenessTotal(sp, i) && closenessMax == ClosenessMax(sp, i)
    ensures closeness' == closeness[i := Closeness(sp, i)]
    ensures centralization' == -ClosenessTotal(sp, i + 1) && closenessMax' == ClosenessMax(sp, i + 1)
  {
    closeness' := closeness;
    if closeness'[i] > 0.0 {
      closeness' := closeness'[i := (|sp| - 1) as real / closeness'[i]];
    }
    centralization' := centralization - closeness'[i];
    closenessMax' := closenessMax;
    if closeness'[i] > closenessMax' {
      closenessMax' := closeness'[i];
    }
  }

  /**
   * Agent i's share of the clustering and triadic totals: with at least two
   * neighbours its triangle count over its neighbour pairs joins the
   * clustering sum, and the count itself the triadic sum and maximum.
   */
  method ClusterAgent(net: Matrix, adj: AdjList, i: nat, clustering: real, triadic: real, triadicMax: real)
    returns (clustering': real, triadic': real, triadicMax': real)
    requires IsSquare(net, |net|) && AdjOver(adj, |net|) && i < |net|
    requires clustering == ClusterSum(net, adj, i)
    requires triadic == -(TriTotal(net, adj, i) as real) && triadicMax == TriMax(net, adj, i)
    ensures clustering' == ClusterSum(net, adj, i + 1)
    ensures triadic' == -(TriTotal(net, adj, i + 1) as real) && triadicMax' == TriMax(net, adj, i + 1)
  {
    clustering', triadic', triadicMax' := clustering, triadic, triadicMax;
    var degree := |adj[i]|;
    if degree >= 2 {
      var numerator := CountTriangles(net, adj[i]);
      var denominator := degree * (degree - 1) / 2;
      PairCountPositive(degree);
      clustering' := clustering' + numerator as real / denominator as real;
      triadic' := triadic' - numerator as real;
      if numerator as real > triadicMax' {
        triadicMax' := numerator as real;
      }
    }
  }

  /** One pass of the outer loop of set_network_metrics, for agent i. */
  method ScanAgent(net: Matrix, adj: AdjList, sp: DistMatrix, i: nat, t: Totals) returns (t': Totals)
    requires IsSquare(net, |net|) && AdjOver(adj, |net|) && IsDistMatrix(sp, |net|) && i < |net|
    requires Scanned(net, adj, sp, i, t)
    ensures Scanned(net, adj, sp, i + 1, t')
  {
    var apl, eff, closeness, pathSum, pathSquares := ScanRow(sp, i, t.pathLength, t.efficiency, t.closeness, t.pathSum, t.pathSquares);
    var centralization, closenessMax;
    closeness, centralization, closenessMax := CloseAgent(sp, i, closeness, t.closenessCentralization, t.closenessMax);
    var clustering, triadic, triadicMax := ClusterAgent(net, adj, i, t.clustering, t.triadic, t.triadicMax);
    t' := Totals(apl, eff, closeness, centralization, closenessMax, clustering, triadic, triadicMax, pathSum, pathSquares);
  }

  /**
   * The two loops of set_network_metrics: the scan of every agent in index
   * order, then the variance terms from the per-agent sums it left behind.
   */
  method Accumulate(net: Matrix, adj: AdjList, sp: DistMatrix) returns (t: Totals, varianceTotal: real)
    requires IsSquare(net, |net|) && AdjOver(adj, |net|) && IsDistMatrix(sp, |net|) && |net| >= 1
    ensures t.pathLength == Upper(sp, |net|) as real && t.efficiency == UpperInv(sp, |net|)
    ensures t.closenessCentralization == -ClosenessTotal(sp, |net|) && t.closenessMax == ClosenessMax(sp, |net|)
    ensures t.clustering == ClusterSum(net, adj, |net|)
    ensures t.triadic == -(TriTotal(net, adj, |net|) as real) && t.triadicMax == TriMax(net, adj, |net|)
    ensures varianceTotal == VarSum(sp, |net|)
  {
    t := Start(|net|);
    var i := 0;
    while i < |net|
      invariant 0 <= i <= |net|
      invariant Scanned(net, adj, sp, i, t)
    {
      t := ScanAgent(net, adj, sp, i, t);
      i := i + 1;
    }
    varianceTotal := VarianceTotal(sp, t.pathSum, t.pathSquares);
  }

  /**
   * The six outputs of set_network_metrics computed from a network, its
   * adjacency lists and its distance matrix.
   */
  method Summarize(net: Matrix, adj: AdjList, sp: DistMatrix)
    returns (pathLength: real, efficiency: real, closeness: real, triadic: real, clustering: real, variance: real)
    requires IsSquare(net, |net|) && AdjOver(adj, |net|) && IsDistMatrix(sp, |net|) && |net| >= 3
    ensures pathLength == AveragePathLength(sp) && efficiency == NetworkEfficiency(sp)
    ensures closeness == CentralizationCloseness(sp) && triadic == CentralizationTriadic(net, adj)
    ensures clustering == GlobalClustering(net, adj) && variance == PathLengthVariance(sp)
  {
    var n := |net|;
    var t, total := Accumulate(net, adj, sp);
    PairCountPositive(n);
    pathLength := t.pathLength / PairCount(n) as real;
    efficiency := t.efficiency / PairCount(n) as real;
    closeness := ClosenessCentralizationOf(t.closenessCentralization, t.closenessMax, n);
    triadic := Centralization(t.triadic, t.triadicMax, n);
    clustering := t.clustering / n as real;
    variance := total / n as real;
  }

  /** The second loop of set_network_metrics: mean square minus squared mean of each agent's forward distances. */
  method VarianceTotal(sp: DistMatrix, pathSum: seq<real>, pathSquares: seq<real>) returns (total: real)
    requires IsDistMatrix(sp, |sp|) && |sp| >= 1 && |pathSum| == |sp| && |pathSquares| == |sp|
    requires forall x :: 0 <= x < |sp| ==> pathSum[x] == RowSum(sp, x, |sp|) as real
    requires forall x :: 0 <= x < |sp| ==> pathSquares[x] == RowSq(sp, x, |sp|) as real
    ensures total == VarSum(sp, |sp|)
  {
    var n := |sp|;
    total := 0.0;
    var i := 0;
    while i < n
      invariant 0 <= i <= n
      invariant total == VarSum(sp, i)
    {
      var mean := pathSum[i] / n as real;
      var meanSquare := pathSquares[i] / n as real;
      total := total + (meanSquare - mean * mean);
      i := i + 1;
    }
  }

  /**
   * The analyzer of the primary scenario.  Its outputs are the fields that
   * set_network_metrics assigns; the shortest-path matrix and the adjacency
   * lists are working state it keeps between the two phases.
   */
  class NetworkAnalyzer {
    const n: nat
    var shortestPath: DistMatrix
    var adjList: AdjList
    var averagePathLength: real
    var networkEfficiency: real
    var globalClustering: real
    var centralizationCloseness: real
    var centralizationTriadic: real
    var shortestPathVariance: real

    /** A fresh analyzer for n agents: every distance -1, no adjacency, every output 0. */
    constructor (n: nat)
      ensures this.n == n && shortestPath == seq(n, _ => seq(n, _ => -1)) && adjList == seq(n, _ => [])
      ensures averagePathLength == 0.0 && networkEfficiency == 0.0 && globalClustering == 0.0
      ensures centralizationCloseness == 0.0 && centralizationTriadic == 0.0 && shortestPathVariance == 0.0
    {
      this.n := n;
      shortestPath := seq(n, _ => seq(n, _ => -1));
      adjList := seq(n, _ => []);
      averagePathLength := 0.0;
      networkEfficiency := 0.0;
      globalClustering := 0.0;
      centralizationCloseness := 0.0;
      centralizationTriadic := 0.0;
      shortestPathVariance := 0.0;
    }

    /** Builds the adjacency lists of the network, row by row and column by column. */
    method BuildAdjacency(network: Matrix)
      requires IsSquare(network, n)
      modifies this`adjList
      ensures adjList == AdjOf(network)
    {
      adjList := seq(n, _ => []);
      var i := 0;
      while i < n
        invariant 0 <= i <= n && |adjList| == n
        invariant forall k :: 0 <= k < i ==> adjList[k] == Neighbours(network[k])
        invariant forall k :: i <= k < n ==> adjList[k] == []
      {
        var j := 0;
        while j < n
          invariant 0 <= j <= n && |adjList| == n
          invariant forall k :: 0 <= k < i ==> adjList[k] == Neighbours(network[k])
          invariant forall k :: i < k < n ==> adjList[k] == []
          invariant adjList[i] == Neighbours(network[i][..j])
        {
          assert network[i][..j + 1][..j] == network[i][..j];
          if network[i][j] {
            adjList := adjList[i := adjList[i] + [j]];
          }
          j := j + 1;
        }
        assert network[i][..n] == network[i];
        i := i + 1;
      }
    }

    /**
     * set_shortest_path: resets the matrix to -1, builds the adjacency lists,
     * and stores the breadth-first distances of every source in its row and
     * its column.
     */
    method SetShortestPath(network: Matrix)
      requires IsSquare(network, n)
      modifies this`shortestPath, this`adjList
      ensures adjList == AdjOf(network)
      ensures ShortestPaths(network, shortestPath)
    {
      shortestPath := seq(n, _ => seq(n, _ => -1));
      BuildAdjacency(network);
      AdjOfExact(network);
      var s := 0;
      while s < n
        invariant 0 <= s <= n && adjList == AdjOf(network)
        invariant FilledUpTo(adjList, shortestPath, s)
      {
        var d := Bfs(adjList, s);
        ghost var before := shortestPath;
        shortestPath := Store(shortestPath, s, d);
        StoreKeepsFilled(adjList, before, shortestPath, s, d);
        s := s + 1;
      }
    }

    /** The outputs are the metrics of the shortest paths of network. */
    ghost predicate Reports(network: Matrix)
      requires IsSquare(network, n) && n >= 3
      reads this
    {
      ShortestPaths(network, shortestPath)
      && averagePathLength == AveragePathLength(shortestPath)
      && networkEfficiency == NetworkEfficiency(shortestPath)
      && centralizationCloseness == CentralizationCloseness(shortestPath)
      && centralizationTriadic == CentralizationTriadic(network, AdjOf(network))
      && globalClustering == GlobalClustering(network, AdjOf(network))
      && shortestPathVariance == PathLengthVariance(shortestPath)
    }

    /**
     * set_network_metrics: recomputes the shortest paths, then the path-length
     * and efficiency totals over N(N-1)/2, the closeness centralization, the
     * Watts-Strogatz clustering, the triadic-participation numerator and the
     * path-length variance, and finally clears the adjacency lists.
     */
    method SetNetworkMetrics(network: Matrix)
      requires IsSquare(network, n) && n >= 3
      modifies this
      ensures ShortestPaths(network, shortestPath)
      ensures averagePathLength == AveragePathLength(shortestPath)
      ensures networkEfficiency == NetworkEfficiency(shortestPath)
      ensures centralizationCloseness == CentralizationCloseness(shortestPath)
      ensures centralizationTriadic == CentralizationTriadic(network, AdjOf(network))
      ensures globalClustering == GlobalClustering(network, AdjOf(network))
      ensures shortestPathVariance == PathLengthVariance(shortestPath)
      ensures adjList == [] && Reports(network)
    {
      SetShortestPath(network);
      AdjOfExact(network);
      averagePathLength, networkEfficiency, centralizationCloseness, centralizationTriadic, globalClustering, shortestPathVariance
        := Summarize(network, adjList, shortestPath);
      adjList := [];
    }
  }
}
