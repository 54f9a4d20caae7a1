// The analyzer of the HashSet variant.  Its adjacency is a set of
// neighbours per agent, and every loop over a neighbour set visits the set
// in whatever order the hash set yields.  That order is an explicit input
// here (a list per agent holding each member once), and the lemmas show that
// no output depends on it: the distances and statistics are those of the
// primary analyzer on the membership matrix, without the triadic count.

module SetAnalysis {
  import opened Graphs
  import opened Reach
  import opened Metrics
  import opened Analyzer

  type SetAdj = seq<set<nat>>

  /** Every member of every neighbour set is an agent. */
  predicate SetsOver(net: SetAdj)
  {
    forall i, x :: 0 <= i < |net| && x in net[i] ==> x < |net|
  }

  /** The membership matrix: entry (i, j) is set when j is in the set of i. */
  function Members(net: SetAdj): (m: Matrix)
    ensures IsSquare(m, |net|)
  {
    seq(|net|, i requires 0 <= i < |net| => seq(|net|, j => j in net[i]))
  }

  predicate Distinct(l: seq<nat>)
  {
    forall p, q :: 0 <= p < q < |l| ==> l[p] != l[q]
  }

  function Elems(l: seq<nat>): set<nat>
  {
    set x | x in l
  }

  /** order lists every neighbour set once, in some iteration order. */
  predicate Enumerates(order: AdjList, net: SetAdj)
  {
    |order| == |net| && forall i :: 0 <= i < |net| ==> Distinct(order[i]) && Elems(order[i]) == net[i]
  }

  // ---------------------------------------------------------------
  // Distances depend only on the membership of the lists
  // ---------------------------------------------------------------

  predicate SameMembers(a: AdjList, b: AdjList)
  {
    |a| == |b| && forall u :: 0 <= u < |a| ==> Elems(a[u]) == Elems(b[u])
  }

  lemma {:induction false} SameMembersWithin(a: AdjList, b: AdjList, s: nat, k: nat, w: nat)
    requires SameMembers(a, b)
    ensures Within(a, s, k, w) == Within(b, s, k, w)
  {
    if k > 0 {
      SameMembersWithin(a, b, s, k - 1, w);
      forall u | 0 <= u < |a| ensures Within(a, s, k - 1, u) == Within(b, s, k - 1, u) && (w in a[u] <==> w in b[u]) {
        SameMembersWithin(a, b, s, k - 1, u);
        assert w in a[u] <==> w in Elems(a[u]);
        assert w in b[u] <==> w in Elems(b[u]);
      }
    }
  }

  lemma SameMembersDist(a: AdjList, b: AdjList, s: nat, w: nat, d: int)
    requires SameMembers(a, b)
    ensures IsDist(a, s, w, d) == IsDist(b, s, w, d)
  {
    forall k: nat ensures Within(a, s, k, w) == Within(b, s, k, w) {
      SameMembersWithin(a, b, s, k, w);
    }
  }

  /** Filled entries carry over between two adjacencies with the same members. */
  lemma SameMembersFilled(a: AdjList, b: AdjList, sp: DistMatrix, s: nat)
    requires SameMembers(a, b) && FilledUpTo(a, sp, s)
    ensures FilledUpTo(b, sp, s)
  {
    forall x, y | 0 <= x < |a| && 0 <= y < |a| ensures Entry(b, s, x, y, sp[x][y]) {
      assert Entry(a, s, x, y, sp[x][y]);
      SameMembersDist(a, b, Max(x, y), Min(x, y), sp[x][y]);
      SameMembersDist(a, b, Min(x, y), Max(x, y), sp[x][y]);
    }
  }

  /** Any enumeration has the members of the adjacency lists of the membership matrix. */
  lemma EnumerationMembers(order: AdjList, net: SetAdj)
    requires SetsOver(net) && Enumerates(order, net)
    ensures WellFormed(order) && AdjOver(order, |net|)
    ensures SameMembers(order, AdjOf(Members(net)))
  {
    var m := Members(net);
    AdjOfExact(m);
    forall u | 0 <= u < |net| ensures Elems(order[u]) == Elems(AdjOf(m)[u]) {
      forall x ensures x in Elems(order[u]) <==> x in Elems(AdjOf(m)[u]) {
        if x in net[u] {
          assert m[u][x];
        }
      }
    }
    forall u, k | 0 <= u < |net| && 0 <= k < |order[u]| ensures order[u][k] < |net| {
      assert order[u][k] in Elems(order[u]);
    }
  }

  /** A matrix of finished distances is unique: two searches of one network leave the same matrix. */
  lemma ShortestPathsUnique(m: Matrix, sp1: DistMatrix, sp2: DistMatrix)
    requires IsSquare(m, |m|) && ShortestPaths(m, sp1) && ShortestPaths(m, sp2)
    ensures sp1 == sp2
  {
    var adj, n := AdjOf(m), |m|;
    forall a, b | 0 <= a < n && 0 <= b < n ensures sp1[a][b] == sp2[a][b] {
      assert Entry(adj, n, a, b, sp1[a][b]) && Entry(adj, n, a, b, sp2[a][b]);
      DistUnique(adj, Max(a, b), Min(a, b), sp1[a][b], sp2[a][b]);
    }
    forall a | 0 <= a < n ensures sp1[a] == sp2[a] {
    }
  }

  // ---------------------------------------------------------------
  // Triangle counts depend only on the members of the list
  // ---------------------------------------------------------------

  /** One when j < k and the two are linked, the term the clustering loop counts. */
  function Linked(net: Matrix, j: nat, k: nat): nat
  {
    if j < |net| && k < |net[j]| && j < k && net[j][k] then 1 else 0
  }

  /** The links from j to the members of s below hi. */
  function LinkedIn(net: Matrix, s: set<nat>, j: nat, hi: nat): nat
  {
    if hi == 0 then 0 else LinkedIn(net, s, j, hi - 1) + (if hi - 1 in s then Linked(net, j, hi - 1) else 0)
  }

  /** The links, within inner, of the members of outer below hi. */
  function OuterIn(net: Matrix, outer: set<nat>, inner: set<nat>, hi: nat): nat
  {
    if hi == 0 then 0
    else OuterIn(net, outer, inner, hi - 1) + (if hi - 1 in outer then LinkedIn(net, inner, hi - 1, |net|) else 0)
  }

  lemma {:induction false} LinkedInsert(net: Matrix, s: set<nat>, j: nat, x: nat, hi: nat)
    requires x !in s
    ensures LinkedIn(net, s + {x}, j, hi) == LinkedIn(net, s, j, hi) + (if x < hi then Linked(net, j, x) else 0)
  {
    if hi > 0 {
      LinkedInsert(net, s, j, x, hi - 1);
    }
  }

  lemma {:induction false} OuterInsert(net: Matrix, s: set<nat>, inner: set<nat>, x: nat, hi: nat)
    requires x !in s
    ensures OuterIn(net, s + {x}, inner, hi)
            == OuterIn(net, s, inner, hi) + (if x < hi then LinkedIn(net, inner, x, |net|) else 0)
  {
    if hi > 0 {
      OuterInsert(net, s, inner, x, hi - 1);
    }
  }

  /** The members of a prefix one longer. */
  lemma PrefixElems(row: seq<nat>, hi: nat)
    requires Distinct(row) && 0 < hi <= |row|
    ensures Elems(row[..hi]) == Elems(row[..hi - 1]) + {row[hi - 1]}
    ensures row[hi - 1] !in Elems(row[..hi - 1])
  {
    assert row[..hi] == row[..hi - 1] + [row[hi - 1]];
  }

  /** The inner loop over a listed neighbour set counts the links of j to the members of the set. */
  lemma {:induction false} HitsBySet(net: Matrix, row: seq<nat>, j: nat, hi: nat)
    requires IsSquare(net, |net|) && Bounded(row, |net|) && Distinct(row) && j < |net| && hi <= |row|
    ensures Hits(net, row, j, hi) == LinkedIn(net, Elems(row[..hi]), j, |net|)
  {
    if hi > 0 {
      HitsBySet(net, row, j, hi - 1);
      PrefixElems(row, hi);
      LinkedInsert(net, Elems(row[..hi - 1]), j, row[hi - 1], |net|);
    } else {
      assert Elems(row[..0]) == {};
      EmptyLinked(net, j, |net|);
    }
  }

  lemma {:induction false} EmptyLinked(net: Matrix, j: nat, hi: nat)
    ensures LinkedIn(net, {}, j, hi) == 0
  {
    if hi > 0 {
      EmptyLinked(net, j, hi - 1);
    }
  }

  lemma {:induction false} EmptyOuter(net: Matrix, inner: set<nat>, hi: nat)
    ensures OuterIn(net, {}, inner, hi) == 0
  {
    if hi > 0 {
      EmptyOuter(net, inner, hi - 1);
    }
  }

  /** The double loop over a listed neighbour set counts the linked pairs of members of the set. */
  lemma {:induction false} TrianglesBySet(net: Matrix, row: seq<nat>, hi: nat)
    requires IsSquare(net, |net|) && Bounded(row, |net|) && Distinct(row) && hi <= |row|
    ensures Triangles(net, row, hi) == OuterIn(net, Elems(row[..hi]), Elems(row), |net|)
  {
    if hi > 0 {
      TrianglesBySet(net, row, hi - 1);
      PrefixElems(row, hi);
      HitsBySet(net, row, row[hi - 1], |row|);
      assert row[..|row|] == row;
      OuterInsert(net, Elems(row[..hi - 1]), Elems(row), row[hi - 1], |net|);
    } else {
      assert Elems(row[..0]) == {};
      EmptyOuter(net, Elems(row), |net|);
    }
  }

  /** A list without repeats is as long as its set of members. */
  lemma {:induction false} DistinctLength(row: seq<nat>)
    requires Distinct(row)
    ensures |Elems(row)| == |row|
  {
    if row != [] {
      var last := |row| - 1;
      DistinctLength(row[..last]);
      PrefixElems(row, |row|);
      assert row[..|row|] == row;
    } else {
      assert Elems(row) == {};
    }
  }

  /** Two lists without repeats and with the same members give the same local clustering inputs. */
  lemma SameRowTriangles(net: Matrix, a: seq<nat>, b: seq<nat>)
    requires IsSquare(net, |net|) && Bounded(a, |net|) && Bounded(b, |net|) && Distinct(a) && Distinct(b)
    requires Elems(a) == Elems(b)
    ensures |a| == |b| && Triangles(net, a, |a|) == Triangles(net, b, |b|)
  {
    DistinctLength(a);
    DistinctLength(b);
    TrianglesBySet(net, a, |a|);
    TrianglesBySet(net, b, |b|);
    assert a[..|a|] == a && b[..|b|] == b;
  }

  /** So the clustering sum is the same for any two such enumerations of the rows. */
  lemma {:induction false} SameClusterSum(net: Matrix, a: AdjList, b: AdjList, rows: nat)
    requires IsSquare(net, |net|) && AdjOver(a, |net|) && AdjOver(b, |net|) && rows <= |net|
    requires forall u :: 0 <= u < |net| ==> Distinct(a[u]) && Distinct(b[u]) && Elems(a[u]) == Elems(b[u])
    ensures ClusterSum(net, a, rows) == ClusterSum(net, b, rows)
  {
    if rows > 0 {
      SameClusterSum(net, a, b, rows - 1);
      SameRowTriangles(net, a[rows - 1], b[rows - 1]);
    }
  }

  /** The clustering of any enumeration is the clustering of the membership matrix. */
  lemma EnumeratedClustering(order: AdjList, net: SetAdj)
    requires SetsOver(net) && Enumerates(order, net) && |net| >= 1
    ensures AdjOver(order, |net|)
    ensures GlobalClustering(Members(net), order) == GlobalClustering(Members(net), AdjOf(Members(net)))
  {
    var m := Members(net);
    EnumerationMembers(order, net);
    AdjOfExact(m);
    forall u | 0 <= u < |net| ensures Distinct(AdjOf(m)[u]) {
      assert Increasing(AdjOf(m)[u]);
    }
    SameClusterSum(m, order, AdjOf(m), |net|);
  }

  // ---------------------------------------------------------------
  // The analyzer object
  // ---------------------------------------------------------------

  /**
   * The analyzer of the HashSet variant: the distance matrix and the five
   * outputs set_network_metrics assigns (no triadic count, no adjacency
   * lists of its own).
   */
  class SetNetworkAnalyzer {
    const n: nat
    var shortestPath: DistMatrix
    var averagePathLength: real
    var networkEfficiency: real
    var globalClustering: real
    var globalClosenessCentralization: real
    var shortestPathVariance: real

    /** A fresh analyzer: every distance -1 and every output 0. */
    constructor (n: nat)
      ensures this.n == n && shortestPath == seq(n, _ => seq(n, _ => -1))
      ensures averagePathLength == 0.0 && networkEfficiency == 0.0 && globalClustering == 0.0
      ensures globalClosenessCentralization == 0.0 && shortestPathVariance == 0.0
    {
      this.n := n;
      shortestPath := seq(n, _ => seq(n, _ => -1));
      averagePathLength := 0.0;
      networkEfficiency := 0.0;
      globalClustering := 0.0;
      globalClosenessCentralization := 0.0;
      shortestPathVariance := 0.0;
    }

    /**
     * set_shortest_path: resets the matrix to -1, then a breadth-first search
     * from every source walks the neighbour sets in the given iteration order
     * and stores its distances in row s and column s.  Whatever the order, the
     * matrix is the one of the membership matrix.
     */
    method SetShortestPath(net: SetAdj, order: AdjList)
      requires |net| == n && SetsOver(net) && Enumerates(order, net)
      modifies this`shortestPath
      ensures ShortestPaths(Members(net), shortestPath)
    {
      EnumerationMembers(order, net);
      shortestPath := seq(n, _ => seq(n, _ => -1));
      var s := 0;
      while s < n
        invariant 0 <= s <= n
        invariant FilledUpTo(order, shortestPath, s)
      {
        var d := Bfs(order, s);
        ghost var before := shortestPath;
        shortestPath := Store(shortestPath, s, d);
        StoreKeepsFilled(order, before, shortestPath, s, d);
        s := s + 1;
      }
      SameMembersFilled(order, AdjOf(Members(net)), shortestPath, n);
    }

    /** The outputs are the metrics of the shortest paths and the membership of net. */
    ghost predicate Reports(net: SetAdj)
      requires |net| == n && n >= 3
      reads this
    {
      ShortestPaths(Members(net), shortestPath)
      && averagePathLength == AveragePathLength(shortestPath)
      && networkEfficiency == NetworkEfficiency(shortestPath)
      && globalClosenessCentralization == CentralizationCloseness(shortestPath)
      && globalClustering == GlobalClustering(Members(net), AdjOf(Members(net)))
      && shortestPathVariance == PathLengthVariance(shortestPath)
    }

    /**
     * set_network_metrics: recomputes the distances, then in one scan the
     * path-length and efficiency totals over N(N-1)/2, the closeness
     * centralization, the clustering over the listed neighbour pairs, and the
     * variance terms.  Every output is reset first, so the result depends on
     * the adjacency alone.
     */
    method SetNetworkMetrics(net: SetAdj, order: AdjList)
      requires |net| == n && n >= 3 && SetsOver(net) && Enumerates(order, net)
      modifies this
      ensures Reports(net)
    {
      SetShortestPath(net, order);
      averagePathLength, networkEfficiency, globalClosenessCentralization, globalClustering, shortestPathVariance
        := SetSummarize(net, order, shortestPath);
    }
  }

  /** The five outputs from the distances and the listed neighbour sets. */
  method SetSummarize(net: SetAdj, order: AdjList, sp: DistMatrix)
    returns (pathLength: real, efficiency: real, closeness: real, clustering: real, variance: real)
    requires |net| >= 3 && SetsOver(net) && Enumerates(order, net) && IsDistMatrix(sp, |net|)
    ensures pathLength == AveragePathLength(sp) && efficiency == NetworkEfficiency(sp)
    ensures closeness == CentralizationCloseness(sp) && variance == PathLengthVariance(sp)
    ensures clustering == GlobalClustering(Members(net), AdjOf(Members(net)))
  {
    var n := |net|;
    EnumerationMembers(order, net);
    var t, total := Accumulate(Members(net), order, sp);
    PairCountPositive(n);
    pathLength := t.pathLength / PairCount(n) as real;
    efficiency := t.efficiency / PairCount(n) as real;
    closeness := ClosenessCentralizationOf(t.closenessCentralization, t.closenessMax, n);
    clustering := t.clustering / n as real;
    variance := total / n as real;
    EnumeratedClustering(order, net);
  }

  /** Two analyses of the same adjacency, in any iteration orders, report the same values. */
  lemma ReportsDetermined(a: SetNetworkAnalyzer, b: SetNetworkAnalyzer, net: SetAdj)
    requires |net| == a.n == b.n && a.n >= 3 && a.Reports(net) && b.Reports(net)
    ensures a.shortestPath == b.shortestPath
    ensures a.averagePathLength == b.averagePathLength && a.networkEfficiency == b.networkEfficiency
    ensures a.globalClustering == b.globalClustering && a.shortestPathVariance == b.shortestPathVariance
    ensures a.globalClosenessCentralization == b.globalClosenessCentralization
  {
    ShortestPathsUnique(Members(net), a.shortestPath, b.shortestPath);
  }

  /** The HashSet analyzer reports what the primary analyzer reports for the membership matrix. */
  lemma AgreesWithMatrixAnalyzer(a: SetNetworkAnalyzer, b: NetworkAnalyzer, net: SetAdj)
    requires |net| == a.n == b.n && a.n >= 3 && a.Reports(net) && b.Reports(Members(net))
    ensures a.shortestPath == b.shortestPath
    ensures a.averagePathLength == b.averagePathLength && a.networkEfficiency == b.networkEfficiency
    ensures a.globalClustering == b.globalClustering && a.shortestPathVariance == b.shortestPathVariance
    ensures a.globalClosenessCentralization == b.centralizationCloseness
  {
    ShortestPathsUnique(Members(net), a.shortestPath, b.shortestPath);
  }
}
