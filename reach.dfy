// Reachability in layers, the reference definition of a shortest-path
// distance that the breadth-first searches of the network analyzers are
// proved against.  A graph is given by adjacency lists: w is a neighbour of
// u when w occurs in adj[u].

module Reach {

  type AdjList = seq<seq<nat>>

  /** Every listed neighbour is a vertex of the graph. */
  predicate WellFormed(adj: AdjList)
  {
    forall u, k :: 0 <= u < |adj| && 0 <= k < |adj[u]| ==> adj[u][k] < |adj|
  }

  /** Undirected: w is listed at u exactly when u is listed at w. */
  predicate SymmetricAdj(adj: AdjList)
  {
    forall u, w :: 0 <= u < |adj| && 0 <= w < |adj| ==> (w in adj[u] <==> u in adj[w])
  }

  /** w can be reached from s along at most k edges. */
  ghost predicate Within(adj: AdjList, s: nat, k: nat, w: nat)
    decreases k
  {
    if k == 0 then w == s
    else Within(adj, s, k - 1, w)
         || exists u :: 0 <= u < |adj| && Within(adj, s, k - 1, u) && w in adj[u]
  }

  /**
   * d is the breadth-first distance from s to w: -1 when w is never reached,
   * otherwise the least number of edges on a walk from s to w.
   */
  ghost predicate IsDist(adj: AdjList, s: nat, w: nat, d: int)
  {
    if d < 0 then d == -1 && forall k: nat :: !Within(adj, s, k, w)
    else Within(adj, s, d, w) && (d == 0 || !Within(adj, s, d - 1, w))
  }

  lemma {:induction false} WithinMonotone(adj: AdjList, s: nat, j: nat, k: nat, w: nat)
    requires j <= k && Within(adj, s, j, w)
    ensures Within(adj, s, k, w)
    decreases k - j
  {
    if j < k {
      WithinMonotone(adj, s, j + 1, k, w);
    }
  }

  /** A vertex within d edges has a distance of at most d. */
  lemma DistAtMost(adj: AdjList, s: nat, w: nat, d: int, k: nat)
    requires IsDist(adj, s, w, d) && Within(adj, s, k, w)
    ensures 0 <= d <= k
  {
    if d > k {
      WithinMonotone(adj, s, k, d - 1, w);
    }
  }

  /** The distance is unique. */
  lemma DistUnique(adj: AdjList, s: nat, w: nat, d1: int, d2: int)
    requires IsDist(adj, s, w, d1) && IsDist(adj, s, w, d2)
    ensures d1 == d2
  {
    if d1 >= 0 {
      DistAtMost(adj, s, w, d2, d1);
    }
    if d2 >= 0 {
      DistAtMost(adj, s, w, d1, d2);
    }
  }

  /** Only s is at distance 0 from s. */
  lemma DistZero(adj: AdjList, s: nat, w: nat, d: int)
    requires IsDist(adj, s, w, d)
    ensures d == 0 <==> w == s
  {
    if w == s && d != 0 {
      DistAtMost(adj, s, w, d, 0);
    }
  }

  /** A set of vertices that holds s and is closed under taking neighbours holds every reachable vertex. */
  lemma {:induction false} ClosedHoldsReachable(adj: AdjList, s: nat, mark: seq<bool>, k: nat, w: nat)
    requires |mark| == |adj| && WellFormed(adj) && s < |adj| && mark[s]
    requires forall u, x :: 0 <= u < |adj| && mark[u] && x in adj[u] ==> x < |adj| && mark[x]
    requires Within(adj, s, k, w)
    ensures w < |adj| && mark[w]
    decreases k
  {
    if k > 0 {
      if Within(adj, s, k - 1, w) {
        ClosedHoldsReachable(adj, s, mark, k - 1, w);
      } else {
        var u :| 0 <= u < |adj| && Within(adj, s, k - 1, u) && w in adj[u];
        ClosedHoldsReachable(adj, s, mark, k - 1, u);
      }
    }
  }

  /** Walks compose: reaching u from s within j and w from u within k reaches w from s within j + k. */
  lemma {:induction false} WithinCompose(adj: AdjList, s: nat, u: nat, w: nat, j: nat, k: nat)
    requires u < |adj| && Within(adj, s, j, u) && Within(adj, u, k, w)
    ensures Within(adj, s, j + k, w)
    decreases k
  {
    if k == 0 {
    } else if Within(adj, u, k - 1, w) {
      WithinCompose(adj, s, u, w, j, k - 1);
      WithinMonotone(adj, s, j + k - 1, j + k, w);
    } else {
      var x :| 0 <= x < |adj| && Within(adj, u, k - 1, x) && w in adj[x];
      WithinCompose(adj, s, u, x, j, k - 1);
    }
  }

  /** In an undirected graph reachability within k edges is symmetric. */
  lemma {:induction false} WithinSymmetric(adj: AdjList, s: nat, w: nat, k: nat)
    requires SymmetricAdj(adj) && WellFormed(adj) && s < |adj| && w < |adj|
    requires Within(adj, s, k, w)
    ensures Within(adj, w, k, s)
    decreases k
  {
    if k > 0 {
      if Within(adj, s, k - 1, w) {
        WithinSymmetric(adj, s, w, k - 1);
        WithinMonotone(adj, w, k - 1, k, s);
      } else {
        var u :| 0 <= u < |adj| && Within(adj, s, k - 1, u) && w in adj[u];
        WithinSymmetric(adj, s, u, k - 1);
        assert u in adj[w];
        assert Within(adj, w, 1, u) by {
          assert Within(adj, w, 0, w);
        }
        WithinCompose(adj, w, u, s, 1, k - 1);
      }
    }
  }

  /** In an undirected graph the distance from s to w is the distance from w to s. */
  lemma DistSymmetric(adj: AdjList, s: nat, w: nat, d: int)
    requires SymmetricAdj(adj) && WellFormed(adj) && s < |adj| && w < |adj|
    requires IsDist(adj, s, w, d)
    ensures IsDist(adj, w, s, d)
  {
    if d < 0 {
      forall k: nat ensures !Within(adj, w, k, s) {
        if Within(adj, w, k, s) {
          WithinSymmetric(adj, w, s, k);
        }
      }
    } else {
      WithinSymmetric(adj, s, w, d);
      if d > 0 && Within(adj, w, d - 1, s) {
        WithinSymmetric(adj, w, s, d - 1);
      }
    }
  }
}
