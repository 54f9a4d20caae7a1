// The summary statistics that set_network_metrics derives from a
// shortest-path matrix (distance -1 for an unreachable pair), stated as sums
// over the matrix.  Both network analyzers accumulate exactly these sums in
// their loops; the lemmas here say what the sums mean and bound them.

module Metrics {
  import opened Graphs

  type DistMatrix = seq<seq<int>>

  /** The most negative finite f64, the starting value of every running maximum. */
  const FloatMin: real := -1.7976931348623157e308

  predicate IsDistMatrix(sp: DistMatrix, n: nat)
  {
    |sp| == n && forall i :: 0 <= i < n ==> |sp[i]| == n
  }

  /** The distance a statistic takes for the pair (i, k): only pairs i < k at a positive distance count. */
  function Fwd(sp: DistMatrix, i: nat, k: nat): nat
    requires IsDistMatrix(sp, |sp|) && i < |sp| && k < |sp|
  {
    if i < k && sp[i][k] > 0 then sp[i][k] else 0
  }

  // ---------------------------------------------------------------
  // Sums along a row (targets k in (i, hi)) and down a column
  // ---------------------------------------------------------------

  function RowSum(sp: DistMatrix, i: nat, hi: nat): nat
    requires IsDistMatrix(sp, |sp|) && i < |sp| && hi <= |sp|
  {
    if hi <= i then 0 else RowSum(sp, i, hi - 1) + Fwd(sp, i, hi - 1)
  }

  function RowSq(sp: DistMatrix, i: nat, hi: nat): nat
    requires IsDistMatrix(sp, |sp|) && i < |sp| && hi <= |sp|
  {
    if hi <= i then 0 else RowSq(sp, i, hi - 1) + Fwd(sp, i, hi - 1) * Fwd(sp, i, hi - 1)
  }

  /** Inverse distance of one pair, 0 when the pair does not count. */
  function Inv(d: nat): real
  {
    if d > 0 then 1.0 / d as real else 0.0
  }

  function RowInv(sp: DistMatrix, i: nat, hi: nat): real
    requires IsDistMatrix(sp, |sp|) && i < |sp| && hi <= |sp|
  {
    if hi <= i then 0.0 else RowInv(sp, i, hi - 1) + Inv(Fwd(sp, i, hi - 1))
  }

  /** Distances credited to x by the rows above it. */
  function ColSum(sp: DistMatrix, x: nat, rows: nat): nat
    requires IsDistMatrix(sp, |sp|) && x < |sp| && rows <= |sp|
  {
    if rows == 0 then 0 else ColSum(sp, x, rows - 1) + Fwd(sp, rows - 1, x)
  }

  /** Sum of the counted distances over the first `rows` rows. */
  function Upper(sp: DistMatrix, rows: nat): nat
    requires IsDistMatrix(sp, |sp|) && rows <= |sp|
  {
    if rows == 0 then 0 else Upper(sp, rows - 1) + RowSum(sp, rows - 1, |sp|)
  }

  function UpperInv(sp: DistMatrix, rows: nat): real
    requires IsDistMatrix(sp, |sp|) && rows <= |sp|
  {
    if rows == 0 then 0.0 else UpperInv(sp, rows - 1) + RowInv(sp, rows - 1, |sp|)
  }

  // ---------------------------------------------------------------
  // Closeness
  // ---------------------------------------------------------------

  /** Distance total of x: credited both as the row and as the column of each pair. */
  function Raw(sp: DistMatrix, x: nat): nat
    requires IsDistMatrix(sp, |sp|) && x < |sp|
  {
    ColSum(sp, x, x) + RowSum(sp, x, |sp|)
  }

  /** (N - 1) over the distance total, or 0 for an agent that reaches nobody. */
  function Closeness(sp: DistMatrix, x: nat): (c: real)
    requires IsDistMatrix(sp, |sp|) && x < |sp|
    ensures c >= 0.0
    ensures c == 0.0 <==> Raw(sp, x) == 0 || |sp| == 1
  {
    if Raw(sp, x) > 0 then (|sp| - 1) as real / Raw(sp, x) as real else 0.0
  }

  function ClosenessTotal(sp: DistMatrix, rows: nat): real
    requires IsDistMatrix(sp, |sp|) && rows <= |sp|
  {
    if rows == 0 then 0.0 else ClosenessTotal(sp, rows - 1) + Closeness(sp, rows - 1)
  }

  /** Running maximum of the closeness values, started at FloatMin. */
  function ClosenessMax(sp: DistMatrix, rows: nat): (m: real)
    requires IsDistMatrix(sp, |sp|) && rows <= |sp|
    ensures forall x :: 0 <= x < rows ==> Closeness(sp, x) <= m
    ensures rows == 0 ==> m == FloatMin
  {
    if rows == 0 then FloatMin
    else
      var prev := ClosenessMax(sp, rows - 1);
      if Closeness(sp, rows - 1) > prev then Closeness(sp, rows - 1) else prev
  }

  /** Once some agent has been seen the running maximum is the closeness of one of them. */
  lemma {:induction false} ClosenessMaxAttained(sp: DistMatrix, rows: nat)
    requires IsDistMatrix(sp, |sp|) && 0 < rows <= |sp|
    ensures exists x :: 0 <= x < rows && ClosenessMax(sp, rows) == Closeness(sp, x)
  {
    if Closeness(sp, rows - 1) > ClosenessMax(sp, rows - 1) {
      assert ClosenessMax(sp, rows) == Closeness(sp, rows - 1);
    } else {
      ClosenessMaxAttained(sp, rows - 1);
    }
  }

  /** The denominator (N - 1)(N - 2) / (2N - 3) of the closeness centralization. */
  function ClosenessDenominator(n: nat): (d: real)
    requires n >= 3
    ensures d > 0.0
  {
    ((n as real) - 1.0) * ((n as real) - 2.0) / (2.0 * (n as real) - 3.0)
  }

  // ---------------------------------------------------------------
  // Path-length variance
  // ---------------------------------------------------------------

  /** mean of squares minus square of mean over the forward targets of i, both divided by N. */
  function VarTerm(sp: DistMatrix, i: nat): real
    requires IsDistMatrix(sp, |sp|) && i < |sp|
  {
    var mean := RowSum(sp, i, |sp|) as real / |sp| as real;
    RowSq(sp, i, |sp|) as real / |sp| as real - mean * mean
  }

  function VarSum(sp: DistMatrix, rows: nat): real
    requires IsDistMatrix(sp, |sp|) && rows <= |sp|
  {
    if rows == 0 then 0.0 else VarSum(sp, rows - 1) + VarTerm(sp, rows - 1)
  }

  /** The path-length variance: the per-agent terms summed and divided by N. */
  function PathLengthVariance(sp: DistMatrix): real
    requires IsDistMatrix(sp, |sp|) && |sp| >= 1
  {
    VarSum(sp, |sp|) / |sp| as real
  }

  // ---------------------------------------------------------------
  // Local clustering: adjacent pairs j < k among the neighbours of an agent
  // ---------------------------------------------------------------

  /** A list is strictly increasing. */
  predicate Increasing(s: seq<nat>)
  {
    forall a, b :: 0 <= a < b < |s| ==> s[a] < s[b]
  }

  predicate Bounded(row: seq<nat>, n: nat)
  {
    forall k :: 0 <= k < |row| ==> row[k] < n
  }

  /** Number of positions q < hi whose neighbour k satisfies j < k and net[j][k]. */
  function Hits(net: Matrix, row: seq<nat>, j: nat, hi: nat): nat
    requires IsSquare(net, |net|) && Bounded(row, |net|) && j < |net| && hi <= |row|
  {
    if hi == 0 then 0
    else Hits(net, row, j, hi - 1) + (if j < row[hi - 1] && net[j][row[hi - 1]] then 1 else 0)
  }

  /** The numerator of the double loop over the neighbour list, for its first hi outer entries. */
  function Triangles(net: Matrix, row: seq<nat>, hi: nat): nat
    requires IsSquare(net, |net|) && Bounded(row, |net|) && hi <= |row|
  {
    if hi == 0 then 0 else Triangles(net, row, hi - 1) + Hits(net, row, row[hi - 1], |row|)
  }

  /** Number of unordered pairs of neighbours, the local clustering denominator. */
  function PairsOf(row: seq<nat>): nat
  {
    PairCount(|row|)
  }

  /** Local clustering coefficient of an agent with at least two neighbours. */
  function Local(net: Matrix, row: seq<nat>): real
    requires IsSquare(net, |net|) && Bounded(row, |net|) && |row| >= 2
  {
    Triangles(net, row, |row|) as real / PairsOf(row) as real
  }

  predicate AdjOver(adj: seq<seq<nat>>, n: nat)
  {
    |adj| == n && forall i :: 0 <= i < n ==> Bounded(adj[i], n)
  }

  /** Sum of the local coefficients of the first `rows` agents with at least two neighbours. */
  function ClusterSum(net: Matrix, adj: seq<seq<nat>>, rows: nat): real
    requires IsSquare(net, |net|) && AdjOver(adj, |net|) && rows <= |net|
  {
    if rows == 0 then 0.0
    else ClusterSum(net, adj, rows - 1)
         + (if |adj[rows - 1]| >= 2 then Local(net, adj[rows - 1]) else 0.0)
  }

  /** Sum of the triangle counts of the first `rows` agents with at least two neighbours. */
  function TriTotal(net: Matrix, adj: seq<seq<nat>>, rows: nat): nat
    requires IsSquare(net, |net|) && AdjOver(adj, |net|) && rows <= |net|
  {
    if rows == 0 then 0 else TriTotal(net, adj, rows - 1) + TriTerm(net, adj, rows - 1)
  }

  /** The triangle count of agent r when it has at least two neighbours, 0 otherwise. */
  function TriTerm(net: Matrix, adj: seq<seq<nat>>, r: nat): nat
    requires IsSquare(net, |net|) && AdjOver(adj, |net|) && r < |net|
  {
    if |adj[r]| >= 2 then Triangles(net, adj[r], |adj[r]|) else 0
  }

  /** Running maximum of those triangle counts, started at FloatMin. */
  function TriMax(net: Matrix, adj: seq<seq<nat>>, rows: nat): real
    requires IsSquare(net, |net|) && AdjOver(adj, |net|) && rows <= |net|
  {
    if rows == 0 then FloatMin
    else
      var prev := TriMax(net, adj, rows - 1);
      var c := Triangles(net, adj[rows - 1], |adj[rows - 1]|) as real;
      if |adj[rows - 1]| >= 2 && c > prev then c else prev
  }

  // ---------------------------------------------------------------
  // Path length and efficiency
  // ---------------------------------------------------------------

  /** A ratio of a non-negative real to a real at least as large lies in [0, 1]. */
  lemma RatioBound(x: real, y: real)
    requires 0.0 < y && 0.0 <= x <= y
    ensures 0.0 <= x / y <= 1.0
    ensures x == y ==> x / y == 1.0
  {
    assert x / y * y == x;
  }

  lemma InvAtMostOne(d: nat)
    ensures 0.0 <= Inv(d) <= 1.0
    ensures d > 0 ==> Inv(d) > 0.0
  {
    if d > 0 {
      assert 1.0 / d as real <= 1.0 by {
        assert d as real >= 1.0;
      }
    }
  }

  /** At most one unit of inverse distance per target k in (i, hi). */
  lemma {:induction false} RowInvBound(sp: DistMatrix, i: nat, hi: nat)
    requires IsDistMatrix(sp, |sp|) && i < |sp| && hi <= |sp|
    ensures 0.0 <= RowInv(sp, i, hi) <= (if hi <= i then 0 else hi - 1 - i) as real
    decreases hi
  {
    if hi > i {
      RowInvBound(sp, i, hi - 1);
      InvAtMostOne(Fwd(sp, i, hi - 1));
    }
  }

  lemma {:induction false} UpperInvBound(sp: DistMatrix, rows: nat)
    requires IsDistMatrix(sp, |sp|) && rows <= |sp|
    ensures 0.0 <= UpperInv(sp, rows) <= (PairCount(|sp|) - PairCount(|sp| - rows)) as real
  {
    if rows > 0 {
      UpperInvBound(sp, rows - 1);
      RowInvBound(sp, rows - 1, |sp|);
      PairCountStep(|sp| - (rows - 1));
    }
  }

  lemma PairCountPositive(n: nat)
    requires n >= 2
    ensures PairCount(n) >= 1
  {
    assert n * (n - 1) >= 2 * 1 by {
      assert n - 1 >= 1;
    }
  }

  /** The average path length: the sum of the forward distances over N(N-1)/2. */
  function AveragePathLength(sp: DistMatrix): real
    requires IsDistMatrix(sp, |sp|) && |sp| >= 2
  {
    PairCountPositive(|sp|);
    Upper(sp, |sp|) as real / PairCount(|sp|) as real
  }

  /** The network efficiency: the sum of the inverse forward distances over N(N-1)/2. */
  function NetworkEfficiency(sp: DistMatrix): real
    requires IsDistMatrix(sp, |sp|) && |sp| >= 2
  {
    PairCountPositive(|sp|);
    UpperInv(sp, |sp|) / PairCount(|sp|) as real
  }

  /** The network efficiency lies in [0, 1]. */
  lemma EfficiencyInUnitInterval(sp: DistMatrix)
    requires IsDistMatrix(sp, |sp|) && |sp| >= 2
    ensures 0.0 <= NetworkEfficiency(sp) <= 1.0
  {
    PairCountPositive(|sp|);
    assert NetworkEfficiency(sp) == UpperInv(sp, |sp|) / PairCount(|sp|) as real;
    UpperInvBound(sp, |sp|);
    assert PairCount(0) == 0;
    RatioBound(UpperInv(sp, |sp|), PairCount(|sp|) as real);
  }

  /** Every pair of distinct agents at distance one, as in a complete graph. */
  predicate AllAdjacent(sp: DistMatrix)
    requires IsDistMatrix(sp, |sp|)
  {
    forall i, k :: 0 <= i < k < |sp| ==> sp[i][k] == 1
  }

  lemma {:induction false} RowAllAdjacent(sp: DistMatrix, i: nat, hi: nat)
    requires IsDistMatrix(sp, |sp|) && AllAdjacent(sp) && i < |sp| && hi <= |sp|
    ensures RowSum(sp, i, hi) == (if hi <= i then 0 else hi - 1 - i)
    ensures RowInv(sp, i, hi) == (if hi <= i then 0 else hi - 1 - i) as real
    decreases hi
  {
    if hi > i {
      RowAllAdjacent(sp, i, hi - 1);
    }
  }

  lemma {:induction false} UpperAllAdjacent(sp: DistMatrix, rows: nat)
    requires IsDistMatrix(sp, |sp|) && AllAdjacent(sp) && rows <= |sp|
    ensures Upper(sp, rows) == PairCount(|sp|) - PairCount(|sp| - rows)
    ensures UpperInv(sp, rows) == (PairCount(|sp|) - PairCount(|sp| - rows)) as real
  {
    if rows > 0 {
      UpperAllAdjacent(sp, rows - 1);
      RowAllAdjacent(sp, rows - 1, |sp|);
      PairCountStep(|sp| - (rows - 1));
    }
  }

  /** On a complete graph the average path length and the efficiency are both exactly 1. */
  lemma CompleteGraphMetrics(sp: DistMatrix)
    requires IsDistMatrix(sp, |sp|) && |sp| >= 2 && AllAdjacent(sp)
    ensures AveragePathLength(sp) == 1.0 && NetworkEfficiency(sp) == 1.0
  {
    var pairs := PairCount(|sp|);
    PairCountPositive(|sp|);
    assert AveragePathLength(sp) == Upper(sp, |sp|) as real / pairs as real;
    assert NetworkEfficiency(sp) == UpperInv(sp, |sp|) / pairs as real;
    UpperAllAdjacent(sp, |sp|);
    assert PairCount(0) == 0;
    assert Upper(sp, |sp|) == pairs;
    RatioBound(pairs as real, pairs as real);
  }

  // ---------------------------------------------------------------
  // Closeness
  // ---------------------------------------------------------------

  predicate SymmetricDist(sp: DistMatrix)
    requires IsDistMatrix(sp, |sp|)
  {
    forall a, b :: 0 <= a < |sp| && 0 <= b < |sp| ==> sp[a][b] == sp[b][a]
  }

  /** Sum of the positive distances from x to the agents j < hi other than x. */
  function PartnerSum(sp: DistMatrix, x: nat, hi: nat): nat
    requires IsDistMatrix(sp, |sp|) && x < |sp| && hi <= |sp|
  {
    if hi == 0 then 0
    else PartnerSum(sp, x, hi - 1) + (if hi - 1 != x && sp[x][hi - 1] > 0 then sp[x][hi - 1] else 0)
  }

  lemma {:induction false} PartnerSumPrefix(sp: DistMatrix, x: nat, hi: nat)
    requires IsDistMatrix(sp, |sp|) && SymmetricDist(sp) && x < |sp| && hi <= |sp|
    ensures PartnerSum(sp, x, hi) == if hi <= x then ColSum(sp, x, hi) else ColSum(sp, x, x) + RowSum(sp, x, hi)
  {
    if hi > 0 {
      PartnerSumPrefix(sp, x, hi - 1);
      assert sp[hi - 1][x] == sp[x][hi - 1];
    }
  }

  /**
   * For a symmetric matrix the distance total of x, gathered from the pairs
   * where x is the row and those where it is the column, is the sum of the
   * positive distances from x to every other agent.
   */
  lemma ClosenessCoversAllPartners(sp: DistMatrix, x: nat)
    requires IsDistMatrix(sp, |sp|) && SymmetricDist(sp) && x < |sp|
    ensures Raw(sp, x) == PartnerSum(sp, x, |sp|)
  {
    PartnerSumPrefix(sp, x, |sp|);
  }

  lemma ScaleStep(k: nat, m: real)
    ensures (k + 1) as real * m == k as real * m + m
  {
  }

  lemma {:induction false} ClosenessTotalAtMost(sp: DistMatrix, rows: nat, m: real)
    requires IsDistMatrix(sp, |sp|) && rows <= |sp|
    requires forall x :: 0 <= x < rows ==> Closeness(sp, x) <= m
    ensures 0.0 <= ClosenessTotal(sp, rows) <= rows as real * m
  {
    if rows > 0 {
      ClosenessTotalAtMost(sp, rows - 1, m);
      var below := (rows - 1) as real * m;
      assert ClosenessTotal(sp, rows - 1) <= below;
      assert Closeness(sp, rows - 1) <= m;
      assert rows as real * m == below + m by {
        ScaleStep(rows - 1, m);
      }
    }
  }

  /**
   * Freeman's centralization numerator in the form the analyzers accumulate
   * it: a running value that starts at minus the sum of the scores and then
   * gains N times the largest score.
   */
  function Centralization(negatedSum: real, max: real, n: nat): real
  {
    negatedSum + max * n as real
  }

  /** The numerator is never negative when no score exceeds the maximum, so the sum is at most N times it. */
  lemma CentralizationNonnegative(negatedSum: real, max: real, n: nat)
    requires -negatedSum <= n as real * max
    ensures Centralization(negatedSum, max, n) >= 0.0
  {
  }

  /** The closeness numerator over (N - 1)(N - 2) / (2N - 3). */
  function ClosenessCentralizationOf(negatedSum: real, max: real, n: nat): real
    requires n >= 3
  {
    Centralization(negatedSum, max, n) / ClosenessDenominator(n)
  }

  /**
   * The closeness centralization: N times the largest closeness less the sum
   * of all closenesses, over (N - 1)(N - 2) / (2N - 3).
   */
  function CentralizationCloseness(sp: DistMatrix): real
    requires IsDistMatrix(sp, |sp|) && |sp| >= 3
  {
    ClosenessCentralizationOf(-ClosenessTotal(sp, |sp|), ClosenessMax(sp, |sp|), |sp|)
  }

  /** The closeness centralization is never negative: no agent's closeness exceeds the maximum. */
  lemma ClosenessCentralizationNonnegative(sp: DistMatrix)
    requires IsDistMatrix(sp, |sp|) && |sp| >= 3
    ensures CentralizationCloseness(sp) >= 0.0
  {
    var m := ClosenessMax(sp, |sp|);
    ClosenessTotalAtMost(sp, |sp|, m);
    CentralizationNonnegative(-ClosenessTotal(sp, |sp|), m, |sp|);
  }

  // ---------------------------------------------------------------
  // Variance
  // ---------------------------------------------------------------

  /** The last agent has no forward target, so it adds nothing to the variance sum. */
  lemma LastAgentNoVariance(sp: DistMatrix)
    requires IsDistMatrix(sp, |sp|) && |sp| >= 1
    ensures VarTerm(sp, |sp| - 1) == 0.0
  {
    var last := |sp| - 1;
    assert RowSum(sp, last, |sp|) == 0 by {
      assert RowSum(sp, last, last) == 0;
    }
    assert RowSq(sp, last, |sp|) == 0 by {
      assert RowSq(sp, last, last) == 0;
    }
  }

  // ---------------------------------------------------------------
  // Clustering
  // ---------------------------------------------------------------

  /** In an increasing list only the entries after position p exceed row[p]. */
  lemma {:induction false} HitsBound(net: Matrix, row: seq<nat>, p: nat, hi: nat)
    requires IsSquare(net, |net|) && Bounded(row, |net|) && Increasing(row)
    requires p < |row| && hi <= |row|
    ensures Hits(net, row, row[p], hi) <= if hi <= p + 1 then 0 else hi - p - 1
    decreases hi
  {
    if hi > 0 {
      HitsBound(net, row, p, hi - 1);
      if hi - 1 <= p {
        assert row[hi - 1] <= row[p];
      }
    }
  }

  lemma {:induction false} TrianglesBound(net: Matrix, row: seq<nat>, hi: nat)
    requires IsSquare(net, |net|) && Bounded(row, |net|) && Increasing(row) && hi <= |row|
    ensures Triangles(net, row, hi) <= PairCount(|row|) - PairCount(|row| - hi)
  {
    if hi > 0 {
      TrianglesBound(net, row, hi - 1);
      HitsBound(net, row, hi - 1, |row|);
      PairCountStep(|row| - (hi - 1));
    }
  }

  /** The local clustering of an agent with an increasing neighbour list lies in [0, 1]. */
  lemma LocalInUnitInterval(net: Matrix, row: seq<nat>)
    requires IsSquare(net, |net|) && Bounded(row, |net|) && Increasing(row) && |row| >= 2
    ensures Triangles(net, row, |row|) <= PairsOf(row)
    ensures 0.0 <= Local(net, row) <= 1.0
  {
    TrianglesBound(net, row, |row|);
    PairCountPositive(|row|);
    assert PairCount(0) == 0;
    assert Local(net, row) == Triangles(net, row, |row|) as real / PairsOf(row) as real;
    RatioBound(Triangles(net, row, |row|) as real, PairsOf(row) as real);
  }

  lemma {:induction false} ClusterSumBound(net: Matrix, adj: seq<seq<nat>>, rows: nat)
    requires IsSquare(net, |net|) && AdjOver(adj, |net|) && rows <= |net|
    requires forall i :: 0 <= i < |net| ==> Increasing(adj[i])
    ensures 0.0 <= ClusterSum(net, adj, rows) <= rows as real
  {
    if rows > 0 {
      ClusterSumBound(net, adj, rows - 1);
      if |adj[rows - 1]| >= 2 {
        LocalInUnitInterval(net, adj[rows - 1]);
      }
    }
  }

  /** The global clustering: the sum of the local coefficients over N. */
  function GlobalClustering(net: Matrix, adj: seq<seq<nat>>): real
    requires IsSquare(net, |net|) && AdjOver(adj, |net|) && |net| >= 1
  {
    ClusterSum(net, adj, |net|) / |net| as real
  }

  /** The global clustering lies in [0, 1]. */
  lemma GlobalClusteringInUnitInterval(net: Matrix, adj: seq<seq<nat>>)
    requires IsSquare(net, |net|) && AdjOver(adj, |net|) && |net| >= 1
    requires forall i :: 0 <= i < |net| ==> Increasing(adj[i])
    ensures 0.0 <= GlobalClustering(net, adj) <= 1.0
  {
    assert GlobalClustering(net, adj) == ClusterSum(net, adj, |net|) / |net| as real;
    ClusterSumBound(net, adj, |net|);
  }

  /** Some agent among the first `rows` has at least two neighbours. */
  predicate SomeTriad(adj: seq<seq<nat>>, rows: nat)
    requires rows <= |adj|
  {
    exists r :: 0 <= r < rows && |adj[r]| >= 2
  }

  lemma {:induction false} TriMaxBounds(net: Matrix, adj: seq<seq<nat>>, rows: nat)
    requires IsSquare(net, |net|) && AdjOver(adj, |net|) && rows <= |net|
    ensures forall r :: 0 <= r < rows && |adj[r]| >= 2 ==> Triangles(net, adj[r], |adj[r]|) as real <= TriMax(net, adj, rows)
    ensures SomeTriad(adj, rows) ==> TriMax(net, adj, rows) >= 0.0
    ensures !SomeTriad(adj, rows) ==> TriMax(net, adj, rows) == FloatMin
  {
    if rows > 0 {
      TriMaxBounds(net, adj, rows - 1);
      if SomeTriad(adj, rows) && !SomeTriad(adj, rows - 1) {
        assert |adj[rows - 1]| >= 2;
      }
    }
  }

  lemma {:induction false} TriTotalAtMost(net: Matrix, adj: seq<seq<nat>>, rows: nat, m: real)
    requires IsSquare(net, |net|) && AdjOver(adj, |net|) && rows <= |net|
    requires forall r :: 0 <= r < rows ==> TriTerm(net, adj, r) as real <= m
    ensures TriTotal(net, adj, rows) as real <= rows as real * m
  {
    if rows > 0 {
      TriTotalAtMost(net, adj, rows - 1, m);
      AddBelow(TriTotal(net, adj, rows - 1), TriTerm(net, adj, rows - 1), rows, m);
    }
  }

  /** A total within rows - 1 times m, plus a term within m, is within rows times m. */
  lemma AddBelow(prev: nat, c: nat, rows: nat, m: real)
    requires rows >= 1 && prev as real <= (rows - 1) as real * m && c as real <= m
    ensures (prev + c) as real <= rows as real * m
  {
    ScaleStep(rows - 1, m);
  }

  /**
   * The triadic-participation centralization as far as the source defines it:
   * N times the largest triangle count less the sum of all triangle counts
   * (the denominator it is divided by is defined nowhere).
   */
  function CentralizationTriadic(net: Matrix, adj: seq<seq<nat>>): real
    requires IsSquare(net, |net|) && AdjOver(adj, |net|)
  {
    Centralization(-(TriTotal(net, adj, |net|) as real), TriMax(net, adj, |net|), |net|)
  }

  /**
   * When some agent has two neighbours the triadic-participation numerator is
   * never negative; otherwise the maximum keeps its FloatMin start.
   */
  lemma TriadicNumeratorNonnegative(net: Matrix, adj: seq<seq<nat>>)
    requires IsSquare(net, |net|) && AdjOver(adj, |net|)
    ensures SomeTriad(adj, |net|) ==> CentralizationTriadic(net, adj) >= 0.0
    ensures !SomeTriad(adj, |net|) ==> TriMax(net, adj, |net|) == FloatMin
  {
    var n, m := |net|, TriMax(net, adj, |net|);
    TriMaxBounds(net, adj, n);
    if SomeTriad(adj, n) {
      forall r | 0 <= r < n ensures TriTerm(net, adj, r) as real <= m {
      }
      TriTotalAtMost(net, adj, n, m);
      CentralizationNonnegative(-(TriTotal(net, adj, n) as real), m, n);
    }
  }

}
