// Dense boolean adjacency matrices, the degree counters kept beside them,
// and the list of unordered agent pairs ("dyads") that every scenario walks.

module Graphs {

  type Matrix = seq<seq<bool>>
  type Dyad = (nat, nat)

  /** An n-by-n matrix. */
  predicate IsSquare(m: Matrix, n: nat)
  {
    |m| == n && forall i :: 0 <= i < n ==> |m[i]| == n
  }

  predicate Symmetric(m: Matrix)
    requires IsSquare(m, |m|)
  {
    forall i, j :: 0 <= i < |m| && 0 <= j < |m| ==> m[i][j] == m[j][i]
  }

  predicate LoopFree(m: Matrix)
    requires IsSquare(m, |m|)
  {
    forall i :: 0 <= i < |m| ==> !m[i][i]
  }

  /** Symmetric and loop-free: an undirected simple graph. */
  predicate SimpleGraph(m: Matrix)
  {
    IsSquare(m, |m|) && Symmetric(m) && LoopFree(m)
  }

  /** The n-by-n matrix with no entry set. */
  function Empty(n: nat): (m: Matrix)
    ensures IsSquare(m, n) && SimpleGraph(m)
    ensures forall i, j :: 0 <= i < n && 0 <= j < n ==> !m[i][j]
  {
    seq(n, _ => seq(n, _ => false))
  }

  /** Number of entries of a row that are set. */
  function Count(row: seq<bool>): (c: nat)
    ensures c <= |row|
  {
    if row == [] then 0
    else Count(row[..|row| - 1]) + (if row[|row| - 1] then 1 else 0)
  }

  /** A row has no entry set exactly when its count is zero. */
  lemma {:induction false} CountZero(row: seq<bool>)
    ensures Count(row) == 0 <==> forall k :: 0 <= k < |row| ==> !row[k]
    decreases |row|
  {
    if row != [] {
      var last := |row| - 1;
      CountZero(row[..last]);
      assert forall k :: 0 <= k < last ==> row[..last][k] == row[k];
    }
  }

  lemma {:induction false} CountUpdate(row: seq<bool>, k: nat, v: bool)
    requires k < |row|
    ensures Count(row[k := v]) + (if row[k] then 1 else 0) == Count(row) + (if v then 1 else 0)
    decreases |row|
  {
    var last := |row| - 1;
    if k < last {
      assert row[k := v][..last] == row[..last][k := v];
      CountUpdate(row[..last], k, v);
    } else {
      assert row[k := v][..last] == row[..last];
    }
  }

  /** A row whose set entries are among those of another has no more of them, and fewer when one is missing. */
  lemma {:induction false} CountMono(a: seq<bool>, b: seq<bool>)
    requires |a| == |b| && forall k :: 0 <= k < |a| && a[k] ==> b[k]
    ensures Count(a) <= Count(b)
    ensures (exists k :: 0 <= k < |a| && b[k] && !a[k]) ==> Count(a) < Count(b)
    decreases |a|
  {
    if a != [] {
      var last := |a| - 1;
      CountMono(a[..last], b[..last]);
      if exists k :: 0 <= k < |a| && b[k] && !a[k] {
        var k :| 0 <= k < |a| && b[k] && !a[k];
        if k < last {
          assert b[..last][k] && !a[..last][k];
        }
      }
    }
  }

  /** Sets entry (i, j) and entry (j, i) to v, as the source does with two assignments. */
  function Link(m: Matrix, i: nat, j: nat, v: bool): (r: Matrix)
    requires IsSquare(m, |m|) && i < |m| && j < |m|
    ensures IsSquare(r, |m|)
    ensures r[i][j] == v && r[j][i] == v
    ensures forall a, b :: 0 <= a < |m| && 0 <= b < |m| && !(a == i && b == j) && !(a == j && b == i)
              ==> r[a][b] == m[a][b]
  {
    var m1 := m[i := m[i][j := v]];
    m1[j := m1[j][i := v]]
  }

  lemma LinkKeepsSimple(m: Matrix, i: nat, j: nat, v: bool)
    requires SimpleGraph(m) && i < |m| && j < |m| && i != j
    ensures SimpleGraph(Link(m, i, j, v))
  {
  }

  /** Row i of Link(m, i, j, v) is row i of m with entry j replaced (i != j). */
  lemma LinkRows(m: Matrix, i: nat, j: nat, v: bool)
    requires IsSquare(m, |m|) && i < |m| && j < |m| && i != j
    ensures Link(m, i, j, v)[i] == m[i][j := v]
    ensures Link(m, i, j, v)[j] == m[j][i := v]
    ensures forall a :: 0 <= a < |m| && a != i && a != j ==> Link(m, i, j, v)[a] == m[a]
  {
  }

  /** Degree counters agree with the number of set entries in each row. */
  predicate DegreesMatch(m: Matrix, d: seq<int>)
  {
    |d| == |m| && forall v :: 0 <= v < |m| ==> d[v] == Count(m[v])
  }

  /** Adds delta to the counters of both ends of a dyad. */
  function Bump(d: seq<int>, i: nat, j: nat, delta: int): (r: seq<int>)
    requires i < |d| && j < |d|
    ensures |r| == |d|
  {
    var d1 := d[i := d[i] + delta];
    d1[j := d1[j] + delta]
  }

  /** Switching an absent edge on (or a present one off) moves both end counters by one. */
  lemma {:induction false} LinkKeepsDegrees(m: Matrix, d: seq<int>, i: nat, j: nat, v: bool)
    requires IsSquare(m, |m|) && i < |m| && j < |m| && i != j
    requires m[i][j] != v && m[j][i] != v
    requires DegreesMatch(m, d)
    ensures DegreesMatch(Link(m, i, j, v), Bump(d, i, j, if v then 1 else -1))
  {
    var r := Link(m, i, j, v);
    LinkRows(m, i, j, v);
    CountUpdate(m[i], j, v);
    CountUpdate(m[j], i, v);
  }

  /** Sum of a sequence of counters. */
  function Total(d: seq<int>): int
  {
    if d == [] then 0 else Total(d[..|d| - 1]) + d[|d| - 1]
  }

  lemma {:induction false} TotalUpdate(d: seq<int>, k: nat, x: int)
    requires k < |d|
    ensures Total(d[k := x]) == Total(d) - d[k] + x
    decreases |d|
  {
    var last := |d| - 1;
    if k < last {
      assert d[k := x][..last] == d[..last][k := x];
      TotalUpdate(d[..last], k, x);
    } else {
      assert d[k := x][..last] == d[..last];
    }
  }

  lemma {:induction false} BumpTotal(d: seq<int>, i: nat, j: nat, delta: int)
    requires i < |d| && j < |d|
    ensures Total(Bump(d, i, j, delta)) == Total(d) + 2 * delta
  {
    var d1 := d[i := d[i] + delta];
    TotalUpdate(d, i, d[i] + delta);
    var y := d1[j] + delta;
    TotalUpdate(d1, j, y);
  }

  /** Square matrices that agree entry by entry are equal. */
  lemma SameEntries(a: Matrix, b: Matrix, n: nat)
    requires IsSquare(a, n) && IsSquare(b, n)
    requires forall i, j :: 0 <= i < n && 0 <= j < n ==> a[i][j] == b[i][j]
    ensures a == b
  {
    forall i | 0 <= i < n ensures a[i] == b[i] {
      assert forall j :: 0 <= j < n ==> a[i][j] == b[i][j];
    }
  }

  /** The counters that match a matrix row by row. */
  function RowCounts(m: Matrix): (d: seq<int>)
    ensures DegreesMatch(m, d)
  {
    seq(|m|, v requires 0 <= v < |m| => Count(m[v]))
  }

  /** Matching counters are determined by the matrix. */
  lemma MatchIsRowCounts(m: Matrix, d: seq<int>)
    requires DegreesMatch(m, d)
    ensures d == RowCounts(m)
  {
  }

  /** Setting an absent entry (and its mirror) of a simple graph adds two to the total row count. */
  lemma LinkGrowsTotal(m: Matrix, i: nat, j: nat)
    requires SimpleGraph(m) && i < |m| && j < |m| && i != j && !m[i][j]
    ensures Total(RowCounts(Link(m, i, j, true))) == Total(RowCounts(m)) + 2
  {
    LinkKeepsDegrees(m, RowCounts(m), i, j, true);
    MatchIsRowCounts(Link(m, i, j, true), Bump(RowCounts(m), i, j, 1));
    BumpTotal(RowCounts(m), i, j, 1);
  }

  // ---------------------------------------------------------------
  // The dyad list: every pair (i, j) with i < j < n, row by row.
  // ---------------------------------------------------------------

  /** The dyads (i, i+1), ..., (i, n-1). */
  function DyadRow(n: nat, i: nat): (r: seq<Dyad>)
    requires i < n
    ensures |r| == n - i - 1
    ensures forall k :: 0 <= k < |r| ==> r[k] == (i, i + 1 + k)
  {
    seq(n - i - 1, k => (i, i + 1 + k))
  }

  /** The rows of dyads whose first element is below k. */
  function DyadRows(n: nat, k: nat): seq<Dyad>
    requires k <= n
  {
    if k == 0 then [] else DyadRows(n, k - 1) + DyadRow(n, k - 1)
  }

  function AllDyads(n: nat): seq<Dyad>
  {
    DyadRows(n, n)
  }

  predicate LexLess(a: Dyad, b: Dyad)
  {
    a.0 < b.0 || (a.0 == b.0 && a.1 < b.1)
  }

  /** Number of unordered pairs of distinct agents among n. */
  function PairCount(n: nat): nat
  {
    n * (n - 1) / 2
  }

  /** One more agent adds one pair with each of the others. */
  lemma PairCountStep(a: nat)
    requires a >= 1
    ensures PairCount(a) == PairCount(a - 1) + (a - 1)
  {
    var b := a - 1;
    assert a * (a - 1) == b * (b - 1) + 2 * b by {
      assert a * (a - 1) == (b + 1) * b;
    }
  }

  lemma {:induction false} DyadRowsLength(n: nat, k: nat)
    requires k <= n
    ensures |DyadRows(n, k)| == PairCount(n) - PairCount(n - k)
  {
    if k > 0 {
      DyadRowsLength(n, k - 1);
      PairCountStep(n - (k - 1));
    }
  }

  lemma {:induction false} DyadRowsEntries(n: nat, k: nat)
    requires k <= n
    ensures forall p :: 0 <= p < |DyadRows(n, k)| ==>
              DyadRows(n, k)[p].0 < k && DyadRows(n, k)[p].0 < DyadRows(n, k)[p].1 < n
  {
    if k > 0 {
      DyadRowsEntries(n, k - 1);
    }
  }

  lemma {:induction false} DyadRowsCover(n: nat, k: nat)
    requires k <= n
    ensures forall i, j :: 0 <= i < k && i < j < n ==> (i, j) in DyadRows(n, k)
  {
    if k > 0 {
      DyadRowsCover(n, k - 1);
      var prev, row := DyadRows(n, k - 1), DyadRow(n, k - 1);
      assert DyadRows(n, k) == prev + row;
      forall i, j | 0 <= i < k && i < j < n ensures (i, j) in DyadRows(n, k) {
        if i == k - 1 {
          assert row[j - i - 1] == (i, j);
        } else {
          assert (i, j) in prev;
        }
      }
    }
  }

  lemma {:induction false} DyadRowsSorted(n: nat, k: nat)
    requires k <= n
    ensures forall p, q :: 0 <= p < q < |DyadRows(n, k)| ==> LexLess(DyadRows(n, k)[p], DyadRows(n, k)[q])
  {
    if k > 0 {
      DyadRowsSorted(n, k - 1);
      DyadRowsEntries(n, k - 1);
    }
  }

  /** The dyad list enumerates exactly the pairs i < j < n, strictly increasing in lexicographic order. */
  lemma AllDyadsShape(n: nat)
    ensures |AllDyads(n)| == PairCount(n)
    ensures forall p :: 0 <= p < |AllDyads(n)| ==> AllDyads(n)[p].0 < AllDyads(n)[p].1 < n
    ensures forall i, j :: 0 <= i < j < n ==> (i, j) in AllDyads(n)
    ensures forall p, q :: 0 <= p < q < |AllDyads(n)| ==> LexLess(AllDyads(n)[p], AllDyads(n)[q])
  {
    DyadRowsLength(n, n);
    DyadRowsEntries(n, n);
    DyadRowsCover(n, n);
    DyadRowsSorted(n, n);
  }

  /** A dyad list over n agents: every entry is a pair of distinct agents below n. */
  predicate DyadsOver(ds: seq<Dyad>, n: nat)
  {
    forall p :: 0 <= p < |ds| ==> ds[p].0 < n && ds[p].1 < n && ds[p].0 != ds[p].1
  }
}
