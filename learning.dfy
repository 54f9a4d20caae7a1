// Social learning.  Every tie between agents of different performance
// carries a vote from the better-performing end to the worse-performing
// end: +1 for each belief bit the superior holds, -1 for each it does not.
// An agent then moves each bit toward the sign of its total with the
// learning probability.

module Learning {
  import opened Graphs
  import opened Beliefs

  /** The part of a scenario that learning reads. */
  datatype Population = Population(network: Matrix, performance: seq<nat>, belief: seq<Bundles>)

  predicate Fits(p: Population, n: nat, mOf: nat, mIn: nat)
  {
    IsSquare(p.network, n) && |p.performance| == n && |p.belief| == n
    && forall a :: 0 <= a < n ==> Beliefs.Shaped(p.belief[a], mOf, mIn)
  }

  /** mOf rows of mIn entries: laid out like a belief matrix. */
  predicate Grid<T>(g: seq<seq<T>>, mOf: nat, mIn: nat)
  {
    |g| == mOf && forall b :: 0 <= b < mOf ==> |g[b]| == mIn
  }

  function Sign(bit: bool): int
  {
    if bit then 1 else -1
  }

  /** What dyad d adds to agent a's count at bundle b, element e. */
  function Vote(p: Population, n: nat, mOf: nat, mIn: nat, d: Dyad, a: nat, b: nat, e: nat): int
    requires Fits(p, n, mOf, mIn) && d.0 < n && d.1 < n && b < mOf && e < mIn
  {
    var (f, g) := d;
    if !p.network[f][g] || p.performance[f] == p.performance[g] then 0
    else
      var (superior, inferior) := if p.performance[f] > p.performance[g] then (f, g) else (g, f);
      if inferior == a then Sign(p.belief[superior][b][e]) else 0
  }

  /** The count agent a collects at (b, e) over the dyad list ds. */
  function Tally(p: Population, n: nat, mOf: nat, mIn: nat, ds: seq<Dyad>, a: nat, b: nat, e: nat): int
    requires Fits(p, n, mOf, mIn) && DyadsOver(ds, n) && b < mOf && e < mIn
  {
    if ds == [] then 0
    else Tally(p, n, mOf, mIn, ds[..|ds| - 1], a, b, e) + Vote(p, n, mOf, mIn, ds[|ds| - 1], a, b, e)
  }

  lemma {:induction false} TallyAppend(p: Population, n: nat, mOf: nat, mIn: nat, xs: seq<Dyad>, ys: seq<Dyad>, a: nat, b: nat, e: nat)
    requires Fits(p, n, mOf, mIn) && DyadsOver(xs, n) && DyadsOver(ys, n) && b < mOf && e < mIn
    ensures DyadsOver(xs + ys, n)
    ensures Tally(p, n, mOf, mIn, xs + ys, a, b, e) == Tally(p, n, mOf, mIn, xs, a, b, e) + Tally(p, n, mOf, mIn, ys, a, b, e)
    decreases |ys|
  {
    assert DyadsOver(xs + ys, n) by {
      forall q | 0 <= q < |xs + ys| ensures (xs + ys)[q].0 < n && (xs + ys)[q].1 < n && (xs + ys)[q].0 != (xs + ys)[q].1 {
        if q >= |xs| {
          assert (xs + ys)[q] == ys[q - |xs|];
        }
      }
    }
    if ys == [] {
      assert xs + ys == xs;
    } else {
      var k := |ys| - 1;
      assert (xs + ys)[..|xs + ys| - 1] == xs + ys[..k];
      TallyAppend(p, n, mOf, mIn, xs, ys[..k], a, b, e);
    }
  }

  /** Taking the last entry off one list and the same entry off another keeps their multisets equal. */
  lemma RemoveLast(xs: seq<Dyad>, ys: seq<Dyad>, j: nat)
    requires multiset(xs) == multiset(ys) && xs != [] && j < |ys| && ys[j] == xs[|xs| - 1]
    ensures multiset(xs[..|xs| - 1]) == multiset(ys[..j] + ys[j + 1..])
  {
    var k, x := |xs| - 1, xs[|xs| - 1];
    assert xs == xs[..k] + [x];
    assert ys == ys[..j] + [x] + ys[j + 1..];
    var before, after := multiset(xs[..k]), multiset(ys[..j] + ys[j + 1..]);
    assert before + multiset{x} == after + multiset{x};
    forall z ensures before[z] == after[z] {
      assert (before + multiset{x})[z] == (after + multiset{x})[z];
    }
  }

  /**
   * The count does not depend on the order of the dyad list, so the
   * shuffles made by rewiring never change what an agent learns.
   */
  lemma {:induction false} TallyReorder(p: Population, n: nat, mOf: nat, mIn: nat, xs: seq<Dyad>, ys: seq<Dyad>, a: nat, b: nat, e: nat)
    requires Fits(p, n, mOf, mIn) && DyadsOver(xs, n) && DyadsOver(ys, n) && b < mOf && e < mIn
    requires multiset(xs) == multiset(ys)
    ensures Tally(p, n, mOf, mIn, xs, a, b, e) == Tally(p, n, mOf, mIn, ys, a, b, e)
    decreases |xs|
  {
    if xs != [] {
      var k := |xs| - 1;
      var x := xs[k];
      assert x in multiset(ys) by {
        assert xs == xs[..k] + [x];
      }
      var j :| 0 <= j < |ys| && ys[j] == x;
      TallyRemove(p, n, mOf, mIn, ys, j, a, b, e);
      RemoveLast(xs, ys, j);
      TallyReorder(p, n, mOf, mIn, xs[..k], ys[..j] + ys[j + 1..], a, b, e);
    }
  }

  lemma DyadsOverParts(ys: seq<Dyad>, j: nat, n: nat)
    requires DyadsOver(ys, n) && j < |ys|
    ensures DyadsOver(ys[..j], n) && DyadsOver(ys[j + 1..], n) && DyadsOver([ys[j]], n)
    ensures DyadsOver(ys[..j] + ys[j + 1..], n) && ys == ys[..j] + [ys[j]] + ys[j + 1..]
  {
    var left, right := ys[..j], ys[j + 1..];
    forall q | 0 <= q < |right| ensures right[q] == ys[j + 1 + q] { }
    var rest := left + right;
    forall q | 0 <= q < |rest| ensures rest[q] == if q < j then ys[q] else ys[q + 1] { }
  }

  /** Taking the dyad at position j out of the list takes its vote out of the count. */
  lemma TallyRemove(p: Population, n: nat, mOf: nat, mIn: nat, ys: seq<Dyad>, j: nat, a: nat, b: nat, e: nat)
    requires Fits(p, n, mOf, mIn) && DyadsOver(ys, n) && j < |ys| && b < mOf && e < mIn
    ensures DyadsOver(ys[..j] + ys[j + 1..], n)
    ensures Tally(p, n, mOf, mIn, ys, a, b, e)
            == Tally(p, n, mOf, mIn, ys[..j] + ys[j + 1..], a, b, e) + Vote(p, n, mOf, mIn, ys[j], a, b, e)
  {
    DyadsOverParts(ys, j, n);
    var left, right, single := ys[..j], ys[j + 1..], [ys[j]];
    assert Tally(p, n, mOf, mIn, single, a, b, e) == Vote(p, n, mOf, mIn, ys[j], a, b, e) by {
      assert single[..0] == [];
    }
    TallyAppend(p, n, mOf, mIn, left, single, a, b, e);
    TallyAppend(p, n, mOf, mIn, left + single, right, a, b, e);
    TallyAppend(p, n, mOf, mIn, left, right, a, b, e);
  }

  // ---------------------------------------------------------------
  // The same count, agent by agent: the sum over the superior neighbours.
  // ---------------------------------------------------------------

  /** What neighbour j tells agent a at (b, e): its bit's sign when j is tied to a and scores higher. */
  function Influence(p: Population, n: nat, mOf: nat, mIn: nat, j: nat, a: nat, b: nat, e: nat): int
    requires Fits(p, n, mOf, mIn) && j < n && a < n && b < mOf && e < mIn
  {
    if p.network[a][j] && p.performance[j] > p.performance[a] then Sign(p.belief[j][b][e]) else 0
  }

  /** The influences of agents lo .. hi-1 on a. */
  function InfluenceSum(p: Population, n: nat, mOf: nat, mIn: nat, a: nat, b: nat, e: nat, lo: nat, hi: nat): int
    requires Fits(p, n, mOf, mIn) && a < n && b < mOf && e < mIn && lo <= hi <= n
    decreases hi - lo
  {
    if lo == hi then 0
    else InfluenceSum(p, n, mOf, mIn, a, b, e, lo, hi - 1) + Influence(p, n, mOf, mIn, hi - 1, a, b, e)
  }

  /** The reference count: the sum over all superior neighbours of a. */
  function NeighbourTally(p: Population, n: nat, mOf: nat, mIn: nat, a: nat, b: nat, e: nat): int
    requires Fits(p, n, mOf, mIn) && a < n && b < mOf && e < mIn
  {
    InfluenceSum(p, n, mOf, mIn, a, b, e, 0, n)
  }

  /** On an undirected network a dyad's vote is the influence of each end on the other. */
  lemma VoteSplit(p: Population, n: nat, mOf: nat, mIn: nat, x: nat, y: nat, a: nat, b: nat, e: nat)
    requires Fits(p, n, mOf, mIn) && Symmetric(p.network) && x < n && y < n && x != y && a < n && b < mOf && e < mIn
    ensures Vote(p, n, mOf, mIn, (x, y), a, b, e)
            == (if a == y then Influence(p, n, mOf, mIn, x, a, b, e) else 0)
             + (if a == x then Influence(p, n, mOf, mIn, y, a, b, e) else 0)
  {
  }

  /** The first m dyads of row i: a collects from (i, a) when i < a, and from all of row a. */
  lemma {:induction false} RowTally(p: Population, n: nat, mOf: nat, mIn: nat, i: nat, m: nat, a: nat, b: nat, e: nat)
    requires Fits(p, n, mOf, mIn) && Symmetric(p.network) && a < n && b < mOf && e < mIn
    requires i < n && m <= n - i - 1
    ensures DyadsOver(DyadRow(n, i)[..m], n)
    ensures Tally(p, n, mOf, mIn, DyadRow(n, i)[..m], a, b, e)
            == if i == a then InfluenceSum(p, n, mOf, mIn, a, b, e, a + 1, a + 1 + m)
               else if i < a < i + 1 + m then Influence(p, n, mOf, mIn, i, a, b, e)
               else 0
  {
    var row := DyadRow(n, i);
    if m > 0 {
      RowTally(p, n, mOf, mIn, i, m - 1, a, b, e);
      assert row[..m][..m - 1] == row[..m - 1];
      assert row[..m][m - 1] == (i, i + m);
      VoteSplit(p, n, mOf, mIn, i, i + m, a, b, e);
    }
  }

  lemma RowsOver(n: nat, k: nat)
    requires k <= n
    ensures DyadsOver(DyadRows(n, k), n)
  {
    DyadRowsEntries(n, k);
  }

  /** The rows of dyads below k: a collects from every i < min(k, a), and from every j > a once row a is in. */
  lemma {:induction false} RowsTally(p: Population, n: nat, mOf: nat, mIn: nat, k: nat, a: nat, b: nat, e: nat)
    requires Fits(p, n, mOf, mIn) && Symmetric(p.network) && a < n && b < mOf && e < mIn && k <= n
    ensures DyadsOver(DyadRows(n, k), n)
    ensures Tally(p, n, mOf, mIn, DyadRows(n, k), a, b, e)
            == InfluenceSum(p, n, mOf, mIn, a, b, e, 0, if k < a then k else a)
             + (if a < k then InfluenceSum(p, n, mOf, mIn, a, b, e, a + 1, n) else 0)
  {
    RowsOver(n, k);
    if k > 0 {
      var i := k - 1;
      RowsTally(p, n, mOf, mIn, i, a, b, e);
      NextRowTally(p, n, mOf, mIn, i, a, b, e);
      if i < a {
        assert InfluenceSum(p, n, mOf, mIn, a, b, e, 0, k)
               == InfluenceSum(p, n, mOf, mIn, a, b, e, 0, i) + Influence(p, n, mOf, mIn, i, a, b, e);
      }
    }
  }

  /** Row i adds a's influence on i when i < a, the whole of row a when i == a, and nothing after. */
  lemma NextRowTally(p: Population, n: nat, mOf: nat, mIn: nat, i: nat, a: nat, b: nat, e: nat)
    requires Fits(p, n, mOf, mIn) && Symmetric(p.network) && a < n && b < mOf && e < mIn && i < n
    ensures DyadsOver(DyadRows(n, i), n) && DyadsOver(DyadRows(n, i + 1), n)
    ensures Tally(p, n, mOf, mIn, DyadRows(n, i + 1), a, b, e)
            == Tally(p, n, mOf, mIn, DyadRows(n, i), a, b, e)
             + (if i == a then InfluenceSum(p, n, mOf, mIn, a, b, e, a + 1, n)
                else if i < a then Influence(p, n, mOf, mIn, i, a, b, e)
                else 0)
  {
    RowsOver(n, i);
    RowsOver(n, i + 1);
    var row := DyadRow(n, i);
    RowTally(p, n, mOf, mIn, i, n - i - 1, a, b, e);
    assert row[..n - i - 1] == row;
    TallyAppend(p, n, mOf, mIn, DyadRows(n, i), row, a, b, e);
    assert DyadRows(n, i + 1) == DyadRows(n, i) + row;
  }

  lemma {:induction false} InfluenceSumSplit(p: Population, n: nat, mOf: nat, mIn: nat, a: nat, b: nat, e: nat, lo: nat, mid: nat, hi: nat)
    requires Fits(p, n, mOf, mIn) && a < n && b < mOf && e < mIn && lo <= mid <= hi <= n
    ensures InfluenceSum(p, n, mOf, mIn, a, b, e, lo, hi)
            == InfluenceSum(p, n, mOf, mIn, a, b, e, lo, mid) + InfluenceSum(p, n, mOf, mIn, a, b, e, mid, hi)
    decreases hi - mid
  {
    if mid < hi {
      InfluenceSumSplit(p, n, mOf, mIn, a, b, e, lo, mid, hi - 1);
    }
  }

  /**
   * Walking the dyad list of the scenario gives every agent exactly the
   * sum of the signed bits of its better-performing neighbours.
   */
  lemma TallyIsNeighbourTally(p: Population, n: nat, mOf: nat, mIn: nat, a: nat, b: nat, e: nat)
    requires Fits(p, n, mOf, mIn) && Symmetric(p.network) && a < n && b < mOf && e < mIn
    ensures DyadsOver(AllDyads(n), n)
    ensures Tally(p, n, mOf, mIn, AllDyads(n), a, b, e) == NeighbourTally(p, n, mOf, mIn, a, b, e)
  {
    RowsTally(p, n, mOf, mIn, n, a, b, e);
    InfluenceSumSplit(p, n, mOf, mIn, a, b, e, 0, a, n);
    InfluenceSumSplit(p, n, mOf, mIn, a, b, e, a, a + 1, n);
  }

  lemma {:induction false} NoSuperiorNoInfluence(p: Population, n: nat, mOf: nat, mIn: nat, a: nat, b: nat, e: nat, lo: nat, hi: nat)
    requires Fits(p, n, mOf, mIn) && a < n && b < mOf && e < mIn && lo <= hi <= n
    requires forall j :: 0 <= j < n ==> p.performance[j] <= p.performance[a]
    ensures InfluenceSum(p, n, mOf, mIn, a, b, e, lo, hi) == 0
    decreases hi - lo
  {
    if lo < hi {
      NoSuperiorNoInfluence(p, n, mOf, mIn, a, b, e, lo, hi - 1);
    }
  }

  // ---------------------------------------------------------------
  // The update rule
  // ---------------------------------------------------------------

  /** The count points away from the bit: positive against false, negative against true. */
  predicate Disagrees(count: int, bit: bool)
  {
    (count > 0 && !bit) || (count < 0 && bit)
  }

  /**
   * One bit after learning: it changes only when the count disagrees with
   * it and the draw falls under the learning probability, and it then takes
   * the count's side.
   */
  function LearnBit(bit: bool, count: int, draw: real, pLearning: real): (r: bool)
    ensures r != bit <==> Disagrees(count, bit) && draw < pLearning
    ensures r != bit ==> r == (count > 0)
  {
    if !Disagrees(count, bit) then bit
    else if draw < pLearning then !bit
    else bit
  }

  /** An agent's beliefs after learning from its counts, one draw per bit. */
  function LearnBundles(belief: Bundles, counts: seq<seq<int>>, draws: seq<seq<real>>, pLearning: real, mOf: nat, mIn: nat): (r: Bundles)
    requires Beliefs.Shaped(belief, mOf, mIn) && Grid(counts, mOf, mIn) && Grid(draws, mOf, mIn)
    ensures Beliefs.Shaped(r, mOf, mIn)
    ensures forall b, e :: 0 <= b < mOf && 0 <= e < mIn ==> r[b][e] == LearnBit(belief[b][e], counts[b][e], draws[b][e], pLearning)
  {
    seq(mOf, b requires 0 <= b < mOf =>
      seq(mIn, e requires 0 <= e < mIn => LearnBit(belief[b][e], counts[b][e], draws[b][e], pLearning)))
  }

  /** The counts of agent a, laid out [bundle][element]. */
  function CountsOf(p: Population, n: nat, mOf: nat, mIn: nat, ds: seq<Dyad>, a: nat): (c: seq<seq<int>>)
    requires Fits(p, n, mOf, mIn) && DyadsOver(ds, n)
    ensures Grid(c, mOf, mIn)
    ensures forall b, e :: 0 <= b < mOf && 0 <= e < mIn ==> c[b][e] == Tally(p, n, mOf, mIn, ds, a, b, e)
  {
    seq(mOf, b requires 0 <= b < mOf => seq(mIn, e requires 0 <= e < mIn => Tally(p, n, mOf, mIn, ds, a, b, e)))
  }

  /** One agent's draws, laid out [bundle][element]. */
  type Coins = seq<seq<real>>

  /** Draws in [0, 1), laid out [agent][bundle][element]. */
  predicate Draws(draws: seq<Coins>, n: nat, mOf: nat, mIn: nat)
  {
    |draws| == n
    && forall a :: 0 <= a < n ==>
         (Grid(draws[a], mOf, mIn) && forall b, e :: 0 <= b < mOf && 0 <= e < mIn ==> 0.0 <= draws[a][b][e] < 1.0)
  }

  /** Every agent's beliefs after one round of learning over the dyad list ds. */
  function Learned(p: Population, n: nat, mOf: nat, mIn: nat, ds: seq<Dyad>, draws: seq<Coins>, pLearning: real): (r: seq<Bundles>)
    requires Fits(p, n, mOf, mIn) && DyadsOver(ds, n) && Draws(draws, n, mOf, mIn)
    ensures |r| == n && forall a :: 0 <= a < n ==> Beliefs.Shaped(r[a], mOf, mIn)
  {
    seq(n, a requires 0 <= a < n => LearnBundles(p.belief[a], CountsOf(p, n, mOf, mIn, ds, a), draws[a], pLearning, mOf, mIn))
  }

  /**
   * An agent no one outperforms hears no vote on the scenario's dyad list,
   * in whatever order the list has been shuffled, and keeps its beliefs.
   */
  lemma BestKeepsBeliefs(p: Population, n: nat, mOf: nat, mIn: nat, ds: seq<Dyad>, draws: seq<Coins>, pLearning: real, a: nat)
    requires Fits(p, n, mOf, mIn) && Symmetric(p.network) && DyadsOver(ds, n) && Draws(draws, n, mOf, mIn)
    requires multiset(ds) == multiset(AllDyads(n)) && a < n
    requires forall j :: 0 <= j < n ==> p.performance[j] <= p.performance[a]
    ensures Learned(p, n, mOf, mIn, ds, draws, pLearning)[a] == p.belief[a]
  {
    var r := Learned(p, n, mOf, mIn, ds, draws, pLearning)[a];
    forall b, e | 0 <= b < mOf && 0 <= e < mIn ensures r[b][e] == p.belief[a][b][e] {
      TallyIsNeighbourTally(p, n, mOf, mIn, a, b, e);
      TallyReorder(p, n, mOf, mIn, ds, AllDyads(n), a, b, e);
      NoSuperiorNoInfluence(p, n, mOf, mIn, a, b, e, 0, n);
    }
    forall b | 0 <= b < mOf ensures r[b] == p.belief[a][b] {
    }
  }

  /** With a learning probability of 0 or less nobody changes a belief. */
  lemma NoLearningWithoutProbability(p: Population, n: nat, mOf: nat, mIn: nat, ds: seq<Dyad>, draws: seq<Coins>, pLearning: real)
    requires Fits(p, n, mOf, mIn) && DyadsOver(ds, n) && Draws(draws, n, mOf, mIn) && pLearning <= 0.0
    ensures Learned(p, n, mOf, mIn, ds, draws, pLearning) == p.belief
  {
    var r := Learned(p, n, mOf, mIn, ds, draws, pLearning);
    forall a | 0 <= a < n ensures r[a] == p.belief[a] {
      forall b | 0 <= b < mOf ensures r[a][b] == p.belief[a][b] {
      }
    }
  }

  /** With a learning probability of 1 or more every disagreeing bit takes the count's side. */
  lemma CertainLearningFollowsCount(p: Population, n: nat, mOf: nat, mIn: nat, ds: seq<Dyad>, draws: seq<Coins>, pLearning: real,
                                    a: nat, b: nat, e: nat)
    requires Fits(p, n, mOf, mIn) && DyadsOver(ds, n) && Draws(draws, n, mOf, mIn) && pLearning >= 1.0
    requires a < n && b < mOf && e < mIn && Tally(p, n, mOf, mIn, ds, a, b, e) != 0
    ensures Learned(p, n, mOf, mIn, ds, draws, pLearning)[a][b][e] == (Tally(p, n, mOf, mIn, ds, a, b, e) > 0)
  {
  }
}
