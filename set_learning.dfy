// Social learning, turnover and turbulence in the HashSet variant.  Each
// agent walks its own neighbour set, bundle by bundle, and collects a vote
// from every neighbour that scores strictly higher; the flips are collected
// first and applied together, so every agent learns from the beliefs as
// they stood before the round.  On a symmetric network this is the same
// count the matrix variant collects over its dyad list.

module SetLearning {
  import opened Graphs
  import opened Learning
  import Beliefs
  import opened SetAnalysis
  import opened Simulation

  /** What learning reads, with the neighbour sets read as a membership matrix. */
  function Pop(network: SetAdj, performance: seq<nat>, belief: seq<Beliefs.Bundles>): Population
  {
    Population(Members(network), performance, belief)
  }

  /** The influences on agent a of the members of s below hi. */
  function Heard(p: Population, n: nat, mOf: nat, mIn: nat, s: set<nat>, a: nat, b: nat, e: nat, hi: nat): int
    requires Fits(p, n, mOf, mIn) && a < n && b < mOf && e < mIn && hi <= n
  {
    if hi == 0 then 0
    else Heard(p, n, mOf, mIn, s, a, b, e, hi - 1) + if hi - 1 in s then Influence(p, n, mOf, mIn, hi - 1, a, b, e) else 0
  }

  lemma {:induction false} HeardNone(p: Population, n: nat, mOf: nat, mIn: nat, a: nat, b: nat, e: nat, hi: nat)
    requires Fits(p, n, mOf, mIn) && a < n && b < mOf && e < mIn && hi <= n
    ensures Heard(p, n, mOf, mIn, {}, a, b, e, hi) == 0
  {
    if hi > 0 {
      HeardNone(p, n, mOf, mIn, a, b, e, hi - 1);
    }
  }

  /** One more member heard adds its influence, whichever member it is. */
  lemma {:induction false} HeardInsert(p: Population, n: nat, mOf: nat, mIn: nat, s: set<nat>, x: nat, a: nat, b: nat, e: nat, hi: nat)
    requires Fits(p, n, mOf, mIn) && a < n && b < mOf && e < mIn && hi <= n && x !in s && x < n
    ensures Heard(p, n, mOf, mIn, s + {x}, a, b, e, hi)
            == Heard(p, n, mOf, mIn, s, a, b, e, hi) + if x < hi then Influence(p, n, mOf, mIn, x, a, b, e) else 0
  {
    if hi > 0 {
      HeardInsert(p, n, mOf, mIn, s, x, a, b, e, hi - 1);
    }
  }

  /** Hearing every neighbour of a is the reference count of the matrix variant. */
  lemma {:induction false} HeardAll(network: SetAdj, performance: seq<nat>, belief: seq<Beliefs.Bundles>,
                                    n: nat, mOf: nat, mIn: nat, a: nat, b: nat, e: nat, hi: nat)
    requires Fits(Pop(network, performance, belief), n, mOf, mIn) && a < n && b < mOf && e < mIn && hi <= n
    ensures Heard(Pop(network, performance, belief), n, mOf, mIn, network[a], a, b, e, hi)
            == InfluenceSum(Pop(network, performance, belief), n, mOf, mIn, a, b, e, 0, hi)
  {
    if hi > 0 {
      HeardAll(network, performance, belief, n, mOf, mIn, a, b, e, hi - 1);
    }
  }

  /** Agent a's counts, laid out [bundle][element]. */
  function NeighbourCountsOf(p: Population, n: nat, mOf: nat, mIn: nat, a: nat): (c: seq<seq<int>>)
    requires Fits(p, n, mOf, mIn) && a < n
    ensures Grid(c, mOf, mIn)
  {
    seq(mOf, b requires 0 <= b < mOf => seq(mIn, e requires 0 <= e < mIn => NeighbourTally(p, n, mOf, mIn, a, b, e)))
  }

  /** Every agent's beliefs after one round of learning from its better neighbours. */
  function SetLearned(p: Population, n: nat, mOf: nat, mIn: nat, draws: seq<Coins>, pLearning: real): (r: seq<Beliefs.Bundles>)
    requires Fits(p, n, mOf, mIn) && Draws(draws, n, mOf, mIn)
    ensures Agents(r, n, mOf, mIn)
  {
    seq(n, a requires 0 <= a < n => LearnBundles(p.belief[a], NeighbourCountsOf(p, n, mOf, mIn, a), draws[a], pLearning, mOf, mIn))
  }

  /**
   * On a symmetric network, learning from the neighbour sets is learning
   * over the matrix variant's full dyad list.
   */
  lemma SetLearnedIsLearned(p: Population, n: nat, mOf: nat, mIn: nat, draws: seq<Coins>, pLearning: real)
    requires Fits(p, n, mOf, mIn) && Symmetric(p.network) && Draws(draws, n, mOf, mIn)
    ensures DyadsOver(AllDyads(n), n)
    ensures SetLearned(p, n, mOf, mIn, draws, pLearning) == Learned(p, n, mOf, mIn, AllDyads(n), draws, pLearning)
  {
    DyadRowsEntries(n, n);
    var l := Learned(p, n, mOf, mIn, AllDyads(n), draws, pLearning);
    var s := SetLearned(p, n, mOf, mIn, draws, pLearning);
    forall a | 0 <= a < n ensures s[a] == l[a] {
      var c, r := NeighbourCountsOf(p, n, mOf, mIn, a), CountsOf(p, n, mOf, mIn, AllDyads(n), a);
      forall b, e | 0 <= b < mOf && 0 <= e < mIn ensures c[b][e] == r[b][e] {
        TallyIsNeighbourTally(p, n, mOf, mIn, a, b, e);
      }
      SameGrid(c, r, mOf, mIn);
    }
  }

  /** An influence sum over agents none of which scores higher than a is 0. */
  lemma {:induction false} QuietSum(p: Population, n: nat, mOf: nat, mIn: nat, a: nat, b: nat, e: nat, hi: nat)
    requires Fits(p, n, mOf, mIn) && a < n && b < mOf && e < mIn && hi <= n
    requires forall j :: 0 <= j < n && p.network[a][j] ==> p.performance[j] <= p.performance[a]
    ensures InfluenceSum(p, n, mOf, mIn, a, b, e, 0, hi) == 0
  {
    if hi > 0 {
      QuietSum(p, n, mOf, mIn, a, b, e, hi - 1);
    }
  }

  /** An agent none of whose neighbours scores higher keeps its beliefs. */
  lemma NoBetterNeighbourKeeps(network: SetAdj, performance: seq<nat>, belief: seq<Beliefs.Bundles>,
                               n: nat, mOf: nat, mIn: nat, draws: seq<Coins>, pLearning: real, a: nat)
    requires Fits(Pop(network, performance, belief), n, mOf, mIn) && Draws(draws, n, mOf, mIn) && a < n
    requires forall j :: j in network[a] && j < n ==> performance[j] <= performance[a]
    ensures SetLearned(Pop(network, performance, belief), n, mOf, mIn, draws, pLearning)[a] == belief[a]
  {
    var p := Pop(network, performance, belief);
    var r := SetLearned(p, n, mOf, mIn, draws, pLearning)[a];
    forall b, e | 0 <= b < mOf && 0 <= e < mIn ensures r[b][e] == belief[a][b][e] {
      QuietSum(p, n, mOf, mIn, a, b, e, n);
    }
    SameGrid(r, belief[a], mOf, mIn);
  }

  // ---------------------------------------------------------------
  // The routines
  // ---------------------------------------------------------------

  /** The count loop of do_learning for one agent and one bundle: every neighbour visited once. */
  method BundleCounts(network: SetAdj, performance: seq<nat>, belief: seq<Beliefs.Bundles>,
                      n: nat, mOf: nat, mIn: nat, a: nat, b: nat) returns (c: seq<int>)
    requires Fits(Pop(network, performance, belief), n, mOf, mIn) && SetsOver(network) && a < n && b < mOf
    ensures |c| == mIn && forall e :: 0 <= e < mIn ==> c[e] == NeighbourTally(Pop(network, performance, belief), n, mOf, mIn, a, b, e)
  {
    ghost var p := Pop(network, performance, belief);
    c := seq(mIn, _ => 0);
    forall e | 0 <= e < mIn ensures c[e] == Heard(p, n, mOf, mIn, {}, a, b, e, n) {
      HeardNone(p, n, mOf, mIn, a, b, e, n);
    }
    var rest := network[a];
    ghost var done: set<nat> := {};
    while rest != {}
      invariant rest + done == network[a] && rest !! done
      invariant |c| == mIn && forall e :: 0 <= e < mIn ==> c[e] == Heard(p, n, mOf, mIn, done, a, b, e, n)
      decreases |rest|
    {
      var j :| j in rest;
      assert j < n && p.network[a][j];
      if performance[j] > performance[a] {
        c := AddRowVotes(c, belief[j][b]);
      }
      forall e | 0 <= e < mIn ensures c[e] == Heard(p, n, mOf, mIn, done + {j}, a, b, e, n) {
        HeardInsert(p, n, mOf, mIn, done, j, a, b, e, n);
      }
      rest, done := rest - {j}, done + {j};
    }
    forall e | 0 <= e < mIn ensures c[e] == NeighbourTally(p, n, mOf, mIn, a, b, e) {
      HeardAll(network, performance, belief, n, mOf, mIn, a, b, e, n);
    }
  }

  /** All of one agent's counts, bundle by bundle. */
  method AgentCounts(network: SetAdj, performance: seq<nat>, belief: seq<Beliefs.Bundles>,
                     n: nat, mOf: nat, mIn: nat, a: nat) returns (c: seq<seq<int>>)
    requires Fits(Pop(network, performance, belief), n, mOf, mIn) && SetsOver(network) && a < n
    ensures c == NeighbourCountsOf(Pop(network, performance, belief), n, mOf, mIn, a)
  {
    c := [];
    for b := 0 to mOf
      invariant c == NeighbourCountsOf(Pop(network, performance, belief), n, mOf, mIn, a)[..b]
    {
      var row := BundleCounts(network, performance, belief, n, mOf, mIn, a, b);
      assert row == NeighbourCountsOf(Pop(network, performance, belief), n, mOf, mIn, a)[b];
      c := c + [row];
    }
  }

  /**
   * do_learning: every agent's flips are decided from the beliefs as they
   * stood, then applied together, and every agent is rescored.
   */
  method DoLearning(network: SetAdj, reality: Beliefs.Bundles, performance: seq<nat>, belief: seq<Beliefs.Bundles>,
                    n: nat, mOf: nat, mIn: nat, draws: seq<Coins>, pLearning: real)
    returns (learned: seq<Beliefs.Bundles>, scores: seq<nat>)
    requires Fits(Pop(network, performance, belief), n, mOf, mIn) && SetsOver(network)
    requires Beliefs.Shaped(reality, mOf, mIn) && Draws(draws, n, mOf, mIn)
    ensures learned == SetLearned(Pop(network, performance, belief), n, mOf, mIn, draws, pLearning)
    ensures scores == Scores(reality, learned, mIn)
  {
    learned := [];
    for a := 0 to n
      invariant learned == SetLearned(Pop(network, performance, belief), n, mOf, mIn, draws, pLearning)[..a]
    {
      var counts := AgentCounts(network, performance, belief, n, mOf, mIn, a);
      var bundles := LearnAgent(belief[a], counts, draws[a], pLearning, mOf, mIn);
      learned := learned + [bundles];
    }
    scores := Rescore(reality, learned, n, mOf, mIn);
  }

  /** set_performance: every agent scored against reality. */
  method Rescore(reality: Beliefs.Bundles, beliefs: seq<Beliefs.Bundles>, n: nat, mOf: nat, mIn: nat) returns (scores: seq<nat>)
    requires Beliefs.Shaped(reality, mOf, mIn) && Agents(beliefs, n, mOf, mIn)
    ensures scores == Scores(reality, beliefs, mIn)
  {
    scores := [];
    for a := 0 to n
      invariant scores == Scores(reality, beliefs, mIn)[..a]
    {
      var s := Score(reality, beliefs[a], mOf, mIn);
      scores := scores + [s];
    }
  }

  /**
   * do_turnover: each agent whose draw falls under the rate takes its
   * newcomer's beliefs and only that agent is rescored.
   */
  method DoTurnover(reality: Beliefs.Bundles, performance: seq<nat>, belief: seq<Beliefs.Bundles>, n: nat, mOf: nat, mIn: nat,
                    draws: seq<real>, newcomers: seq<Beliefs.Bundles>, rate: real)
    returns (replaced: seq<Beliefs.Bundles>, scores: seq<nat>)
    requires Beliefs.Shaped(reality, mOf, mIn) && Agents(belief, n, mOf, mIn) && |performance| == n
    requires |draws| == n && Agents(newcomers, n, mOf, mIn)
    ensures replaced == Replaced(belief, draws, newcomers, rate)
    ensures |scores| == n
    ensures forall a :: 0 <= a < n ==>
              scores[a] == if draws[a] < rate then Beliefs.Performance(reality, newcomers[a], mIn) else performance[a]
  {
    replaced, scores := belief, performance;
    for a := 0 to n
      invariant |replaced| == n && |scores| == n
      invariant forall x :: 0 <= x < n ==> replaced[x] == if x < a && draws[x] < rate then newcomers[x] else belief[x]
      invariant forall x :: 0 <= x < n ==>
                  scores[x] == if x < a && draws[x] < rate then Beliefs.Performance(reality, newcomers[x], mIn) else performance[x]
    {
      if draws[a] < rate {
        replaced := replaced[a := newcomers[a]];
        var s := Score(reality, newcomers[a], mOf, mIn);
        scores := scores[a := s];
      }
    }
  }

  /** do_turbulence: each bit of reality flips when its draw falls under the rate; then everybody is rescored. */
  method DoTurbulence(reality: Beliefs.Bundles, belief: seq<Beliefs.Bundles>, n: nat, mOf: nat, mIn: nat, flips: Coins, rate: real)
    returns (next: Beliefs.Bundles, scores: seq<nat>)
    requires Beliefs.Shaped(reality, mOf, mIn) && Agents(belief, n, mOf, mIn) && Grid(flips, mOf, mIn)
    ensures next == Turbulent(reality, flips, rate, mOf, mIn)
    ensures scores == Scores(next, belief, mIn)
  {
    next := reality;
    for b := 0 to mOf
      invariant Beliefs.Shaped(next, mOf, mIn)
      invariant forall x, y :: 0 <= x < mOf && 0 <= y < mIn ==> next[x][y] == (reality[x][y] != (x < b && flips[x][y] < rate))
    {
      for e := 0 to mIn
        invariant Beliefs.Shaped(next, mOf, mIn)
        invariant forall x, y :: 0 <= x < mOf && 0 <= y < mIn ==>
                    next[x][y] == (reality[x][y] != ((x < b || (x == b && y < e)) && flips[x][y] < rate))
      {
        if flips[b][e] < rate {
          next := next[b := next[b][e := !next[b][e]]];
        }
      }
    }
    SameGrid(next, Turbulent(reality, flips, rate, mOf, mIn), mOf, mIn);
    scores := Rescore(next, belief, n, mOf, mIn);
  }
}
