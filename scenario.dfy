// The Scenario of the primary simulation: N agents with beliefs about a
// reality of bundled bits, a formal hierarchy whose ties are split into
// formal and informal ones, informal ties that are rewired, and social
// learning over the network.  Each method updates the fields its source
// counterpart updates; the draws, coins and shuffles the source takes from
// its random generator are parameters.

module Simulation {
  import opened Graphs
  import opened Roulette
  import opened Networks
  import opened Rewiring
  import opened Learning
  import opened Initial
  import opened Selection
  import Beliefs
  import Hierarchy
  import Analyzer
  import Metrics
  import Arith

  /** The model-wide constants: N, M_OF_BUNDLE, M_IN_BUNDLE, INFORMAL_MAX_NUM and the rest. */
  datatype Params = Params(n: nat, mOfBundle: nat, mInBundle: nat, informalMaxNum: nat, numAddition: nat,
                           rewiringNum: nat, pLearning: real, linkLevel: bool, limitLevel: bool)

  /** Everything Scenario::new is given: the constants and the four scenario arguments. */
  datatype Setup = Setup(p: Params, socialDynamics: nat, span: nat, enforcement: real,
                         turbulenceRate: real, turnoverRate: real)

  /** The part of a scenario get_clone copies: reality, beliefs, scores, the three tie matrices and their counters. */
  datatype Snapshot = Snapshot(reality: Beliefs.Bundles, beliefOf: seq<Beliefs.Bundles>, performanceOf: seq<nat>,
                               network: Matrix, formal: Matrix, informal: Matrix,
                               degree: seq<int>, degreeFormal: seq<int>, degreeInformal: seq<int>)

  /** A snapshot of N agents with bundles of the given shape. */
  predicate SnapshotFits(s: Snapshot, n: nat, mOf: nat, mIn: nat)
  {
    Beliefs.Shaped(s.reality, mOf, mIn) && Agents(s.beliefOf, n, mOf, mIn) && |s.performanceOf| == n
    && IsSquare(s.network, n) && IsSquare(s.formal, n) && IsSquare(s.informal, n)
    && |s.degree| == n && |s.degreeFormal| == n && |s.degreeInformal| == n
  }

  /** What initialize draws: the enforcement draws, the shuffle before the additional links, their draws, and the bits. */
  datatype InitDraws = InitDraws(enforce: seq<seq<real>>, shuffled: seq<Dyad>, additions: seq<real>,
                                 reality: Beliefs.Bundles, beliefs: seq<Beliefs.Bundles>)

  /** What one step draws: rewiring markers and shuffles, learning coins, turnover draws and newcomers. */
  datatype StepDraws = StepDraws(formMarkers: seq<real>, formShuffles: seq<seq<Dyad>>,
                                 breakMarkers: seq<real>, breakShuffles: seq<seq<Dyad>>,
                                 passShuffles: seq<seq<Dyad>>,
                                 learning: seq<Coins>, turnover: seq<real>, newcomers: seq<Beliefs.Bundles>)

  /** n belief matrices of the same shape. */
  predicate Agents(beliefs: seq<Beliefs.Bundles>, n: nat, mOf: nat, mIn: nat)
  {
    |beliefs| == n && forall a :: 0 <= a < n ==> Beliefs.Shaped(beliefs[a], mOf, mIn)
  }

  predicate InitFits(d: InitDraws, n: nat, mOf: nat, mIn: nat, numAddition: nat, ds: seq<Dyad>)
  {
    DrawGrid(d.enforce, n) && IsShuffle(d.shuffled, ds) && numAddition <= |d.additions|
    && Beliefs.Shaped(d.reality, mOf, mIn) && Agents(d.beliefs, n, mOf, mIn)
  }

  // ---------------------------------------------------------------
  // Performance and its average
  // ---------------------------------------------------------------

  /** Every agent's score against reality: what set_performance leaves in performance_of. */
  function Scores(reality: Beliefs.Bundles, beliefs: seq<Beliefs.Bundles>, mIn: nat): (s: seq<nat>)
    requires forall a :: 0 <= a < |beliefs| ==> |beliefs[a]| == |reality|
    ensures |s| == |beliefs|
  {
    seq(|beliefs|, a requires 0 <= a < |beliefs| => Beliefs.Performance(reality, beliefs[a], mIn))
  }

  function PerformanceTotal(s: seq<nat>): nat
  {
    if s == [] then 0 else PerformanceTotal(s[..|s| - 1]) + s[|s| - 1]
  }

  /** performance_avg: the total score over M_N = M * N. */
  function MeanPerformance(s: seq<nat>, n: nat, mOf: nat, mIn: nat): real
    requires mOf >= 1 && mIn >= 1 && n >= 1
  {
    BitsPositive(mOf, mIn, n);
    PerformanceTotal(s) as real / (Beliefs.Bits(mOf, mIn) * n) as real
  }

  /** A total of scores each at most m is at most m per agent, and reaches that only when every score does. */
  lemma {:induction false} TotalBound(s: seq<nat>, m: nat)
    requires forall a :: 0 <= a < |s| ==> s[a] <= m
    ensures PerformanceTotal(s) <= |s| * m
    ensures PerformanceTotal(s) == |s| * m <==> forall a :: 0 <= a < |s| ==> s[a] == m
  {
    if s != [] {
      var k := |s| - 1;
      var init := s[..k];
      TotalBound(init, m);
      assert PerformanceTotal(s) == PerformanceTotal(init) + s[k];
      assert |s| * m == k * m + m;
      if PerformanceTotal(s) == |s| * m {
        assert PerformanceTotal(init) == k * m && s[k] == m;
        forall a | 0 <= a < |s| ensures s[a] == m {
          if a < k { assert s[a] == init[a]; }
        }
      }
      if forall a :: 0 <= a < |s| ==> s[a] == m {
        assert forall a :: 0 <= a < k ==> init[a] == m;
      }
    }
  }

  /**
   * With every agent scored, the average lies in [0, 1], and it is 1
   * exactly when every agent's beliefs equal reality.
   */
  lemma MeanPerformanceRange(reality: Beliefs.Bundles, beliefs: seq<Beliefs.Bundles>, n: nat, mOf: nat, mIn: nat)
    requires mOf >= 1 && mIn >= 1 && n >= 1
    requires Beliefs.Shaped(reality, mOf, mIn) && Agents(beliefs, n, mOf, mIn)
    ensures 0.0 <= MeanPerformance(Scores(reality, beliefs, mIn), n, mOf, mIn) <= 1.0
    ensures MeanPerformance(Scores(reality, beliefs, mIn), n, mOf, mIn) == 1.0
            <==> forall a :: 0 <= a < n ==> beliefs[a] == reality
  {
    var s, m := Scores(reality, beliefs, mIn), Beliefs.Bits(mOf, mIn);
    forall a | 0 <= a < n ensures s[a] <= m && (s[a] == m <==> beliefs[a] == reality) {
      Beliefs.PerformanceRange(reality, beliefs[a], mOf, mIn);
    }
    TotalBound(s, m);
    assert |s| * m == m * n;
    Arith.RatioAtMostOne(PerformanceTotal(s), m * n);
  }

  lemma BitsPositive(mOf: nat, mIn: nat, n: nat)
    requires mOf >= 1 && mIn >= 1 && n >= 1
    ensures Beliefs.Bits(mOf, mIn) * n > 0
  {
    assert mOf * mIn >= 1;
  }

  /** The loop's stopping point is the matching prefix. */
  lemma PrefixIs(r: seq<bool>, b: seq<bool>, e: nat)
    requires |r| == |b| && e <= |r|
    requires forall k :: 0 <= k < e ==> r[k] == b[k]
    requires e < |r| ==> r[e] != b[e]
    ensures Beliefs.MatchingPrefix(r, b) == e
  {
  }

  /**
   * The loop of get_performance_of as written: for each bundle, M_IN_BUNDLE
   * is added for every element of the prefix on which belief and reality
   * agree, and the first disagreement moves on to the next bundle.
   */
  method ScoreAsWritten(reality: Beliefs.Bundles, belief: Beliefs.Bundles, mOf: nat, mIn: nat) returns (p: nat)
    requires Beliefs.Shaped(reality, mOf, mIn) && Beliefs.Shaped(belief, mOf, mIn)
    ensures p == Beliefs.PerformanceAsWritten(reality, belief, mIn)
  {
    p := 0;
    ghost var t := 0;
    for b := 0 to mOf
      invariant t == Beliefs.PrefixTotal(reality[..b], belief[..b]) && p == mIn * t
    {
      var e := 0;
      while e < mIn && reality[b][e] == belief[b][e]
        invariant e <= mIn && forall k :: 0 <= k < e ==> reality[b][k] == belief[b][k]
        invariant t == Beliefs.PrefixTotal(reality[..b], belief[..b]) + e && p == mIn * t
      {
        Arith.MulSucc(mIn, t);
        p := p + mIn;
        t := t + 1;
        e := e + 1;
      }
      PrefixIs(reality[b], belief[b], e);
      assert reality[..b + 1][..b] == reality[..b] && belief[..b + 1][..b] == belief[..b];
    }
    assert reality[..mOf] == reality && belief[..mOf] == belief;
  }

  /**
   * get_performance_of as the design means it (and as the HashSet variant
   * computes it): M_IN_BUNDLE for each bundle matched in every element.
   */
  method Score(reality: Beliefs.Bundles, belief: Beliefs.Bundles, mOf: nat, mIn: nat) returns (p: nat)
    requires Beliefs.Shaped(reality, mOf, mIn) && Beliefs.Shaped(belief, mOf, mIn)
    ensures p == Beliefs.Performance(reality, belief, mIn)
  {
    p := 0;
    for b := 0 to mOf
      invariant p == Beliefs.Performance(reality[..b], belief[..b], mIn)
    {
      var e := 0;
      while e < mIn && reality[b][e] == belief[b][e]
        invariant e <= mIn && forall k :: 0 <= k < e ==> reality[b][k] == belief[b][k]
      {
        e := e + 1;
      }
      assert e == mIn <==> reality[b] == belief[b];
      assert reality[..b + 1][..b] == reality[..b] && belief[..b + 1][..b] == belief[..b];
      if e == mIn {
        p := p + mIn;
      }
    }
    assert reality[..mOf] == reality && belief[..mOf] == belief;
  }

  // ---------------------------------------------------------------
  // Rewiring
  // ---------------------------------------------------------------

  /** The tie state and dyad list do_rewiring leaves, how many directed rounds fell back, and whether the quotas were met. */
  datatype Rewire = Rewire(ties: Ties, dyads: seq<Dyad>, fallbacks: nat, complete: bool)

  /**
   * The draws a rewiring step takes: a marker and a shuffle outcome for each
   * directed round, and at least one shuffle outcome for the random passes.
   */
  predicate RewireFits(d: StepDraws, ds: seq<Dyad>, nf: nat, nb: nat)
  {
    Markers(d.formMarkers) && Shuffles(d.formShuffles, ds) && nf <= |d.formMarkers| && nf <= |d.formShuffles|
    && Markers(d.breakMarkers) && Shuffles(d.breakShuffles, ds) && nb <= |d.breakMarkers| && nb <= |d.breakShuffles|
    && Shuffles(d.passShuffles, ds) && |d.passShuffles| > 0
  }

  /**
   * do_rewiring: random passes, or nf directed formations followed by nb
   * directed breaks.  Formal ties, the mask and the formal counters are
   * never touched; when the quotas are met the informal counters grow by
   * two per formation and shrink by two per break.
   */
  function AfterRewiring(mode: Dynamics, random: bool, t: Ties, n: nat, cap: nat, ds: seq<Dyad>, nf: nat, nb: nat, d: StepDraws)
    : (r: Rewire)
    requires Shaped(t, n) && DyadsOver(ds, n) && |ds| > 0 && RewireFits(d, ds, nf, nb)
    ensures Shaped(r.ties, n) && IsShuffle(r.dyads, ds) && DyadsOver(r.dyads, n) && |r.dyads| == |ds|
    ensures r.ties.formal == t.formal && r.ties.limited == t.limited && r.ties.degreeFormal == t.degreeFormal
    ensures r.complete ==> Total(r.ties.degreeInformal) == Total(t.degreeInformal) + 2 * nf - 2 * nb
    ensures !random ==> r.complete
  {
    if random then
      var o := PassesFrom(t, n, cap, ds, d.passShuffles, 0, nf, nb);
      ShuffleKeepsDyadsOver(o.dyads, ds, n);
      Rewire(o.last.ties, o.dyads, 0, o.last.formLeft == 0 && o.last.breakLeft == 0)
    else
      var f := Formations(mode, t, n, cap, ds, d.formMarkers, d.formShuffles, nf);
      ShufflesOfReordering(d.breakShuffles, ds, f.dyads);
      var b := Breaks(mode, f.ties, n, f.dyads, d.breakMarkers, d.breakShuffles, nb);
      Rewire(b.ties, b.dyads, f.fallbacks + b.fallbacks, true)
  }

  /** The rewiring of step_forward: both quotas num when rewiring is on, nothing when it is off. */
  function StepRewiring(mode: Dynamics, rewiring: bool, random: bool, t: Ties, n: nat, cap: nat, ds: seq<Dyad>, num: nat, d: StepDraws)
    : (r: Rewire)
    requires Shaped(t, n) && DyadsOver(ds, n) && |ds| > 0 && RewireFits(d, ds, num, num)
  {
    if rewiring then AfterRewiring(mode, random, t, n, cap, ds, num, num, d) else Rewire(t, ds, 0, true)
  }

  /** Rewiring keeps the invariant unless a directed round fell back; random passes always keep it. */
  lemma RewiringKeepsConsistent(mode: Dynamics, random: bool, t: Ties, n: nat, cap: nat, ds: seq<Dyad>, nf: nat, nb: nat, d: StepDraws)
    requires Consistent(t, n) && DyadsOver(ds, n) && |ds| > 0 && RewireFits(d, ds, nf, nb)
    ensures random ==> AfterRewiring(mode, random, t, n, cap, ds, nf, nb, d).fallbacks == 0
    ensures AfterRewiring(mode, random, t, n, cap, ds, nf, nb, d).fallbacks == 0 ==>
              Consistent(AfterRewiring(mode, random, t, n, cap, ds, nf, nb, d).ties, n)
  {
    if random {
      PassesKeepConsistent(t, n, cap, ds, d.passShuffles, 0, nf, nb);
    } else {
      var f := Formations(mode, t, n, cap, ds, d.formMarkers, d.formShuffles, nf);
      ShufflesOfReordering(d.breakShuffles, ds, f.dyads);
      var b := Breaks(mode, f.ties, n, f.dyads, d.breakMarkers, d.breakShuffles, nb);
      assert AfterRewiring(mode, random, t, n, cap, ds, nf, nb, d).fallbacks == f.fallbacks + b.fallbacks;
    }
  }

  // ---------------------------------------------------------------
  // Learning
  // ---------------------------------------------------------------

  /** One vote per element added to a row of counts: +1 where the bit is set, -1 where it is not. */
  method AddRowVotes(counts: seq<int>, bits: seq<bool>) returns (r: seq<int>)
    requires |counts| == |bits|
    ensures |r| == |counts| && forall e :: 0 <= e < |r| ==> r[e] == counts[e] + Sign(bits[e])
  {
    r := counts;
    for e := 0 to |r|
      invariant |r| == |counts|
      invariant forall y :: 0 <= y < |r| ==> r[y] == counts[y] + (if y < e then Sign(bits[y]) else 0)
    {
      r := r[e := r[e] + if bits[e] then 1 else -1];
    }
  }

  /** The votes of one superior agent added to an inferior agent's counts, bundle by bundle. */
  method AddVotes(counts: seq<seq<int>>, bits: Beliefs.Bundles, mOf: nat, mIn: nat) returns (r: seq<seq<int>>)
    requires Grid(counts, mOf, mIn) && Beliefs.Shaped(bits, mOf, mIn)
    ensures Grid(r, mOf, mIn)
    ensures forall b, e :: 0 <= b < mOf && 0 <= e < mIn ==> r[b][e] == counts[b][e] + Sign(bits[b][e])
  {
    r := counts;
    for b := 0 to mOf
      invariant Grid(r, mOf, mIn)
      invariant forall x, y :: 0 <= x < mOf && 0 <= y < mIn ==> r[x][y] == counts[x][y] + (if x < b then Sign(bits[x][y]) else 0)
    {
      var row := AddRowVotes(r[b], bits[b]);
      r := r[b := row];
    }
  }

  /**
   * The first loop of do_learning: along the dyad list, every tie between
   * agents of different performance adds the better agent's votes to the
   * other's counts.  The counts are those of the tally.
   */
  method MajorityCounts(p: Population, n: nat, mOf: nat, mIn: nat, ds: seq<Dyad>) returns (c: seq<seq<seq<int>>>)
    requires Fits(p, n, mOf, mIn) && DyadsOver(ds, n)
    ensures |c| == n && forall a :: 0 <= a < n ==> c[a] == CountsOf(p, n, mOf, mIn, ds, a)
  {
    c := seq(n, _ => seq(mOf, _ => seq(mIn, _ => 0)));
    for k := 0 to |ds|
      invariant |c| == n && forall a :: 0 <= a < n ==> Grid(c[a], mOf, mIn)
      invariant forall a, b, e :: 0 <= a < n && 0 <= b < mOf && 0 <= e < mIn ==>
                  c[a][b][e] == Tally(p, n, mOf, mIn, ds[..k], a, b, e)
    {
      var (f, g) := ds[k];
      if p.network[f][g] && p.performance[f] != p.performance[g] {
        var (superior, inferior) := if p.performance[f] > p.performance[g] then (f, g) else (g, f);
        var row := AddVotes(c[inferior], p.belief[superior], mOf, mIn);
        c := c[inferior := row];
      }
      assert ds[..k + 1][..k] == ds[..k];
      forall a, b, e | 0 <= a < n && 0 <= b < mOf && 0 <= e < mIn
        ensures c[a][b][e] == Tally(p, n, mOf, mIn, ds[..k + 1], a, b, e)
      {
        assert Tally(p, n, mOf, mIn, ds[..k + 1], a, b, e)
               == Tally(p, n, mOf, mIn, ds[..k], a, b, e) + Vote(p, n, mOf, mIn, ds[k], a, b, e);
      }
    }
    assert ds[..|ds|] == ds;
    forall a | 0 <= a < n ensures c[a] == CountsOf(p, n, mOf, mIn, ds, a) {
      SameGrid(c[a], CountsOf(p, n, mOf, mIn, ds, a), mOf, mIn);
    }
  }

  /**
   * The second loop of do_learning for one agent: a bit whose count is
   * non-zero and points the other way flips when its draw falls under the
   * learning probability.
   */
  method LearnAgent(belief: Beliefs.Bundles, counts: seq<seq<int>>, draws: Coins, pLearning: real, mOf: nat, mIn: nat)
    returns (r: Beliefs.Bundles)
    requires Beliefs.Shaped(belief, mOf, mIn) && Grid(counts, mOf, mIn) && Grid(draws, mOf, mIn)
    ensures r == LearnBundles(belief, counts, draws, pLearning, mOf, mIn)
  {
    r := belief;
    for b := 0 to mOf
      invariant Beliefs.Shaped(r, mOf, mIn)
      invariant forall x, y :: 0 <= x < mOf && 0 <= y < mIn ==>
                  r[x][y] == if x < b then LearnBit(belief[x][y], counts[x][y], draws[x][y], pLearning) else belief[x][y]
    {
      var row := r[b];
      for e := 0 to mIn
        invariant |row| == mIn
        invariant forall y :: 0 <= y < mIn ==>
                    row[y] == if y < e then LearnBit(belief[b][y], counts[b][y], draws[b][y], pLearning) else belief[b][y]
      {
        var count, bit := counts[b][e], row[e];
        if (count > 0 && bit) || (count < 0 && !bit) || count == 0 {
          continue;
        }
        if draws[b][e] < pLearning {
          row := row[e := !bit];
        }
      }
      r := r[b := row];
    }
    SameGrid(r, LearnBundles(belief, counts, draws, pLearning, mOf, mIn), mOf, mIn);
  }

  // ---------------------------------------------------------------
  // Turnover and turbulence
  // ---------------------------------------------------------------

  /** Each agent whose draw falls under the rate is replaced by its newcomer. */
  function Replaced(beliefs: seq<Beliefs.Bundles>, draws: seq<real>, newcomers: seq<Beliefs.Bundles>, rate: real)
    : (r: seq<Beliefs.Bundles>)
    requires |draws| == |beliefs| == |newcomers|
    ensures |r| == |beliefs|
    ensures forall a :: 0 <= a < |r| ==> r[a] == if draws[a] < rate then newcomers[a] else beliefs[a]
  {
    seq(|beliefs|, a requires 0 <= a < |beliefs| => if draws[a] < rate then newcomers[a] else beliefs[a])
  }

  /** Draws in [0, 1). */
  predicate Unit(draws: seq<real>)
  {
    forall k :: 0 <= k < |draws| ==> 0.0 <= draws[k] < 1.0
  }

  /** With a rate of 0 or less nobody leaves; with a rate of 1 or more everybody is replaced. */
  lemma TurnoverExtremes(beliefs: seq<Beliefs.Bundles>, draws: seq<real>, newcomers: seq<Beliefs.Bundles>, rate: real)
    requires |draws| == |beliefs| == |newcomers| && Unit(draws)
    ensures rate <= 0.0 ==> Replaced(beliefs, draws, newcomers, rate) == beliefs
    ensures rate >= 1.0 ==> Replaced(beliefs, draws, newcomers, rate) == newcomers
  {
  }

  /** Each bit of reality whose draw falls under the rate is flipped. */
  function Turbulent(reality: Beliefs.Bundles, draws: Coins, rate: real, mOf: nat, mIn: nat): (r: Beliefs.Bundles)
    requires Beliefs.Shaped(reality, mOf, mIn) && Grid(draws, mOf, mIn)
    ensures Beliefs.Shaped(r, mOf, mIn)
    ensures forall b, e :: 0 <= b < mOf && 0 <= e < mIn ==> r[b][e] == (reality[b][e] != (draws[b][e] < rate))
  {
    seq(mOf, b requires 0 <= b < mOf => seq(mIn, e requires 0 <= e < mIn => reality[b][e] != (draws[b][e] < rate)))
  }

  predicate UnitCoins(draws: Coins, mOf: nat, mIn: nat)
  {
    Grid(draws, mOf, mIn) && forall b, e :: 0 <= b < mOf && 0 <= e < mIn ==> 0.0 <= draws[b][e] < 1.0
  }

  /** Two grids agreeing entry by entry are equal. */
  lemma SameGrid<T>(x: seq<seq<T>>, y: seq<seq<T>>, mOf: nat, mIn: nat)
    requires Grid(x, mOf, mIn) && Grid(y, mOf, mIn)
    requires forall b, e :: 0 <= b < mOf && 0 <= e < mIn ==> x[b][e] == y[b][e]
    ensures x == y
  {
    forall b | 0 <= b < mOf ensures x[b] == y[b] {
      assert forall e :: 0 <= e < mIn ==> x[b][e] == y[b][e];
    }
  }

  /** With a rate of 0 or less reality stays; with a rate of 1 or more every bit of it flips. */
  lemma TurbulenceExtremes(reality: Beliefs.Bundles, draws: Coins, rate: real, mOf: nat, mIn: nat)
    requires Beliefs.Shaped(reality, mOf, mIn) && UnitCoins(draws, mOf, mIn)
    ensures rate <= 0.0 ==> Turbulent(reality, draws, rate, mOf, mIn) == reality
    ensures rate >= 1.0 ==> forall b, e :: 0 <= b < mOf && 0 <= e < mIn ==>
              Turbulent(reality, draws, rate, mOf, mIn)[b][e] == !reality[b][e]
  {
    if rate <= 0.0 {
      SameGrid(Turbulent(reality, draws, rate, mOf, mIn), reality, mOf, mIn);
    }
  }

  // ---------------------------------------------------------------
  // Initial network
  // ---------------------------------------------------------------

  /**
   * The body of initialize_network on local values: the hierarchy and its
   * levels, the enforcement loop, one pass of additional links along ds
   * (skipped when none are owed), and the level mask.
   */
  method InitialNetwork(n: nat, span: nat, linkLevel: bool, limitLevel: bool, cap: nat, ds: seq<Dyad>,
                        enforceDraws: seq<seq<real>>, additionDraws: seq<real>, enforcement: real, numAddition: nat)
    returns (t: Ties, levels: seq<int>, range: int, left: nat)
    requires 1 <= span && span + 1 <= n && DyadsOver(ds, n) && DrawGrid(enforceDraws, n) && numAddition <= |additionDraws|
    ensures t == InitialTies(n, span, linkLevel, limitLevel, cap, ds, enforceDraws, additionDraws, enforcement, numAddition).ties
    ensures left == InitialTies(n, span, linkLevel, limitLevel, cap, ds, enforceDraws, additionDraws, enforcement, numAddition).left
    ensures levels == Levels(n, span) && range == Hierarchy.Level(n - 1, span) - 1
  {
    var net, deg;
    net, deg, levels, range := Hierarchy.BuildHierarchy(n, span, linkLevel);
    SameEntries(net, HierarchyNet(span, n, linkLevel), n);
    MatchIsRowCounts(net, deg);
    var formal, informal, degFormal, degInformal := Enforce(net, n, enforceDraws, enforcement);
    MatchIsRowCounts(formal, degFormal);
    MatchIsRowCounts(informal, degInformal);
    t := Ties(net, formal, informal, Empty(n), deg, degFormal, degInformal);
    assert t == EnforcedTies(HierarchyNet(span, n, linkLevel), n, enforceDraws, enforcement);
    left := numAddition;
    if numAddition > 0 {
      t, left := AddLinks(t, n, cap, ds, additionDraws, enforcement, numAddition);
    }
    assert levels == Levels(n, span);
    var limited := LimitLevels(n, levels, limitLevel);
    t := t.(limited := limited);
  }

  // ---------------------------------------------------------------
  // The scenario
  // ---------------------------------------------------------------

  class Scenario {
    const n: nat
    const mOf: nat
    const mIn: nat
    const cap: nat
    const numAddition: nat
    const rewiringNum: nat
    const pLearning: real
    const linkLevel: bool
    const limitLevel: bool

    const socialDynamics: nat
    const isNetworkClosure: bool
    const isPreferentialAttachment: bool
    const span: nat
    const enforcement: real
    const turbulenceRate: real
    const turnoverRate: real

    var isRewiring: bool
    var isRandomRewiring: bool

    var reality: Beliefs.Bundles
    var beliefOf: seq<Beliefs.Bundles>
    var performanceOf: seq<nat>
    var levelOf: seq<int>
    var levelRange: int

    var network: Matrix
    var networkFormal: Matrix
    var networkInformal: Matrix
    var networkLimited: Matrix
    var degree: seq<int>
    var degreeFormal: seq<int>
    var degreeInformal: seq<int>

    var dyads: seq<Dyad>
    var analyzer: Analyzer.NetworkAnalyzer

    var performanceAvg: real
    var averagePathLength: real
    var networkEfficiency: real
    var globalClustering: real
    var overallCentralization: real
    var shortestPathVariance: real

    /** The matrices and counters, as one value. */
    function State(): Ties
      reads this`network, this`networkFormal, this`networkInformal, this`networkLimited
      reads this`degree, this`degreeFormal, this`degreeInformal
    {
      Ties(network, networkFormal, networkInformal, networkLimited, degree, degreeFormal, degreeInformal)
    }

    /** The arguments this scenario was made from. */
    function Config(): (c: Setup)
      ensures c.p.n == n && c.p.mOfBundle == mOf && c.p.mInBundle == mIn
    {
      Setup(Params(n, mOf, mIn, cap, numAddition, rewiringNum, pLearning, linkLevel, limitLevel),
            socialDynamics, span, enforcement, turbulenceRate, turnoverRate)
    }

    /** The fields get_clone copies. */
    function Copyable(): Snapshot
      reads this`reality, this`beliefOf, this`performanceOf
      reads this`network, this`networkFormal, this`networkInformal, this`degree, this`degreeFormal, this`degreeInformal
    {
      Snapshot(reality, beliefOf, performanceOf, network, networkFormal, networkInformal, degree, degreeFormal, degreeInformal)
    }

    /** The fields get_clone does not copy: the mask, the levels, the dyad list and the rewiring flags. */
    function Retained(): (Matrix, seq<int>, seq<Dyad>, bool, bool)
      reads this`networkLimited, this`levelOf, this`dyads, this`isRewiring, this`isRandomRewiring
    {
      (networkLimited, levelOf, dyads, isRewiring, isRandomRewiring)
    }

    /** The weighting the flags select. */
    function Mode(): Dynamics
    {
      if isNetworkClosure then NetworkClosure
      else if isPreferentialAttachment then PreferentialAttachment
      else Neither
    }

    /** The part of the state learning reads. */
    function Pop(): Population
      reads this`network, this`performanceOf, this`beliefOf
    {
      Population(network, performanceOf, beliefOf)
    }

    /** The constants: at least three agents, non-empty bundles, a span that fits, flags from social_dynamics. */
    ghost predicate Sane()
    {
      n >= 3 && mOf >= 1 && mIn >= 1 && 1 <= span && span + 1 <= n
      && isNetworkClosure == (socialDynamics == 0) && isPreferentialAttachment == (socialDynamics == 1)
    }

    /** Matrices and counters of N agents. */
    ghost predicate TiesValid()
      reads this`network, this`networkFormal, this`networkInformal, this`networkLimited
      reads this`degree, this`degreeFormal, this`degreeInformal
    {
      Shaped(State(), n)
    }

    /** A dyad list that reorders all N(N-1)/2 dyads. */
    ghost predicate DyadsValid()
      reads this`dyads
    {
      |dyads| > 0 && DyadsOver(dyads, n) && IsShuffle(dyads, AllDyads(n))
    }

    /** Reality and N beliefs of M_OF_BUNDLE bundles of M_IN_BUNDLE bits, N scores and N levels. */
    ghost predicate AgentsValid()
      reads this`reality, this`beliefOf, this`performanceOf, this`levelOf
    {
      Beliefs.Shaped(reality, mOf, mIn) && Agents(beliefOf, n, mOf, mIn) && |performanceOf| == n && |levelOf| == n
    }

    ghost predicate Valid()
      reads this`analyzer, this`network, this`networkFormal, this`networkInformal, this`networkLimited
      reads this`degree, this`degreeFormal, this`degreeInformal, this`dyads
      reads this`reality, this`beliefOf, this`performanceOf, this`levelOf
    {
      Sane() && analyzer.n == n && TiesValid() && DyadsValid() && AgentsValid()
    }

    /** performance_of holds every agent's current score. */
    ghost predicate Scored()
      reads this`reality, this`beliefOf, this`performanceOf, this`levelOf
    {
      AgentsValid() && performanceOf == Scores(reality, beliefOf, mIn)
    }

    /** The outcome fields hold the analyzer's outputs and the average score. */
    ghost predicate Measured()
      reads this`analyzer, this`network, this`performanceOf, this`performanceAvg, this`averagePathLength
      reads this`networkEfficiency, this`globalClustering, this`overallCentralization, this`shortestPathVariance
      reads analyzer`averagePathLength, analyzer`networkEfficiency, analyzer`globalClustering
      reads analyzer`centralizationCloseness, analyzer`shortestPathVariance
    {
      Sane() && analyzer.n == n && IsSquare(network, n)
      && performanceAvg == MeanPerformance(performanceOf, n, mOf, mIn) && Copied()
    }

    /** The five network metrics hold the analyzer's outputs. */
    ghost predicate Copied()
      reads this`analyzer, this`averagePathLength, this`networkEfficiency, this`globalClustering
      reads this`overallCentralization, this`shortestPathVariance
      reads analyzer`averagePathLength, analyzer`networkEfficiency, analyzer`globalClustering
      reads analyzer`centralizationCloseness, analyzer`shortestPathVariance
    {
      averagePathLength == analyzer.averagePathLength && networkEfficiency == analyzer.networkEfficiency
      && globalClustering == analyzer.globalClustering && overallCentralization == analyzer.centralizationCloseness
      && shortestPathVariance == analyzer.shortestPathVariance
    }

    /**
     * The tie state, the levels and complete are what initialize_network
     * leaves for these draws along the current dyad list.
     */
    ghost predicate Initialised(enforceDraws: seq<seq<real>>, additionDraws: seq<real>, complete: bool)
      reads this`network, this`networkFormal, this`networkInformal, this`networkLimited
      reads this`degree, this`degreeFormal, this`degreeInformal, this`dyads, this`levelOf, this`levelRange
    {
      1 <= span < n && DyadsOver(dyads, n) && DrawGrid(enforceDraws, n) && numAddition <= |additionDraws|
      && var a := InitialTies(n, span, linkLevel, limitLevel, cap, dyads, enforceDraws, additionDraws, enforcement, numAddition);
      State() == a.ties && complete == (a.left == 0)
      && levelOf == Levels(n, span) && levelRange == Hierarchy.Level(n - 1, span) - 1
    }

    /**
     * Scenario::new up to the call of initialize: every matrix empty, every
     * counter, score and belief zero, the dyad list in order, rewiring on
     * and directed, the flags set from social_dynamics.
     */
    constructor (p: Params, socialDynamics: nat, span: nat, enforcement: real, turbulenceRate: real, turnoverRate: real)
      requires p.n >= 3 && p.mOfBundle >= 1 && p.mInBundle >= 1 && 1 <= span && span + 1 <= p.n
      ensures Valid() && fresh(analyzer)
      ensures n == p.n && mOf == p.mOfBundle && mIn == p.mInBundle && cap == p.informalMaxNum
      ensures numAddition == p.numAddition && rewiringNum == p.rewiringNum && pLearning == p.pLearning
      ensures linkLevel == p.linkLevel && limitLevel == p.limitLevel
      ensures this.socialDynamics == socialDynamics && this.span == span && this.enforcement == enforcement
      ensures this.turbulenceRate == turbulenceRate && this.turnoverRate == turnoverRate
      ensures Mode() == DynamicsOf(socialDynamics)
      ensures isRewiring && !isRandomRewiring
      ensures State() == Ties(Empty(p.n), Empty(p.n), Empty(p.n), Empty(p.n), seq(p.n, _ => 0), seq(p.n, _ => 0), seq(p.n, _ => 0))
      ensures dyads == AllDyads(p.n)
    {
      n, mOf, mIn, cap := p.n, p.mOfBundle, p.mInBundle, p.informalMaxNum;
      numAddition, rewiringNum, pLearning := p.numAddition, p.rewiringNum, p.pLearning;
      linkLevel, limitLevel := p.linkLevel, p.limitLevel;
      this.socialDynamics, this.span, this.enforcement := socialDynamics, span, enforcement;
      this.turbulenceRate, this.turnoverRate := turbulenceRate, turnoverRate;
      isNetworkClosure := socialDynamics == 0;
      isPreferentialAttachment := socialDynamics == 1;
      isRewiring, isRandomRewiring := true, false;
      reality := seq(p.mOfBundle, _ => seq(p.mInBundle, _ => false));
      beliefOf := seq(p.n, _ => seq(p.mOfBundle, _ => seq(p.mInBundle, _ => false)));
      performanceOf := seq(p.n, _ => 0);
      levelOf := seq(p.n, _ => 0);
      levelRange := 0;
      network, networkFormal, networkInformal, networkLimited := Empty(p.n), Empty(p.n), Empty(p.n), Empty(p.n);
      degree, degreeFormal, degreeInformal := seq(p.n, _ => 0), seq(p.n, _ => 0), seq(p.n, _ => 0);
      dyads := AllDyads(p.n);
      analyzer := new Analyzer.NetworkAnalyzer(p.n);
      performanceAvg, averagePathLength, networkEfficiency := 0.0, 0.0, 0.0;
      globalClustering, overallCentralization, shortestPathVariance := 0.0, 0.0, 0.0;
      new;
      AllDyadsShape(n);
      assert (0, 1) in AllDyads(n);
    }

    /**
     * get_clone: a new scenario with the same constants, initialised with
     * its own draws, then given the original's reality, beliefs, scores,
     * the three tie matrices and the three counters, a fresh analyzer and
     * its outcome measured.  The mask, the levels, the dyad list and the
     * rewiring flags are not copied: the mask and levels are those of the
     * clone's own hierarchy, which the draws do not affect, the dyad list
     * is the clone's own, and the flags are reset to directed rewiring.
     */
    method GetClone(d: InitDraws) returns (c: Scenario, complete: bool)
      requires Valid() && InitFits(d, n, mOf, mIn, numAddition, AllDyads(n))
      ensures fresh(c) && c.Valid() && c.Measured() && c.analyzer.Reports(c.network)
      ensures c.Config() == Config() && c.Mode() == Mode()
      ensures c.isRewiring && !c.isRandomRewiring && c.Copyable() == Copyable()
      ensures c.networkLimited == LevelMask(n, Levels(n, span), limitLevel) && c.levelOf == Levels(n, span)
      ensures c.dyads == if numAddition > 0 then d.shuffled else AllDyads(n)
      ensures Scored() ==> c.Scored()
    {
      c, complete := Fresh(d);
      c.Adopt(Copyable(), performanceAvg);
    }

    /**
     * The copy, the fresh analyzer and set_outcome of get_clone, on the
     * clone: the original's fields arrive as the snapshot gives them.
     */
    method Adopt(s: Snapshot, avg: real)
      requires Valid() && SnapshotFits(s, n, mOf, mIn)
      modifies this`reality, this`beliefOf, this`performanceOf, this`performanceAvg
      modifies this`network, this`networkFormal, this`networkInformal, this`degree, this`degreeFormal, this`degreeInformal
      modifies this`analyzer, this`averagePathLength, this`networkEfficiency, this`globalClustering,
               this`overallCentralization, this`shortestPathVariance
      ensures fresh(analyzer) && Valid() && Measured() && analyzer.Reports(network)
      ensures Copyable() == s && Retained() == old(Retained())
      ensures s.performanceOf == Scores(s.reality, s.beliefOf, mIn) ==> Scored()
    {
      Take(s, avg);
      SetOutcome();
    }

    /** The copied fields and a fresh analyzer, with the invariant kept. */
    method Take(s: Snapshot, avg: real)
      requires Valid() && SnapshotFits(s, n, mOf, mIn)
      modifies this`reality, this`beliefOf, this`performanceOf, this`performanceAvg
      modifies this`network, this`networkFormal, this`networkInformal, this`degree, this`degreeFormal, this`degreeInformal
      modifies this`analyzer
      ensures fresh(analyzer) && Valid() && Copyable() == s
      ensures s.performanceOf == Scores(s.reality, s.beliefOf, mIn) ==> Scored()
    {
      CopyFrom(s, avg);
      RenewAnalyzer();
    }

    /** The fields get_clone copies; the mask is left as it is. */
    method CopyFrom(s: Snapshot, avg: real)
      modifies this`reality, this`beliefOf, this`performanceOf, this`performanceAvg
      modifies this`network, this`networkFormal, this`networkInformal, this`degree, this`degreeFormal, this`degreeInformal
      ensures Copyable() == s && performanceAvg == avg
    {
      reality, beliefOf, performanceOf, performanceAvg := s.reality, s.beliefOf, s.performanceOf, avg;
      network, networkFormal, networkInformal := s.network, s.formal, s.informal;
      degree, degreeFormal, degreeInformal := s.degree, s.degreeFormal, s.degreeInformal;
    }

    /** Scenario::new with this scenario's constants, initialised with the given draws. */
    method Fresh(d: InitDraws) returns (c: Scenario, complete: bool)
      requires Valid() && InitFits(d, n, mOf, mIn, numAddition, AllDyads(n))
      ensures fresh(c) && c.Valid()
      ensures c.Config() == Config() && c.Mode() == Mode()
      ensures c.isRewiring && !c.isRandomRewiring
      ensures c.networkLimited == LevelMask(n, Levels(n, span), limitLevel) && c.levelOf == Levels(n, span)
      ensures c.dyads == if numAddition > 0 then d.shuffled else AllDyads(n)
    {
      c := new Scenario(Config().p, socialDynamics, span, enforcement, turbulenceRate, turnoverRate);
      complete := c.Initialize(d);
    }

    /** A new, empty analyzer of n agents. */
    method RenewAnalyzer()
      modifies this`analyzer
      ensures fresh(analyzer) && analyzer.n == n
    {
      analyzer := new Analyzer.NetworkAnalyzer(n);
    }

    /** get_clone_with_params: the clone, with the rewiring flags set afterwards. */
    method GetCloneWithParams(d: InitDraws, isRewiring: bool, isRandomRewiring: bool) returns (c: Scenario, complete: bool)
      requires Valid() && InitFits(d, n, mOf, mIn, numAddition, AllDyads(n))
      ensures fresh(c) && c.Valid() && c.Measured() && c.analyzer.Reports(c.network)
      ensures c.Config() == Config() && c.Mode() == Mode()
      ensures c.isRewiring == isRewiring && c.isRandomRewiring == isRandomRewiring && c.Copyable() == Copyable()
    {
      c, complete := GetClone(d);
      c.SetNetworkParams(isRewiring, isRandomRewiring);
    }

    /** set_network_params. */
    method SetNetworkParams(isRewiring: bool, isRandomRewiring: bool)
      modifies this`isRewiring, this`isRandomRewiring
      ensures this.isRewiring == isRewiring && this.isRandomRewiring == isRandomRewiring
      ensures Copyable() == old(Copyable())
      ensures old(Valid() && Measured() && analyzer.Reports(network)) ==> Valid() && Measured() && analyzer.Reports(network)
    {
      this.isRewiring, this.isRandomRewiring := isRewiring, isRandomRewiring;
    }

    // -------------------------------------------------------------
    // Initialisation
    // -------------------------------------------------------------

    /** The tie state written into the seven fields. */
    method Install(t: Ties)
      modifies this`network, this`networkFormal, this`networkInformal, this`networkLimited
      modifies this`degree, this`degreeFormal, this`degreeInformal
      ensures State() == t
    {
      network, networkFormal, networkInformal, networkLimited := t.network, t.formal, t.informal, t.limited;
      degree, degreeFormal, degreeInformal := t.degree, t.degreeFormal, t.degreeInformal;
    }

    /**
     * initialize_network: the hierarchy with its levels, each tie drawn
     * formal or informal, the additional links made along the reshuffled
     * dyad list, the level mask, and a fresh analyzer.  The source repeats
     * its pass over the list until every addition is made, and a pass that
     * falls short repeats without end; here one pass is made and complete
     * says whether it sufficed.
     */
    method InitializeNetwork(enforceDraws: seq<seq<real>>, shuffled: seq<Dyad>, additionDraws: seq<real>)
      returns (complete: bool)
      requires Valid() && DrawGrid(enforceDraws, n) && IsShuffle(shuffled, dyads) && numAddition <= |additionDraws|
      modifies this`network, this`networkFormal, this`networkInformal, this`networkLimited
      modifies this`degree, this`degreeFormal, this`degreeInformal
      modifies this`levelOf, this`levelRange, this`dyads, this`analyzer
      ensures Valid() && fresh(analyzer)
      ensures dyads == if numAddition > 0 then shuffled else old(dyads)
      ensures Initialised(enforceDraws, additionDraws, complete)
    {
      var ds := dyads;
      if numAddition > 0 {
        ShuffleKeepsDyadsOver(shuffled, dyads, n);
        ds := shuffled;
      }
      var t, levels, range, left := InitialNetwork(n, span, linkLevel, limitLevel, cap, ds,
                                                   enforceDraws, additionDraws, enforcement, numAddition);
      InstallNetwork(t, ds, levels, range);
      complete := left == 0;
    }

    /** The fields initialize_network sets, and a fresh analyzer. */
    method InstallNetwork(t: Ties, ds: seq<Dyad>, levels: seq<int>, range: int)
      modifies this`network, this`networkFormal, this`networkInformal, this`networkLimited
      modifies this`degree, this`degreeFormal, this`degreeInformal
      modifies this`levelOf, this`levelRange, this`dyads, this`analyzer
      ensures State() == t && dyads == ds && levelOf == levels && levelRange == range
      ensures fresh(analyzer) && analyzer.n == n
    {
      Install(t);
      dyads, levelOf, levelRange := ds, levels, range;
      analyzer := new Analyzer.NetworkAnalyzer(n);
    }

    /**
     * initialize_entity: reality and every agent's beliefs take the drawn
     * bits.  The source draws them bit by bit; the draws are given here as
     * the matrices they fill.
     */
    method InitializeEntity(drawnReality: Beliefs.Bundles, drawnBeliefs: seq<Beliefs.Bundles>)
      requires Valid() && Beliefs.Shaped(drawnReality, mOf, mIn) && Agents(drawnBeliefs, n, mOf, mIn)
      modifies this`reality, this`beliefOf
      ensures Valid() && reality == drawnReality && beliefOf == drawnBeliefs
    {
      reality, beliefOf := drawnReality, drawnBeliefs;
    }

    /** initialize_outcome: every score cleared and recomputed, then the outcome measured. */
    method InitializeOutcome()
      requires Valid()
      modifies this`performanceOf, this`performanceAvg, this`averagePathLength, this`networkEfficiency,
               this`globalClustering, this`overallCentralization, this`shortestPathVariance, analyzer
      ensures Valid() && Scored() && Measured() && analyzer.Reports(network)
    {
      performanceOf := seq(n, _ => 0);
      SetPerformance();
      SetOutcome();
    }

    /**
     * initialize: the network, the bits, the scores and the outcome.  With
     * the constructor this is Scenario::new; complete is false when the
     * additional links could not all be made, where the source loops for
     * ever.
     */
    method Initialize(d: InitDraws) returns (complete: bool)
      requires Valid() && InitFits(d, n, mOf, mIn, numAddition, dyads)
      modifies this`network, this`networkFormal, this`networkInformal, this`networkLimited
      modifies this`degree, this`degreeFormal, this`degreeInformal
      modifies this`levelOf, this`levelRange, this`dyads, this`analyzer
      modifies this`reality, this`beliefOf, this`performanceOf, this`performanceAvg, this`averagePathLength,
               this`networkEfficiency, this`globalClustering, this`overallCentralization, this`shortestPathVariance
      ensures Valid() && fresh(analyzer) && Scored() && Measured()
      ensures dyads == if numAddition > 0 then d.shuffled else old(dyads)
      ensures Initialised(d.enforce, d.additions, complete) && reality == d.reality && beliefOf == d.beliefs
    {
      complete := InitializeNetwork(d.enforce, d.shuffled, d.additions);
      InitializeAgents(d.reality, d.beliefs);
    }

    /** The rest of initialize: initialize_entity, then initialize_outcome. */
    method InitializeAgents(drawnReality: Beliefs.Bundles, drawnBeliefs: seq<Beliefs.Bundles>)
      requires Valid() && Beliefs.Shaped(drawnReality, mOf, mIn) && Agents(drawnBeliefs, n, mOf, mIn)
      modifies this`reality, this`beliefOf, this`performanceOf, this`performanceAvg, this`averagePathLength,
               this`networkEfficiency, this`globalClustering, this`overallCentralization, this`shortestPathVariance, analyzer
      ensures Valid() && Scored() && Measured() && reality == drawnReality && beliefOf == drawnBeliefs
      ensures State() == old(State())
    {
      InitializeEntity(drawnReality, drawnBeliefs);
      InitializeOutcome();
    }

    // -------------------------------------------------------------
    // Tie updates, as the rewiring routines write them inline
    // -------------------------------------------------------------

    /** An informal tie between f and g: both matrices at both ends, both counters at both ends. */
    method FormTie(f: nat, g: nat)
      requires Valid() && f < n && g < n
      modifies this`network, this`networkInformal, this`degree, this`degreeInformal
      ensures Valid() && State() == Add(old(State()), n, f, g)
    {
      var t := Add(State(), n, f, g);
      network, networkInformal, degree, degreeInformal := t.network, t.informal, t.degree, t.degreeInformal;
    }

    /** The informal tie between f and g removed, both counters lowered at both ends. */
    method CutTie(f: nat, g: nat)
      requires Valid() && f < n && g < n
      modifies this`network, this`networkInformal, this`degree, this`degreeInformal
      ensures Valid() && State() == Cut(old(State()), n, f, g)
    {
      var t := Cut(State(), n, f, g);
      network, networkInformal, degree, degreeInformal := t.network, t.informal, t.degree, t.degreeInformal;
    }

    // -------------------------------------------------------------
    // Rewiring
    // -------------------------------------------------------------

    /**
     * do_tie_formation: num rounds, round k drawing markers[k] and, when
     * its weights sum to 0, reshuffling the list to shuffles[k].  Each round
     * forms the tie its roulette picks.  With exact weights every round
     * forms a tie, so the loop makes exactly num rounds.
     */
    method DoTieFormation(num: nat, markers: seq<real>, shuffles: seq<seq<Dyad>>)
      requires Valid() && Markers(markers) && Shuffles(shuffles, dyads) && num <= |markers| && num <= |shuffles|
      modifies this`network, this`networkInformal, this`degree, this`degreeInformal, this`dyads
      ensures Valid()
      ensures State() == Formations(Mode(), old(State()), n, cap, old(dyads), markers, shuffles, num).ties
      ensures dyads == Formations(Mode(), old(State()), n, cap, old(dyads), markers, shuffles, num).dyads
    {
      ghost var t0, ds0 := State(), dyads;
      ghost var o := Formations(Mode(), t0, n, cap, ds0, markers, shuffles, 0);
      for k := 0 to num
        invariant Valid() && o == Formations(Mode(), t0, n, cap, ds0, markers, shuffles, k)
        invariant State() == o.ties && dyads == o.dyads
      {
        FormationsStep(Mode(), t0, n, cap, ds0, markers, shuffles, k);
        FormationStep(markers[k], shuffles[k]);
        o := Formations(Mode(), t0, n, cap, ds0, markers, shuffles, k + 1);
      }
    }

    /**
     * do_tie_break: num rounds, round k drawing markers[k] and, when its
     * inverted weights sum to 0, reshuffling the list to shuffles[k].  Each
     * round cuts the tie its roulette picks.
     */
    method DoTieBreak(num: nat, markers: seq<real>, shuffles: seq<seq<Dyad>>)
      requires Valid() && Markers(markers) && Shuffles(shuffles, dyads) && num <= |markers| && num <= |shuffles|
      modifies this`network, this`networkInformal, this`degree, this`degreeInformal, this`dyads
      ensures Valid()
      ensures State() == Breaks(Mode(), old(State()), n, old(dyads), markers, shuffles, num).ties
      ensures dyads == Breaks(Mode(), old(State()), n, old(dyads), markers, shuffles, num).dyads
    {
      ghost var t0, ds0 := State(), dyads;
      ghost var o := Breaks(Mode(), t0, n, ds0, markers, shuffles, 0);
      for k := 0 to num
        invariant Valid() && o == Breaks(Mode(), t0, n, ds0, markers, shuffles, k)
        invariant State() == o.ties && dyads == o.dyads
      {
        BreaksStep(Mode(), t0, n, ds0, markers, shuffles, k);
        BreakStep(markers[k], shuffles[k]);
        o := Breaks(Mode(), t0, n, ds0, markers, shuffles, k + 1);
      }
    }

    /** One round of do_tie_formation: the roulette's pick, or on a zero sum the reshuffled list's first dyad, tied. */
    method FormationStep(marker: real, shuffled: seq<Dyad>)
      requires Valid() && 0.0 <= marker < 1.0 && IsShuffle(shuffled, dyads)
      modifies this`network, this`networkInformal, this`degree, this`degreeInformal, this`dyads
      ensures Valid()
      ensures State() == FormationRound(Mode(), old(State()), n, cap, old(dyads), marker, shuffled).ties
      ensures dyads == FormationRound(Mode(), old(State()), n, cap, old(dyads), marker, shuffled).dyads
    {
      var chosen, after := FormationChoice(Mode(), State(), n, cap, dyads, marker, shuffled);
      dyads := after;
      FormTie(chosen.0, chosen.1);
    }

    /** One round of do_tie_break: the roulette's pick, or on a zero sum the reshuffled list's first dyad, cut. */
    method BreakStep(marker: real, shuffled: seq<Dyad>)
      requires Valid() && 0.0 <= marker < 1.0 && IsShuffle(shuffled, dyads)
      modifies this`network, this`networkInformal, this`degree, this`degreeInformal, this`dyads
      ensures Valid()
      ensures State() == BreakRound(Mode(), old(State()), n, old(dyads), marker, shuffled).ties
      ensures dyads == BreakRound(Mode(), old(State()), n, old(dyads), marker, shuffled).dyads
    {
      var chosen, after := BreakChoice(Mode(), State(), n, dyads, marker, shuffled);
      dyads := after;
      CutTie(chosen.0, chosen.1);
    }

    /**
     * The inner loop of do_random_rewiring over the list as just shuffled:
     * an informal tie is cut while cuts are owed, otherwise a tie is formed
     * at an open dyad while formations are owed, and the pass stops as soon
     * as both quotas are met.
     */
    method RandomPass(nf: nat, nb: nat) returns (formLeft: nat, breakLeft: nat)
      requires Valid()
      modifies this`network, this`networkInformal, this`degree, this`degreeInformal
      ensures Valid()
      ensures State() == PassFrom(old(State()), n, cap, dyads, 0, nf, nb).ties
      ensures formLeft == PassFrom(old(State()), n, cap, dyads, 0, nf, nb).formLeft
      ensures breakLeft == PassFrom(old(State()), n, cap, dyads, 0, nf, nb).breakLeft
    {
      ghost var goal := PassFrom(State(), n, cap, dyads, 0, nf, nb);
      formLeft, breakLeft := nf, nb;
      for p := 0 to |dyads|
        invariant Valid()
        invariant PassFrom(State(), n, cap, dyads, p, formLeft, breakLeft) == goal
      {
        formLeft, breakLeft := VisitAt(goal, p, formLeft, breakLeft);
        if formLeft == 0 && breakLeft == 0 {
          return;
        }
      }
    }

    /** The visit of the p-th dyad, keeping the rest of the pass equal to the pass as a whole. */
    method VisitAt(ghost goal: Pass, p: nat, nf: nat, nb: nat) returns (formLeft: nat, breakLeft: nat)
      requires Valid() && p < |dyads| && PassFrom(State(), n, cap, dyads, p, nf, nb) == goal
      modifies this`network, this`networkInformal, this`degree, this`degreeInformal
      ensures Valid()
      ensures formLeft == 0 && breakLeft == 0 ==> State() == goal.ties && goal.formLeft == 0 && goal.breakLeft == 0
      ensures !(formLeft == 0 && breakLeft == 0) ==> PassFrom(State(), n, cap, dyads, p + 1, formLeft, breakLeft) == goal
    {
      formLeft, breakLeft := VisitDyad(dyads[p], nf, nb);
    }

    /** The body of that loop for one dyad: cut it if informal and cuts are owed, else form it if open and formations are owed. */
    method VisitDyad(d: Dyad, nf: nat, nb: nat) returns (formLeft: nat, breakLeft: nat)
      requires Valid() && d.0 < n && d.1 < n
      modifies this`network, this`networkInformal, this`degree, this`degreeInformal
      ensures Valid()
      ensures State() == Visit(old(State()), n, cap, d, nf, nb).ties
      ensures formLeft == Visit(old(State()), n, cap, d, nf, nb).formLeft
      ensures breakLeft == Visit(old(State()), n, cap, d, nf, nb).breakLeft
    {
      var (f, g) := d;
      formLeft, breakLeft := nf, nb;
      if networkInformal[f][g] && nb > 0 {
        CutTie(f, g);
        breakLeft := nb - 1;
      } else if nf > 0 && !network[f][g] && f != g
                && (degreeInformal[f] < cap || degreeInformal[g] < cap) && !networkLimited[f][g] {
        FormTie(f, g);
        formLeft := nf - 1;
      }
    }

    /**
     * do_random_rewiring: pass after pass, each over a fresh shuffle of the
     * list, until both quotas are met.  The source repeats for ever when
     * they cannot be; here the passes are bounded by the shuffles given, and
     * complete says whether the quotas were met.
     */
    method DoRandomRewiring(nf: nat, nb: nat, shuffles: seq<seq<Dyad>>) returns (complete: bool)
      requires Valid() && Shuffles(shuffles, dyads) && |shuffles| > 0
      modifies this`network, this`networkInformal, this`degree, this`degreeInformal, this`dyads
      ensures Valid()
      ensures State() == PassesFrom(old(State()), n, cap, old(dyads), shuffles, 0, nf, nb).last.ties
      ensures dyads == PassesFrom(old(State()), n, cap, old(dyads), shuffles, 0, nf, nb).dyads
      ensures complete <==> PassesFrom(old(State()), n, cap, old(dyads), shuffles, 0, nf, nb).last == Pass(State(), 0, 0)
    {
      ghost var ds0 := dyads;
      ghost var goal := PassesFrom(State(), n, cap, dyads, shuffles, 0, nf, nb);
      var formLeft, breakLeft := nf, nb;
      var k := 0;
      complete := false;
      while !complete && k < |shuffles|
        invariant Valid() && k <= |shuffles| && Shuffles(shuffles, ds0) && DyadsOver(ds0, n) && IsShuffle(ds0, AllDyads(n))
        invariant !complete && k < |shuffles| ==> PassesFrom(State(), n, cap, ds0, shuffles, k, formLeft, breakLeft) == goal
        invariant complete || k == |shuffles| ==> goal == Rewired(Pass(State(), formLeft, breakLeft), dyads, k)
        invariant complete <==> k > 0 && formLeft == 0 && breakLeft == 0
        decreases |shuffles| - k
      {
        formLeft, breakLeft := ShuffledPass(ds0, shuffles, k, formLeft, breakLeft);
        k := k + 1;
        complete := formLeft == 0 && breakLeft == 0;
      }
    }

    /** One pass of do_random_rewiring: the list takes the k-th shuffle, then is walked once. */
    method ShuffledPass(ghost ds0: seq<Dyad>, shuffles: seq<seq<Dyad>>, k: nat, nf: nat, nb: nat) returns (formLeft: nat, breakLeft: nat)
      requires Valid() && DyadsOver(ds0, n) && IsShuffle(ds0, AllDyads(n)) && Shuffles(shuffles, ds0) && k < |shuffles|
      modifies this`network, this`networkInformal, this`degree, this`degreeInformal, this`dyads
      ensures Valid() && dyads == shuffles[k]
      ensures (formLeft == 0 && breakLeft == 0) || k + 1 == |shuffles| ==>
                PassesFrom(old(State()), n, cap, ds0, shuffles, k, nf, nb) == Rewired(Pass(State(), formLeft, breakLeft), dyads, k + 1)
      ensures !((formLeft == 0 && breakLeft == 0) || k + 1 == |shuffles|) ==>
                PassesFrom(old(State()), n, cap, ds0, shuffles, k, nf, nb) == PassesFrom(State(), n, cap, ds0, shuffles, k + 1, formLeft, breakLeft)
    {
      ghost var t := State();
      ShuffleKeepsDyadsOver(shuffles[k], ds0, n);
      dyads := shuffles[k];
      formLeft, breakLeft := RandomPass(nf, nb);
      PassesStep(t, n, cap, ds0, shuffles, k, nf, nb, Pass(State(), formLeft, breakLeft));
    }

    /**
     * do_rewiring: random passes when random rewiring is set, otherwise
     * nf directed formations and then nb directed breaks.
     */
    method DoRewiring(nf: nat, nb: nat, d: StepDraws) returns (complete: bool)
      requires Valid() && RewireFits(d, dyads, nf, nb)
      modifies this`network, this`networkInformal, this`degree, this`degreeInformal, this`dyads
      ensures Valid()
      ensures State() == AfterRewiring(Mode(), isRandomRewiring, old(State()), n, cap, old(dyads), nf, nb, d).ties
      ensures dyads == AfterRewiring(Mode(), isRandomRewiring, old(State()), n, cap, old(dyads), nf, nb, d).dyads
      ensures complete == AfterRewiring(Mode(), isRandomRewiring, old(State()), n, cap, old(dyads), nf, nb, d).complete
    {
      ghost var t0, ds0 := State(), dyads;
      ghost var r := AfterRewiring(Mode(), isRandomRewiring, t0, n, cap, ds0, nf, nb, d);
      if isRandomRewiring {
        complete := DoRandomRewiring(nf, nb, d.passShuffles);
        assert isRandomRewiring;
        ghost var o := PassesFrom(t0, n, cap, ds0, d.passShuffles, 0, nf, nb);
        assert r == Rewire(o.last.ties, o.dyads, 0, o.last.formLeft == 0 && o.last.breakLeft == 0);
      } else {
        DoTieFormation(nf, d.formMarkers, d.formShuffles);
        ghost var f := Formations(Mode(), t0, n, cap, ds0, d.formMarkers, d.formShuffles, nf);
        ShufflesOfReordering(d.breakShuffles, ds0, dyads);
        assert !isRandomRewiring;
        DoTieBreak(nb, d.breakMarkers, d.breakShuffles);
        assert !isRandomRewiring;
        ghost var b := Breaks(Mode(), f.ties, n, f.dyads, d.breakMarkers, d.breakShuffles, nb);
        assert r == Rewire(b.ties, b.dyads, f.fallbacks + b.fallbacks, true);
        complete := true;
      }
    }

    /**
     * The beliefs are those p learns over the current network and dyad
     * list, with the drawn agents replaced by their newcomers, and the
     * average score is that of the learned beliefs, before the turnover.
     */
    ghost predicate LearnedFrom(p: Population, d: StepDraws)
      reads this`dyads, this`reality, this`beliefOf, this`performanceAvg
    {
      Sane() && Fits(p, n, mOf, mIn) && DyadsOver(dyads, n) && Draws(d.learning, n, mOf, mIn) && Beliefs.Shaped(reality, mOf, mIn)
      && |d.turnover| == n && Agents(d.newcomers, n, mOf, mIn)
      && performanceAvg == MeanPerformance(Scores(reality, Learned(p, n, mOf, mIn, dyads, d.learning, pLearning), mIn), n, mOf, mIn)
      && beliefOf == Replaced(Learned(p, n, mOf, mIn, dyads, d.learning, pLearning), d.turnover, d.newcomers, turnoverRate)
    }

    /**
     * step_forward: the rewiring, then learning from the rewired network
     * and the scores and beliefs before the step, then the outcome measured,
     * then the turnover when its rate is positive.
     */
    method StepForward(d: StepDraws) returns (complete: bool)
      requires Valid() && RewireFits(d, dyads, rewiringNum, rewiringNum)
      requires Draws(d.learning, n, mOf, mIn) && |d.turnover| == n && Unit(d.turnover) && Agents(d.newcomers, n, mOf, mIn)
      modifies this`network, this`networkInformal, this`degree, this`degreeInformal, this`dyads
      modifies this`beliefOf, this`performanceOf, this`performanceAvg, this`averagePathLength, this`networkEfficiency,
               this`globalClustering, this`overallCentralization, this`shortestPathVariance, analyzer
      ensures Valid() && Scored() && Copied() && analyzer.Reports(network)
      ensures var r := StepRewiring(Mode(), isRewiring, isRandomRewiring, old(State()), n, cap, old(dyads), rewiringNum, d);
              State() == r.ties && dyads == r.dyads && complete == r.complete
      ensures LearnedFrom(Population(network, old(performanceOf), old(beliefOf)), d)
    {
      complete := RewiringStep(d);
      LearningStep(d);
    }

    /** The rewiring of step_forward. */
    method RewiringStep(d: StepDraws) returns (complete: bool)
      requires Valid() && RewireFits(d, dyads, rewiringNum, rewiringNum)
      modifies this`network, this`networkInformal, this`degree, this`degreeInformal, this`dyads
      ensures Valid()
      ensures var r := StepRewiring(Mode(), isRewiring, isRandomRewiring, old(State()), n, cap, old(dyads), rewiringNum, d);
              State() == r.ties && dyads == r.dyads && complete == r.complete
    {
      complete := true;
      if isRewiring {
        complete := DoRewiring(rewiringNum, rewiringNum, d);
      }
    }

    /** The rest of step_forward: do_learning, set_outcome, then do_turnover when its rate is positive. */
    method LearningStep(d: StepDraws)
      requires Valid() && Draws(d.learning, n, mOf, mIn) && |d.turnover| == n && Unit(d.turnover) && Agents(d.newcomers, n, mOf, mIn)
      modifies this`beliefOf, this`performanceOf, this`performanceAvg, this`averagePathLength, this`networkEfficiency,
               this`globalClustering, this`overallCentralization, this`shortestPathVariance, analyzer
      ensures Valid() && Scored() && Copied() && analyzer.Reports(network)
      ensures State() == old(State()) && dyads == old(dyads)
      ensures LearnedFrom(Population(network, old(performanceOf), old(beliefOf)), d)
    {
      DoLearning(d.learning);
      SetOutcome();
      TurnoverStep(d.turnover, d.newcomers);
    }

    /** The end of step_forward: do_turnover when its rate is positive; with any other rate nobody is replaced. */
    method TurnoverStep(draws: seq<real>, newcomers: seq<Beliefs.Bundles>)
      requires Valid() && |draws| == n && Unit(draws) && Agents(newcomers, n, mOf, mIn)
      modifies this`beliefOf, this`performanceOf
      ensures Valid() && (old(Scored()) ==> Scored())
      ensures beliefOf == Replaced(old(beliefOf), draws, newcomers, turnoverRate)
    {
      if turnoverRate > 0.0 {
        DoTurnover(draws, newcomers);
      } else {
        TurnoverExtremes(beliefOf, draws, newcomers, turnoverRate);
      }
    }

    // -------------------------------------------------------------
    // Learning
    // -------------------------------------------------------------

    /**
     * do_learning: the counts of every agent from the network, scores and
     * beliefs before the step, then each agent's bits updated from its own
     * counts and draws, and its score brought up to date.  Every agent learns
     * from the beliefs before the step, so the update is synchronous.
     */
    method DoLearning(draws: seq<Coins>)
      requires Valid() && Draws(draws, n, mOf, mIn)
      modifies this`beliefOf, this`performanceOf
      ensures Valid() && Scored()
      ensures beliefOf == Learned(old(Pop()), n, mOf, mIn, dyads, draws, pLearning)
    {
      ghost var p0 := Pop();
      var counts := MajorityCounts(Pop(), n, mOf, mIn, dyads);
      for focal := 0 to n
        invariant Valid() && network == p0.network && |beliefOf| == n
        invariant forall a :: 0 <= a < focal ==>
                    beliefOf[a] == Learned(p0, n, mOf, mIn, dyads, draws, pLearning)[a]
                    && performanceOf[a] == Beliefs.Performance(reality, beliefOf[a], mIn)
        invariant forall a :: focal <= a < n ==> beliefOf[a] == p0.belief[a]
      {
        var learned := LearnAgent(beliefOf[focal], counts[focal], draws[focal], pLearning, mOf, mIn);
        beliefOf := beliefOf[focal := learned];
        SetPerformanceOf(focal);
      }
    }

    // -------------------------------------------------------------
    // Turnover and turbulence
    // -------------------------------------------------------------

    /**
     * do_turnover: each agent whose draw falls under the turnover rate takes
     * its newcomer's beliefs and is rescored; nobody else changes.
     */
    method DoTurnover(draws: seq<real>, newcomers: seq<Beliefs.Bundles>)
      requires Valid() && |draws| == n && Agents(newcomers, n, mOf, mIn)
      modifies this`beliefOf, this`performanceOf
      ensures Valid()
      ensures old(Scored()) ==> Scored()
      ensures beliefOf == Replaced(old(beliefOf), draws, newcomers, turnoverRate)
      ensures forall a :: 0 <= a < n ==>
                performanceOf[a] == if draws[a] < turnoverRate then Beliefs.Performance(reality, newcomers[a], mIn)
                                    else old(performanceOf[a])
    {
      ghost var b0 := beliefOf;
      for focal := 0 to n
        invariant Valid() && |beliefOf| == n
        invariant forall a :: 0 <= a < n ==>
                    beliefOf[a] == if a < focal && draws[a] < turnoverRate then newcomers[a] else b0[a]
        invariant forall a :: 0 <= a < n ==>
                    performanceOf[a] == if a < focal && draws[a] < turnoverRate then Beliefs.Performance(reality, newcomers[a], mIn)
                                        else old(performanceOf[a])
      {
        if draws[focal] < turnoverRate {
          beliefOf := beliefOf[focal := newcomers[focal]];
          SetPerformanceOf(focal);
        }
      }
      if old(Scored()) {
        assert performanceOf == Scores(reality, beliefOf, mIn);
      }
    }

    /** do_turbulence: each bit of reality flips when its draw falls under the turbulence rate; then every agent is rescored. */
    method DoTurbulence(flips: Coins)
      requires Valid() && Grid(flips, mOf, mIn)
      modifies this`reality, this`performanceOf
      ensures Valid() && Scored()
      ensures reality == Turbulent(old(reality), flips, turbulenceRate, mOf, mIn)
    {
      ghost var r0 := reality;
      for b := 0 to mOf
        invariant Valid()
        invariant forall x, y :: 0 <= x < mOf && 0 <= y < mIn ==>
                    reality[x][y] == (r0[x][y] != (x < b && flips[x][y] < turbulenceRate))
      {
        for e := 0 to mIn
          invariant Valid()
          invariant forall x, y :: 0 <= x < mOf && 0 <= y < mIn ==>
                      reality[x][y] == (r0[x][y] != ((x < b || (x == b && y < e)) && flips[x][y] < turbulenceRate))
        {
          if flips[b][e] < turbulenceRate {
            reality := reality[b := reality[b][e := !reality[b][e]]];
          }
        }
      }
      SameGrid(reality, Turbulent(r0, flips, turbulenceRate, mOf, mIn), mOf, mIn);
      SetPerformance();
    }

    // -------------------------------------------------------------
    // Performance
    // -------------------------------------------------------------

    /** get_performance_of as written; see ScoreAsWritten. */
    method GetPerformanceOfAsWritten(focal: nat) returns (p: nat)
      requires Valid() && focal < n
      ensures p == Beliefs.PerformanceAsWritten(reality, beliefOf[focal], mIn)
    {
      p := ScoreAsWritten(reality, beliefOf[focal], mOf, mIn);
    }

    /** get_performance_of as the design means it; see Score. */
    method GetPerformanceOf(focal: nat) returns (p: nat)
      requires Valid() && focal < n
      ensures p == Beliefs.Performance(reality, beliefOf[focal], mIn)
    {
      p := Score(reality, beliefOf[focal], mOf, mIn);
    }

    /** set_performance_of: the agent's score is brought up to date, nobody else's changes. */
    method SetPerformanceOf(focal: nat)
      requires Valid() && focal < n
      modifies this`performanceOf
      ensures Valid()
      ensures performanceOf == old(performanceOf)[focal := Beliefs.Performance(reality, beliefOf[focal], mIn)]
    {
      var p := GetPerformanceOf(focal);
      performanceOf := performanceOf[focal := p];
    }

    /** set_performance: every agent's score brought up to date. */
    method SetPerformance()
      requires Valid()
      modifies this`performanceOf
      ensures Valid() && Scored()
    {
      for focal := 0 to n
        invariant Valid()
        invariant forall a :: 0 <= a < focal ==> performanceOf[a] == Beliefs.Performance(reality, beliefOf[a], mIn)
      {
        SetPerformanceOf(focal);
      }
    }

    /**
     * set_outcome: the analyzer's metrics of the current network, and the
     * average score over M_N.
     */
    method SetOutcome()
      requires Valid()
      modifies this`performanceAvg, this`averagePathLength, this`networkEfficiency, this`globalClustering,
               this`overallCentralization, this`shortestPathVariance, analyzer
      ensures Valid() && Measured() && analyzer.Reports(network)
      ensures Copyable() == old(Copyable()) && Retained() == old(Retained())
    {
      var avg := AveragePerformance();
      Analyze();
      Record(avg);
    }

    /** The outcome fields written from the analyzer and the average score. */
    method Record(avg: real)
      requires Valid() && analyzer.Reports(network) && avg == MeanPerformance(performanceOf, n, mOf, mIn)
      modifies this`performanceAvg, this`averagePathLength, this`networkEfficiency, this`globalClustering,
               this`overallCentralization, this`shortestPathVariance
      ensures Valid() && Measured() && analyzer.Reports(network)
      ensures Copyable() == old(Copyable()) && Retained() == old(Retained())
    {
      CopyMetrics();
      performanceAvg := avg;
    }

    /** The analyzer's part of set_outcome: the metrics of the current network. */
    method Analyze()
      requires Sane() && analyzer.n == n && IsSquare(network, n)
      modifies analyzer
      ensures analyzer.Reports(network)
      ensures Copyable() == old(Copyable()) && Retained() == old(Retained())
    {
      analyzer.SetNetworkMetrics(network);
    }

    /** The analyzer's outputs read into the scenario's fields. */
    method CopyMetrics()
      modifies this`averagePathLength, this`networkEfficiency, this`globalClustering,
               this`overallCentralization, this`shortestPathVariance
      ensures averagePathLength == analyzer.averagePathLength && networkEfficiency == analyzer.networkEfficiency
      ensures globalClustering == analyzer.globalClustering && overallCentralization == analyzer.centralizationCloseness
      ensures shortestPathVariance == analyzer.shortestPathVariance
    {
      averagePathLength := analyzer.averagePathLength;
      networkEfficiency := analyzer.networkEfficiency;
      globalClustering := analyzer.globalClustering;
      overallCentralization := analyzer.centralizationCloseness;
      shortestPathVariance := analyzer.shortestPathVariance;
    }

    /** The loop of set_outcome: the scores summed agent by agent, then divided by M_N. */
    method AveragePerformance() returns (avg: real)
      requires Valid()
      ensures avg == MeanPerformance(performanceOf, n, mOf, mIn)
    {
      avg := 0.0;
      for focal := 0 to n
        invariant avg == PerformanceTotal(performanceOf[..focal]) as real
      {
        avg := avg + performanceOf[focal] as real;
        assert performanceOf[..focal + 1][..focal] == performanceOf[..focal];
      }
      assert performanceOf[..n] == performanceOf;
      BitsPositive(mOf, mIn, n);
      avg := avg / (Beliefs.Bits(mOf, mIn) * n) as real;
    }
  }
}
