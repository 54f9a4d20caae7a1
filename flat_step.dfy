// The step functions of the older flat-belief scenario (test2).  step_forward
// learns, averages the scores and turns agents over; the two rewiring steps
// first rewire (directed or random) when post-rewiring and rewiring are both
// on.  Turbulence flips reality and leaves the scores as they were.

module FlatStep {
  import opened Graphs
  import opened Networks
  import opened Rewiring
  import opened FlatBeliefs
  import opened FlatLearning
  import opened FlatRewiring
  import Simulation

  /** The scenario's state: ties, dyad list, reality, beliefs and scores. */
  datatype FlatState = FlatState(ties: Ties, dyads: seq<Dyad>, reality: Bits, belief: seq<Bits>, performance: seq<nat>)

  /** The shape a state keeps from one step to the next. */
  predicate Fitted(s: FlatState, n: nat, mOf: nat, mIn: nat)
  {
    Shaped(s.ties, n) && DyadsOver(s.dyads, n) && |s.dyads| > 0
    && |s.reality| == mOf * mIn && |s.belief| == n && |s.performance| == n
    && forall a :: 0 <= a < n ==> |s.belief[a]| == mOf * mIn
  }

  /** The random inputs of one step. */
  datatype FlatDraws = FlatDraws(rewiring: RewiringDraws, learning: seq<seq<real>>, turnover: seq<real>, newcomers: seq<Bits>)

  predicate FlatDrawsFit(d: FlatDraws, n: nat, m: nat)
  {
    CoinGrid(d.learning, n, m) && |d.turnover| == n && |d.newcomers| == n
    && forall a :: 0 <= a < n ==> |d.newcomers[a]| == m
  }

  /** The population do_learning reads. */
  function CrowdOf(s: FlatState): Crowd
  {
    Crowd(s.ties.network, s.performance, s.belief)
  }

  /**
   * The mean score lies in [0, 1], and it is 1 exactly when every agent's
   * beliefs are reality.
   */
  lemma FlatMeanRange(reality: Bits, belief: seq<Bits>, n: nat, mOf: nat, mIn: nat)
    requires mOf >= 1 && mIn >= 1 && n >= 1 && |reality| == mOf * mIn && |belief| == n
    requires forall a :: 0 <= a < n ==> |belief[a]| == mOf * mIn
    ensures 0.0 <= Simulation.MeanPerformance(Scores(reality, belief, mOf, mIn), n, mOf, mIn) <= 1.0
    ensures Simulation.MeanPerformance(Scores(reality, belief, mOf, mIn), n, mOf, mIn) == 1.0
            <==> forall a :: 0 <= a < n ==> belief[a] == reality
  {
    var s, m := Scores(reality, belief, mOf, mIn), mOf * mIn;
    forall a | 0 <= a < n ensures s[a] <= m && (s[a] == m <==> belief[a] == reality) {
      ScoreRange(reality, belief[a], mOf, mIn);
    }
    Simulation.TotalBound(s, m);
    assert |s| * m == m * n;
    Arith.RatioAtMostOne(Simulation.PerformanceTotal(s), m * n);
  }

  /**
   * step_forward: learning, then the average score over M * N, then
   * turnover when its rate is positive.  Ties and reality are untouched, and
   * every score afterwards matches its agent's beliefs.
   */
  method StepForward(s: FlatState, n: nat, mOf: nat, mIn: nat, pLearning: real, turnoverRate: real, d: FlatDraws)
    returns (next: FlatState, avg: real)
    requires Fitted(s, n, mOf, mIn) && FlatDrawsFit(d, n, mOf * mIn) && n >= 1 && mOf >= 1 && mIn >= 1
    ensures Fitted(next, n, mOf, mIn)
    ensures next.ties == s.ties && next.dyads == s.dyads && next.reality == s.reality
    ensures next.belief == (if turnoverRate > 0.0
                            then FlatReplaced(FlatLearned(CrowdOf(s), n, mOf * mIn, d.learning, pLearning), d.turnover, d.newcomers, turnoverRate)
                            else FlatLearned(CrowdOf(s), n, mOf * mIn, d.learning, pLearning))
    ensures next.performance == Scores(s.reality, next.belief, mOf, mIn)
    ensures avg == Simulation.MeanPerformance(Scores(s.reality, FlatLearned(CrowdOf(s), n, mOf * mIn, d.learning, pLearning), mOf, mIn), n, mOf, mIn)
  {
    var belief, performance := DoLearning(CrowdOf(s), n, mOf, mIn, s.reality, d.learning, pLearning);
    Simulation.BitsPositive(mOf, mIn, n);
    avg := Simulation.PerformanceTotal(performance) as real / (mOf * mIn * n) as real;
    if turnoverRate > 0.0 {
      belief, performance := DoTurnover(s.reality, belief, performance, mOf, mIn, d.turnover, d.newcomers, turnoverRate);
    }
    next := FlatState(s.ties, s.dyads, s.reality, belief, performance);
  }

  /** The ties and dyad list a rewiring step leaves: rewired when post-rewiring and rewiring are on, as they were otherwise. */
  function Rewired(mode: Dynamics, postRewiring: bool, rewiring: bool, random: bool, s: FlatState, n: nat, cap: nat,
                   nf: nat, nb: nat, d: RewiringDraws): (r: Simulation.Rewire)
    requires Shaped(s.ties, n) && DyadsOver(s.dyads, n) && |s.dyads| > 0 && DrawsFit(d, s.dyads, nf, nb)
    ensures Shaped(r.ties, n) && DyadsOver(r.dyads, n) && |r.dyads| > 0
    ensures r.ties.formal == s.ties.formal && r.ties.limited == s.ties.limited
    ensures !(postRewiring && rewiring) ==> r.ties == s.ties && r.dyads == s.dyads && r.fallbacks == 0
  {
    if postRewiring && rewiring then FlatAfterRewiring(mode, random, s.ties, n, cap, s.dyads, nf, nb, d)
    else Simulation.Rewire(s.ties, s.dyads, 0, true)
  }

  /** A rewiring step keeps the tie invariant unless a directed round fell back; random passes never do. */
  lemma RewiredKeepsConsistent(mode: Dynamics, postRewiring: bool, rewiring: bool, random: bool, s: FlatState, n: nat, cap: nat,
                               nf: nat, nb: nat, d: RewiringDraws)
    requires Consistent(s.ties, n) && DyadsOver(s.dyads, n) && |s.dyads| > 0 && DrawsFit(d, s.dyads, nf, nb)
    ensures random ==> Rewired(mode, postRewiring, rewiring, random, s, n, cap, nf, nb, d).fallbacks == 0
    ensures Rewired(mode, postRewiring, rewiring, random, s, n, cap, nf, nb, d).fallbacks == 0 ==>
              Consistent(Rewired(mode, postRewiring, rewiring, random, s, n, cap, nf, nb, d).ties, n)
  {
    FlatRewiringKeepsConsistent(mode, random, s.ties, n, cap, s.dyads, nf, nb, d);
  }

  /**
   * step_forward_num_formation_break: with post-rewiring and rewiring on,
   * nf formations and nb breaks (directed: breaks first) or random passes;
   * then step_forward on the rewired network.
   */
  method StepForwardNumFormationBreak(mode: Dynamics, postRewiring: bool, rewiring: bool, random: bool, s: FlatState,
                                      n: nat, mOf: nat, mIn: nat, cap: nat, nf: nat, nb: nat,
                                      pLearning: real, turnoverRate: real, d: FlatDraws)
    returns (next: FlatState, avg: real)
    requires Fitted(s, n, mOf, mIn) && FlatDrawsFit(d, n, mOf * mIn) && DrawsFit(d.rewiring, s.dyads, nf, nb)
    requires n >= 1 && mOf >= 1 && mIn >= 1
    ensures Fitted(next, n, mOf, mIn)
    ensures next.ties == Rewired(mode, postRewiring, rewiring, random, s, n, cap, nf, nb, d.rewiring).ties
    ensures next.dyads == Rewired(mode, postRewiring, rewiring, random, s, n, cap, nf, nb, d.rewiring).dyads
    ensures next.reality == s.reality
    ensures next.belief == (if turnoverRate > 0.0
                            then FlatReplaced(FlatLearned(Crowd(next.ties.network, s.performance, s.belief), n, mOf * mIn, d.learning, pLearning),
                                              d.turnover, d.newcomers, turnoverRate)
                            else FlatLearned(Crowd(next.ties.network, s.performance, s.belief), n, mOf * mIn, d.learning, pLearning))
    ensures next.performance == Scores(s.reality, next.belief, mOf, mIn)
    ensures avg == Simulation.MeanPerformance(
                     Scores(s.reality, FlatLearned(Crowd(next.ties.network, s.performance, s.belief), n, mOf * mIn, d.learning, pLearning), mOf, mIn),
                     n, mOf, mIn)
  {
    var ties, dyads := s.ties, s.dyads;
    if postRewiring && rewiring {
      var complete;
      ties, dyads, complete := FlatDoRewiring(mode, random, s.ties, n, cap, s.dyads, nf, nb, d.rewiring);
    }
    next, avg := StepForward(FlatState(ties, dyads, s.reality, s.belief, s.performance), n, mOf, mIn, pLearning, turnoverRate, d);
  }

  /** step_forward_tie_turnover: the same number of formations and breaks. */
  method StepForwardTieTurnover(mode: Dynamics, postRewiring: bool, rewiring: bool, random: bool, s: FlatState,
                                n: nat, mOf: nat, mIn: nat, cap: nat, tieTurnover: nat,
                                pLearning: real, turnoverRate: real, d: FlatDraws)
    returns (next: FlatState, avg: real)
    requires Fitted(s, n, mOf, mIn) && FlatDrawsFit(d, n, mOf * mIn) && DrawsFit(d.rewiring, s.dyads, tieTurnover, tieTurnover)
    requires n >= 1 && mOf >= 1 && mIn >= 1
    ensures Fitted(next, n, mOf, mIn)
    ensures next.ties == Rewired(mode, postRewiring, rewiring, random, s, n, cap, tieTurnover, tieTurnover, d.rewiring).ties
    ensures next.dyads == Rewired(mode, postRewiring, rewiring, random, s, n, cap, tieTurnover, tieTurnover, d.rewiring).dyads
    ensures next.reality == s.reality
    ensures next.belief == (if turnoverRate > 0.0
                            then FlatReplaced(FlatLearned(Crowd(next.ties.network, s.performance, s.belief), n, mOf * mIn, d.learning, pLearning),
                                              d.turnover, d.newcomers, turnoverRate)
                            else FlatLearned(Crowd(next.ties.network, s.performance, s.belief), n, mOf * mIn, d.learning, pLearning))
    ensures next.performance == Scores(s.reality, next.belief, mOf, mIn)
    ensures avg == Simulation.MeanPerformance(
                     Scores(s.reality, FlatLearned(Crowd(next.ties.network, s.performance, s.belief), n, mOf * mIn, d.learning, pLearning), mOf, mIn),
                     n, mOf, mIn)
    ensures Consistent(s.ties, n) && Rewired(mode, postRewiring, rewiring, random, s, n, cap, tieTurnover, tieTurnover, d.rewiring).fallbacks == 0
            ==> Consistent(next.ties, n)
  {
    next, avg := StepForwardNumFormationBreak(mode, postRewiring, rewiring, random, s, n, mOf, mIn, cap, tieTurnover, tieTurnover,
                                              pLearning, turnoverRate, d);
    if Consistent(s.ties, n) {
      RewiredKeepsConsistent(mode, postRewiring, rewiring, random, s, n, cap, tieTurnover, tieTurnover, d.rewiring);
    }
  }

  /** do_turbulence on the state: reality flips where drawn; the scores are not recomputed and go stale. */
  method Turbulence(s: FlatState, draws: seq<real>, rate: real) returns (next: FlatState)
    requires |draws| == |s.reality|
    ensures next == s.(reality := Turbulent(s.reality, draws, rate))
  {
    var reality := DoTurbulence(s.reality, draws, rate);
    next := s.(reality := reality);
  }
}
