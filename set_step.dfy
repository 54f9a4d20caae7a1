// One step of the HashSet variant's scenario: rewiring (random or directed,
// when rewiring is on), learning, the average score, and turnover when its
// rate is positive.  The network metrics of set_outcome come from the set
// analyzer (module SetAnalysis) and are not recomputed here.

module SetStep {
  import opened Graphs
  import opened Networks
  import opened Rewiring
  import opened Learning
  import Beliefs
  import opened SetAnalysis
  import opened SetScenario
  import opened SetRewiring
  import opened SetLearning
  import opened Simulation

  /** The scenario's state: ties, dyad list, reality, beliefs and scores. */
  datatype SetState = SetState(ties: SetTies, dyads: seq<Dyad>, reality: Beliefs.Bundles,
                               belief: seq<Beliefs.Bundles>, performance: seq<nat>)

  /** The shape a state keeps from one step to the next. */
  predicate Fitted(s: SetState, n: nat, mOf: nat, mIn: nat)
  {
    Over(s.ties, n) && Simple(s.ties) && DyadsOver(s.dyads, n)
    && Beliefs.Shaped(s.reality, mOf, mIn) && Agents(s.belief, n, mOf, mIn) && |s.performance| == n
  }

  /** The random inputs of one step. */
  datatype StepInputs = StepInputs(shuffles: seq<seq<Dyad>>, formMarkers: seq<real>, breakMarkers: seq<real>,
                                   breakDraws: seq<seq<nat>>, learning: seq<Coins>, turnover: seq<real>,
                                   newcomers: seq<Beliefs.Bundles>)

  predicate InputsFit(d: StepInputs, ds: seq<Dyad>, n: nat, mOf: nat, mIn: nat, num: nat)
  {
    Shuffles(d.shuffles, ds) && |d.shuffles| > 0
    && Markers(d.formMarkers) && num <= |d.formMarkers| && Markers(d.breakMarkers) && num <= |d.breakMarkers|
    && num <= |d.breakDraws| && Draws(d.learning, n, mOf, mIn) && |d.turnover| == n && Agents(d.newcomers, n, mOf, mIn)
  }

  /** learn_beliefs, then performance_avg, then do_turnover when the rate is positive. */
  method LearnStep(network: SetAdj, reality: Beliefs.Bundles, performance: seq<nat>, belief: seq<Beliefs.Bundles>,
                   n: nat, mOf: nat, mIn: nat, pLearning: real, rate: real, d: StepInputs)
    returns (next: seq<Beliefs.Bundles>, scores: seq<nat>, avg: real)
    requires |network| == n && SetsOver(network) && n >= 1 && mOf >= 1 && mIn >= 1
    requires Beliefs.Shaped(reality, mOf, mIn) && Agents(belief, n, mOf, mIn) && |performance| == n
    requires Draws(d.learning, n, mOf, mIn) && |d.turnover| == n && Agents(d.newcomers, n, mOf, mIn)
    ensures Agents(next, n, mOf, mIn)
    ensures next == (if rate > 0.0 then Replaced(SetLearned(Pop(network, performance, belief), n, mOf, mIn, d.learning, pLearning), d.turnover, d.newcomers, rate)
                     else SetLearned(Pop(network, performance, belief), n, mOf, mIn, d.learning, pLearning))
    ensures scores == Scores(reality, next, mIn)
    ensures avg == MeanPerformance(Scores(reality, SetLearned(Pop(network, performance, belief), n, mOf, mIn, d.learning, pLearning), mIn), n, mOf, mIn)
  {
    var learned;
    learned, scores := DoLearning(network, reality, performance, belief, n, mOf, mIn, d.learning, pLearning);
    BitsPositive(mOf, mIn, n);
    avg := PerformanceTotal(scores) as real / (Beliefs.Bits(mOf, mIn) * n) as real;
    next := learned;
    if rate > 0.0 {
      next, scores := DoTurnover(reality, scores, learned, n, mOf, mIn, d.turnover, d.newcomers, rate);
      assert scores == Scores(reality, next, mIn);
    }
  }

  /**
   * step_forward: num formations and num breaks when rewiring is on, then
   * learning from the neighbours, then turnover when its rate is positive.
   * Afterwards every score matches its agent's beliefs, the formal ties and
   * the mask are as before, and the tie invariant survives whenever no
   * directed formation fell back on the uniform pick.
   */
  method StepForward(mode: Dynamics, rewiring: bool, random: bool, s: SetState, n: nat, mOf: nat, mIn: nat, cap: nat,
                     num: nat, pLearning: real, turnoverRate: real, d: StepInputs)
    returns (next: SetState, avg: real, ghost fallbacks: nat)
    requires Fitted(s, n, mOf, mIn) && InputsFit(d, s.dyads, n, mOf, mIn, num) && n >= 1 && mOf >= 1 && mIn >= 1
    ensures Fitted(next, n, mOf, mIn)
    ensures next.ties.formal == s.ties.formal && next.ties.limited == s.ties.limited && next.reality == s.reality
    ensures !rewiring ==> next.ties == s.ties && next.dyads == s.dyads && fallbacks == 0
    ensures rewiring ==> (next.ties, next.dyads) == RewiredSets(mode, random, s.ties, n, cap, s.dyads, num, num, d.shuffles,
                                                                d.formMarkers, d.breakMarkers, d.breakDraws)
    ensures fallbacks == 0 && Tidy(s.ties, n) ==> Tidy(next.ties, n)
    ensures next.belief == (if turnoverRate > 0.0 then Replaced(SetLearned(Pop(next.ties.network, s.performance, s.belief), n, mOf, mIn, d.learning, pLearning), d.turnover, d.newcomers, turnoverRate)
                            else SetLearned(Pop(next.ties.network, s.performance, s.belief), n, mOf, mIn, d.learning, pLearning))
    ensures next.performance == Scores(s.reality, next.belief, mIn)
    ensures avg == MeanPerformance(Scores(s.reality, SetLearned(Pop(next.ties.network, s.performance, s.belief), n, mOf, mIn, d.learning, pLearning), mIn), n, mOf, mIn)
  {
    var ties, dyads := s.ties, s.dyads;
    fallbacks := 0;
    if rewiring {
      var complete;
      ties, dyads, complete, fallbacks := DoRewiring(mode, random, s.ties, n, cap, s.dyads, num, num,
                                                     d.shuffles, d.formMarkers, d.breakMarkers, d.breakDraws);
      if random {
        ShuffleKeepsDyadsOver(dyads, s.dyads, n);
      }
    }
    var belief, scores;
    belief, scores, avg := LearnStep(ties.network, s.reality, s.performance, s.belief, n, mOf, mIn, pLearning, turnoverRate, d);
    next := SetState(ties, dyads, s.reality, belief, scores);
  }
}
