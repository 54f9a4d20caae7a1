// The read-only parts of the rewiring routines: the weight of a dyad, the
// weight list of one formation or break round, and the roulette choice that
// ends the round.  Each loop here reads the tie state and the dyad list and
// is proved against the functions of the Networks and Rewiring modules.

module Selection {
  import opened Graphs
  import opened Roulette
  import opened Networks
  import opened Rewiring
  import Metrics

  /**
   * get_rewiring_weight_network_closure: one plus the common neighbours,
   * counted agent by agent, over the larger degree counter plus one when
   * the two are not adjacent.
   */
  method ClosureWeightOf(t: Ties, n: nat, f: nat, g: nat) returns (w: real)
    requires Shaped(t, n) && f < n && g < n
    ensures w == ClosureWeight(t, n, f, g)
  {
    ghost var common := CommonRow(t.network, f, g);
    var score := 1.0;
    for i := 0 to n
      invariant score == (1 + Count(common[..i])) as real
    {
      if t.network[f][i] && t.network[g][i] {
        score := score + 1.0;
      }
      assert common[..i + 1][..i] == common[..i];
    }
    assert common[..n] == common;
    var denom := MaxInt(t.degree[f], t.degree[g]) as real + (if t.network[f][g] then 0.0 else 1.0);
    w := if denom == 0.0 then 0.0 else score / denom;
  }

  /** get_rewiring_weight: closure, preferential attachment (the smaller degree counter), or 0. */
  method WeightOf(mode: Dynamics, t: Ties, n: nat, f: nat, g: nat) returns (w: real)
    requires Shaped(t, n) && f < n && g < n
    ensures w == Weight(mode, t, n, f, g)
  {
    match mode
    case NetworkClosure =>
      w := ClosureWeightOf(t, n, f, g);
    case PreferentialAttachment =>
      w := MinInt(t.degree[f], t.degree[g]) as real;
    case Neither =>
      w := 0.0;
  }

  /** Appending one weight adds it to the sum. */
  lemma SumAppend(w: seq<real>, x: real)
    ensures Sum(w + [x]) == Sum(w) + x
  {
    assert (w + [x])[..|w|] == w;
  }

  /**
   * The first loop of do_tie_formation: the weight of every formable dyad
   * in list order, 0 elsewhere, and their sum.
   */
  method FormationWeightsOf(mode: Dynamics, t: Ties, n: nat, cap: nat, ds: seq<Dyad>) returns (w: seq<real>, denom: real)
    requires Shaped(t, n) && DyadsOver(ds, n)
    ensures w == FormationWeights(mode, t, n, cap, ds) && denom == Sum(w)
  {
    w, denom := [], 0.0;
    for d := 0 to |ds|
      invariant w == FormationWeights(mode, t, n, cap, ds)[..d] && denom == Sum(w)
    {
      var (f, g) := ds[d];
      var x := 0.0;
      if !t.network[f][g] && f != g && !t.limited[f][g] && t.degreeInformal[f] < cap && t.degreeInformal[g] < cap {
        x := WeightOf(mode, t, n, f, g);
      }
      SumAppend(w, x);
      w, denom := w + [x], denom + x;
    }
  }

  /**
   * The first loop of do_tie_break: the weight of every informal tie in
   * list order, 0 elsewhere, and their running maximum from FloatMin.
   */
  method BreakWeightsOf(mode: Dynamics, t: Ties, n: nat, ds: seq<Dyad>) returns (w: seq<real>, max: real)
    requires Shaped(t, n) && DyadsOver(ds, n)
    ensures w == BreakWeights(mode, t, n, ds) && max == CutMax(mode, t, n, ds, |ds|)
  {
    w, max := [], Metrics.FloatMin;
    for d := 0 to |ds|
      invariant w == BreakWeights(mode, t, n, ds)[..d] && max == CutMax(mode, t, n, ds, d)
    {
      var (f, g) := ds[d];
      var x := 0.0;
      if t.informal[f][g] {
        x := WeightOf(mode, t, n, f, g);
        if x > max {
          max := x;
        }
      }
      assert x == BreakWeights(mode, t, n, ds)[d];
      w := w + [x];
    }
  }

  /**
   * The second loop of do_tie_break: each non-zero weight replaced by the
   * maximum minus itself, and the sum of the results.
   */
  method InvertedOf(w: seq<real>, max: real) returns (p: seq<real>, denom: real)
    ensures p == Inverted(w, max) && denom == Sum(p)
  {
    p, denom := [], 0.0;
    for d := 0 to |w|
      invariant p == Inverted(w, max)[..d] && denom == Sum(p)
    {
      var x := 0.0;
      if w[d] != 0.0 {
        x := max - w[d];
      }
      SumAppend(p, x);
      p, denom := p + [x], denom + x;
    }
  }

  /**
   * The end of one round: with a zero denominator every weight becomes 1,
   * the denominator 1 and the list is replaced by its shuffle; then the
   * roulette walks the list.  The chosen dyad and the list after the round
   * are those of the round function.
   */
  method Choose(w: seq<real>, denom: real, ds: seq<Dyad>, marker: real, shuffled: seq<Dyad>)
    returns (chosen: Dyad, after: seq<Dyad>)
    requires |w| == |ds| > 0 && denom == Sum(w) && IsShuffle(shuffled, ds) && 0.0 <= marker < 1.0
    ensures denom == 0.0 ==> after == shuffled && chosen == shuffled[0]
    ensures denom != 0.0 ==> after == ds && Select(w, denom, marker).Some?
                             && chosen == ds[Select(w, denom, marker).value]
  {
    var weights, total := w, denom;
    after := ds;
    if denom == 0.0 {
      assert |multiset(shuffled)| == |multiset(ds)|;
      weights, total := seq(|ds|, _ => 1.0), 1.0;
      after := shuffled;
      UniformStopsFirst(weights, marker);
    } else {
      SelectFound(w, denom, marker);
    }
    var found, d := Walk(weights, total, marker);
    chosen := after[d];
  }

  /** The pick of one formation round: the chosen dyad and the list it leaves. */
  method FormationChoice(mode: Dynamics, t: Ties, n: nat, cap: nat, ds: seq<Dyad>, marker: real, shuffled: seq<Dyad>)
    returns (chosen: Dyad, after: seq<Dyad>)
    requires Shaped(t, n) && DyadsOver(ds, n) && IsShuffle(shuffled, ds) && |ds| > 0 && 0.0 <= marker < 1.0
    ensures chosen == FormationRound(mode, t, n, cap, ds, marker, shuffled).chosen
    ensures after == FormationRound(mode, t, n, cap, ds, marker, shuffled).dyads
  {
    var w, denom := FormationWeightsOf(mode, t, n, cap, ds);
    chosen, after := Choose(w, denom, ds, marker, shuffled);
  }

  /** The pick of one break round: the chosen dyad and the list it leaves. */
  method BreakChoice(mode: Dynamics, t: Ties, n: nat, ds: seq<Dyad>, marker: real, shuffled: seq<Dyad>)
    returns (chosen: Dyad, after: seq<Dyad>)
    requires Shaped(t, n) && DyadsOver(ds, n) && IsShuffle(shuffled, ds) && |ds| > 0 && 0.0 <= marker < 1.0
    ensures chosen == BreakRound(mode, t, n, ds, marker, shuffled).chosen
    ensures after == BreakRound(mode, t, n, ds, marker, shuffled).dyads
  {
    var w, max := BreakWeightsOf(mode, t, n, ds);
    var p, denom := InvertedOf(w, max);
    chosen, after := Choose(p, denom, ds, marker, shuffled);
  }
}
