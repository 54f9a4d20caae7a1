// The rewiring routines of the older flat-belief scenario (test2).  Random
// rewiring is the primary variant's, visit for visit.  The directed
// routines differ in three ways: a break round starts its running maximum
// at the smallest positive double rather than the most negative one, a
// formation round has no informal-degree cap, and do_rewiring breaks
// before it forms.

module FlatRewiring {
  import opened Graphs
  import opened Roulette
  import opened Networks
  import opened Rewiring
  import opened Selection
  import Simulation
  import Metrics

  /** f64::MIN_POSITIVE, where a break round's running maximum starts. */
  const MinPositive: real := 2.2250738585072014e-308

  /** The draws of one do_rewiring call: a marker and a fallback shuffle per directed round, shuffles for the random passes. */
  datatype RewiringDraws = RewiringDraws(formMarkers: seq<real>, formShuffles: seq<seq<Dyad>>,
                                         breakMarkers: seq<real>, breakShuffles: seq<seq<Dyad>>,
                                         passShuffles: seq<seq<Dyad>>)

  predicate DrawsFit(d: RewiringDraws, ds: seq<Dyad>, nf: nat, nb: nat)
  {
    Markers(d.formMarkers) && Shuffles(d.formShuffles, ds) && nf <= |d.formMarkers| && nf <= |d.formShuffles|
    && Markers(d.breakMarkers) && Shuffles(d.breakShuffles, ds) && nb <= |d.breakMarkers| && nb <= |d.breakShuffles|
    && Shuffles(d.passShuffles, ds) && |d.passShuffles| > 0
  }

  // ---------------------------------------------------------------
  // Directed tie formation, without a cap
  // ---------------------------------------------------------------

  /** test2's formation guard: distinct, not adjacent and not masked; the informal counters are not consulted. */
  predicate Uncapped(t: Ties, n: nat, d: Dyad)
    requires Shaped(t, n) && d.0 < n && d.1 < n
  {
    !t.network[d.0][d.1] && d.0 != d.1 && !t.limited[d.0][d.1]
  }

  /** The weight of each dyad the guard admits, 0 elsewhere, in list order. */
  function OpenWeights(mode: Dynamics, t: Ties, n: nat, ds: seq<Dyad>): (w: seq<real>)
    requires Shaped(t, n) && DyadsOver(ds, n)
    ensures |w| == |ds|
  {
    seq(|ds|, k requires 0 <= k < |ds| =>
      if Uncapped(t, n, ds[k]) then Weight(mode, t, n, ds[k].0, ds[k].1) else 0.0)
  }

  /** While every informal counter is under the cap, the cap of the primary variant admits the same dyads. */
  lemma CapIdleBelowIt(mode: Dynamics, t: Ties, n: nat, cap: nat, ds: seq<Dyad>)
    requires Shaped(t, n) && DyadsOver(ds, n)
    requires forall v :: 0 <= v < n ==> t.degreeInformal[v] < cap
    ensures OpenWeights(mode, t, n, ds) == FormationWeights(mode, t, n, cap, ds)
  {
    forall k | 0 <= k < |ds| ensures OpenWeights(mode, t, n, ds)[k] == FormationWeights(mode, t, n, cap, ds)[k] {
      assert Uncapped(t, n, ds[k]) == Formable(t, n, cap, ds[k]);
    }
  }

  /**
   * One round of test2's formation loop.  When the weights sum to a
   * non-zero value the roulette picks an admitted dyad of non-zero weight,
   * whatever its informal counters; otherwise the list is reshuffled and its
   * first dyad is taken whatever its state.
   */
  function OpenRound(mode: Dynamics, t: Ties, n: nat, ds: seq<Dyad>, marker: real, shuffled: seq<Dyad>): (r: Round)
    requires Shaped(t, n) && DyadsOver(ds, n) && IsShuffle(shuffled, ds) && |ds| > 0
    requires 0.0 <= marker < 1.0
    ensures r.chosen.0 < n && r.chosen.1 < n && r.ties == Add(t, n, r.chosen.0, r.chosen.1)
    ensures r.fallback <==> Sum(OpenWeights(mode, t, n, ds)) == 0.0
    ensures IsShuffle(r.dyads, ds) && DyadsOver(r.dyads, n) && |r.dyads| == |ds|
    ensures r.fallback ==> r.dyads == shuffled && r.chosen == shuffled[0]
    ensures !r.fallback ==> r.dyads == ds && Picked(OpenWeights(mode, t, n, ds), marker, ds, r.chosen)
    ensures !r.fallback ==> Uncapped(t, n, r.chosen) && Weight(mode, t, n, r.chosen.0, r.chosen.1) != 0.0
  {
    var w := OpenWeights(mode, t, n, ds);
    var denom := Sum(w);
    if denom == 0.0 then
      ShuffleKeepsDyadsOver(shuffled, ds, n);
      Round(Add(t, n, shuffled[0].0, shuffled[0].1), shuffled, true, shuffled[0])
    else
      SelectFound(w, denom, marker);
      var k := Select(w, denom, marker).value;
      Round(Add(t, n, ds[k].0, ds[k].1), ds, false, ds[k])
  }

  /** Below the cap everywhere, a test2 formation round is a primary one. */
  lemma OpenRoundBelowCap(mode: Dynamics, t: Ties, n: nat, cap: nat, ds: seq<Dyad>, marker: real, shuffled: seq<Dyad>)
    requires Shaped(t, n) && DyadsOver(ds, n) && IsShuffle(shuffled, ds) && |ds| > 0 && 0.0 <= marker < 1.0
    requires forall v :: 0 <= v < n ==> t.degreeInformal[v] < cap
    ensures OpenRound(mode, t, n, ds, marker, shuffled) == FormationRound(mode, t, n, cap, ds, marker, shuffled)
  {
    CapIdleBelowIt(mode, t, n, cap, ds);
  }

  lemma OpenRoundKeepsConsistent(mode: Dynamics, t: Ties, n: nat, ds: seq<Dyad>, marker: real, shuffled: seq<Dyad>)
    requires Consistent(t, n) && DyadsOver(ds, n) && IsShuffle(shuffled, ds) && |ds| > 0
    requires 0.0 <= marker < 1.0
    requires !OpenRound(mode, t, n, ds, marker, shuffled).fallback
    ensures Consistent(OpenRound(mode, t, n, ds, marker, shuffled).ties, n)
  {
    var r := OpenRound(mode, t, n, ds, marker, shuffled);
    AddKeepsConsistent(t, n, r.chosen.0, r.chosen.1);
  }

  /** The state after the given number of test2 formation rounds. */
  function Openings(mode: Dynamics, t: Ties, n: nat, ds: seq<Dyad>, markers: seq<real>, shuffles: seq<seq<Dyad>>, rounds: nat)
    : (o: Outcome)
    requires Shaped(t, n) && DyadsOver(ds, n) && |ds| > 0 && Markers(markers) && Shuffles(shuffles, ds)
    requires rounds <= |markers| && rounds <= |shuffles|
    ensures Shaped(o.ties, n) && IsShuffle(o.dyads, ds) && DyadsOver(o.dyads, n) && |o.dyads| == |ds| && o.fallbacks <= rounds
    ensures o.ties.formal == t.formal && o.ties.limited == t.limited && o.ties.degreeFormal == t.degreeFormal
    ensures Total(o.ties.degreeInformal) == Total(t.degreeInformal) + 2 * rounds
    ensures Consistent(t, n) && o.fallbacks == 0 ==> Consistent(o.ties, n)
  {
    if rounds == 0 then Outcome(t, ds, 0)
    else
      var o := Openings(mode, t, n, ds, markers, shuffles, rounds - 1);
      var r := OpenRound(mode, o.ties, n, o.dyads, markers[rounds - 1], shuffles[rounds - 1]);
      if Consistent(o.ties, n) && !r.fallback then
        OpenRoundKeepsConsistent(mode, o.ties, n, o.dyads, markers[rounds - 1], shuffles[rounds - 1]);
        Outcome(r.ties, r.dyads, o.fallbacks)
      else
        Outcome(r.ties, r.dyads, o.fallbacks + if r.fallback then 1 else 0)
  }

  /** One more round applies the round function to the state and list the earlier rounds left. */
  lemma OpeningsStep(mode: Dynamics, t: Ties, n: nat, ds: seq<Dyad>, markers: seq<real>, shuffles: seq<seq<Dyad>>, k: nat)
    requires Shaped(t, n) && DyadsOver(ds, n) && |ds| > 0 && Markers(markers) && Shuffles(shuffles, ds)
    requires k < |markers| && k < |shuffles|
    ensures var o := Openings(mode, t, n, ds, markers, shuffles, k);
            IsShuffle(shuffles[k], o.dyads)
            && Openings(mode, t, n, ds, markers, shuffles, k + 1).ties
               == OpenRound(mode, o.ties, n, o.dyads, markers[k], shuffles[k]).ties
            && Openings(mode, t, n, ds, markers, shuffles, k + 1).dyads
               == OpenRound(mode, o.ties, n, o.dyads, markers[k], shuffles[k]).dyads
  {
  }

  /** The first loop of test2's do_tie_formation: the weight of every admitted dyad in list order, and their sum. */
  method OpenWeightsOf(mode: Dynamics, t: Ties, n: nat, ds: seq<Dyad>) returns (w: seq<real>, denom: real)
    requires Shaped(t, n) && DyadsOver(ds, n)
    ensures w == OpenWeights(mode, t, n, ds) && denom == Sum(w)
  {
    w, denom := [], 0.0;
    for d := 0 to |ds|
      invariant w == OpenWeights(mode, t, n, ds)[..d] && denom == Sum(w)
    {
      var (f, g) := ds[d];
      var x := 0.0;
      if !t.network[f][g] && f != g && !t.limited[f][g] {
        x := WeightOf(mode, t, n, f, g);
      }
      SumAppend(w, x);
      w, denom := w + [x], denom + x;
    }
  }

  /** The pick of one round of test2's do_tie_formation: the chosen dyad and the list it leaves. */
  method OpenChoice(mode: Dynamics, t: Ties, n: nat, ds: seq<Dyad>, marker: real, shuffled: seq<Dyad>)
    returns (chosen: Dyad, after: seq<Dyad>)
    requires Shaped(t, n) && DyadsOver(ds, n) && IsShuffle(shuffled, ds) && |ds| > 0 && 0.0 <= marker < 1.0
    ensures chosen == OpenRound(mode, t, n, ds, marker, shuffled).chosen
    ensures after == OpenRound(mode, t, n, ds, marker, shuffled).dyads
  {
    var w, denom := OpenWeightsOf(mode, t, n, ds);
    chosen, after := Choose(w, denom, ds, marker, shuffled);
  }

  /** test2's do_tie_formation: num rounds, round k drawing markers[k] and, on a zero sum, the shuffle shuffles[k]. */
  method FlatTieFormation(mode: Dynamics, t: Ties, n: nat, ds: seq<Dyad>, num: nat, markers: seq<real>, shuffles: seq<seq<Dyad>>)
    returns (r: Ties, dyads: seq<Dyad>)
    requires Shaped(t, n) && DyadsOver(ds, n) && |ds| > 0 && Markers(markers) && Shuffles(shuffles, ds)
    requires num <= |markers| && num <= |shuffles|
    ensures r == Openings(mode, t, n, ds, markers, shuffles, num).ties
    ensures dyads == Openings(mode, t, n, ds, markers, shuffles, num).dyads
  {
    r, dyads := t, ds;
    for k := 0 to num
      invariant r == Openings(mode, t, n, ds, markers, shuffles, k).ties
      invariant dyads == Openings(mode, t, n, ds, markers, shuffles, k).dyads
    {
      OpeningsStep(mode, t, n, ds, markers, shuffles, k);
      var chosen;
      chosen, dyads := OpenChoice(mode, r, n, dyads, markers[k], shuffles[k]);
      r := Add(r, n, chosen.0, chosen.1);
    }
  }

  // ---------------------------------------------------------------
  // Directed tie break, the running maximum started at MIN_POSITIVE
  // ---------------------------------------------------------------

  /** Running maximum of the informal weights over the first k dyads, started at MinPositive. */
  function PositiveCutMax(mode: Dynamics, t: Ties, n: nat, ds: seq<Dyad>, k: nat): (m: real)
    requires Shaped(t, n) && DyadsOver(ds, n) && k <= |ds|
    ensures forall j :: 0 <= j < k && t.informal[ds[j].0][ds[j].1] ==> BreakWeights(mode, t, n, ds)[j] <= m
  {
    if k == 0 then MinPositive
    else
      var m := PositiveCutMax(mode, t, n, ds, k - 1);
      var w := BreakWeights(mode, t, n, ds)[k - 1];
      if t.informal[ds[k - 1].0][ds[k - 1].1] && w > m then w else m
  }

  /** One more dyad raises the running maximum to its weight when it is an informal tie above it. */
  lemma PositiveCutMaxNext(mode: Dynamics, t: Ties, n: nat, ds: seq<Dyad>, k: nat)
    requires Shaped(t, n) && DyadsOver(ds, n) && k < |ds|
    ensures PositiveCutMax(mode, t, n, ds, k + 1)
            == if t.informal[ds[k].0][ds[k].1] && BreakWeights(mode, t, n, ds)[k] > PositiveCutMax(mode, t, n, ds, k)
               then BreakWeights(mode, t, n, ds)[k] else PositiveCutMax(mode, t, n, ds, k)
  {
  }

  /** Starting at MinPositive instead of the most negative double only raises a maximum below MinPositive to it. */
  lemma {:induction false} PositiveCutMaxClamps(mode: Dynamics, t: Ties, n: nat, ds: seq<Dyad>, k: nat)
    requires Shaped(t, n) && DyadsOver(ds, n) && k <= |ds|
    ensures PositiveCutMax(mode, t, n, ds, k)
            == if CutMax(mode, t, n, ds, k) < MinPositive then MinPositive else CutMax(mode, t, n, ds, k)
  {
    if k > 0 {
      PositiveCutMaxClamps(mode, t, n, ds, k - 1);
    }
  }

  function PositiveBreakProbabilities(mode: Dynamics, t: Ties, n: nat, ds: seq<Dyad>): seq<real>
    requires Shaped(t, n) && DyadsOver(ds, n)
  {
    Inverted(BreakWeights(mode, t, n, ds), PositiveCutMax(mode, t, n, ds, |ds|))
  }

  /**
   * The two starting values give the same break probabilities unless some
   * informal tie has a weight strictly between 0 and MinPositive.
   */
  lemma BreakProbabilitiesAgree(mode: Dynamics, t: Ties, n: nat, ds: seq<Dyad>)
    requires Shaped(t, n) && DyadsOver(ds, n)
    requires forall j :: 0 <= j < |ds| && t.informal[ds[j].0][ds[j].1] ==>
               Weight(mode, t, n, ds[j].0, ds[j].1) == 0.0 || Weight(mode, t, n, ds[j].0, ds[j].1) >= MinPositive
    ensures PositiveBreakProbabilities(mode, t, n, ds) == BreakProbabilities(mode, t, n, ds)
  {
    var w := BreakWeights(mode, t, n, ds);
    PositiveCutMaxClamps(mode, t, n, ds, |ds|);
    if exists j :: 0 <= j < |ds| && w[j] != 0.0 {
      var j :| 0 <= j < |ds| && w[j] != 0.0;
      assert t.informal[ds[j].0][ds[j].1];
      assert w[j] <= CutMax(mode, t, n, ds, |ds|);
    } else {
      assert forall k :: 0 <= k < |ds| ==> Inverted(w, PositiveCutMax(mode, t, n, ds, |ds|))[k] == 0.0
                                            == Inverted(w, CutMax(mode, t, n, ds, |ds|))[k];
    }
  }

  /**
   * One round of test2's break loop.  Off the fallback the chosen dyad is an
   * informal tie of non-zero weight strictly below the running maximum; on
   * the fallback the reshuffled list's first dyad is cut whatever it is.
   */
  function PositiveBreakRound(mode: Dynamics, t: Ties, n: nat, ds: seq<Dyad>, marker: real, shuffled: seq<Dyad>): (r: Round)
    requires Shaped(t, n) && DyadsOver(ds, n) && IsShuffle(shuffled, ds) && |ds| > 0
    requires 0.0 <= marker < 1.0
    ensures r.chosen.0 < n && r.chosen.1 < n && r.ties == Cut(t, n, r.chosen.0, r.chosen.1)
    ensures r.fallback <==> Sum(PositiveBreakProbabilities(mode, t, n, ds)) == 0.0
    ensures IsShuffle(r.dyads, ds) && DyadsOver(r.dyads, n) && |r.dyads| == |ds|
    ensures r.fallback ==> r.dyads == shuffled && r.chosen == shuffled[0]
    ensures !r.fallback ==> r.dyads == ds && Picked(PositiveBreakProbabilities(mode, t, n, ds), marker, ds, r.chosen)
    ensures !r.fallback ==> (t.informal[r.chosen.0][r.chosen.1]
              && 0.0 != Weight(mode, t, n, r.chosen.0, r.chosen.1) < PositiveCutMax(mode, t, n, ds, |ds|))
  {
    var p := PositiveBreakProbabilities(mode, t, n, ds);
    var denom := Sum(p);
    if denom == 0.0 then
      ShuffleKeepsDyadsOver(shuffled, ds, n);
      Round(Cut(t, n, shuffled[0].0, shuffled[0].1), shuffled, true, shuffled[0])
    else
      SelectFound(p, denom, marker);
      var k := Select(p, denom, marker).value;
      Round(Cut(t, n, ds[k].0, ds[k].1), ds, false, ds[k])
  }

  lemma PositiveBreakRoundKeepsConsistent(mode: Dynamics, t: Ties, n: nat, ds: seq<Dyad>, marker: real, shuffled: seq<Dyad>)
    requires Consistent(t, n) && DyadsOver(ds, n) && IsShuffle(shuffled, ds) && |ds| > 0
    requires 0.0 <= marker < 1.0
    requires !PositiveBreakRound(mode, t, n, ds, marker, shuffled).fallback
    ensures Consistent(PositiveBreakRound(mode, t, n, ds, marker, shuffled).ties, n)
  {
    var r := PositiveBreakRound(mode, t, n, ds, marker, shuffled);
    CutKeepsConsistent(t, n, r.chosen.0, r.chosen.1);
  }

  /** When no informal weight lies strictly between 0 and MinPositive, a test2 break round is a primary one. */
  lemma PositiveBreakRoundAgrees(mode: Dynamics, t: Ties, n: nat, ds: seq<Dyad>, marker: real, shuffled: seq<Dyad>)
    requires Shaped(t, n) && DyadsOver(ds, n) && IsShuffle(shuffled, ds) && |ds| > 0 && 0.0 <= marker < 1.0
    requires forall j :: 0 <= j < |ds| && t.informal[ds[j].0][ds[j].1] ==>
               Weight(mode, t, n, ds[j].0, ds[j].1) == 0.0 || Weight(mode, t, n, ds[j].0, ds[j].1) >= MinPositive
    ensures PositiveBreakRound(mode, t, n, ds, marker, shuffled) == BreakRound(mode, t, n, ds, marker, shuffled)
  {
    BreakProbabilitiesAgree(mode, t, n, ds);
  }

  /** The state after the given number of test2 break rounds. */
  function PositiveBreaks(mode: Dynamics, t: Ties, n: nat, ds: seq<Dyad>, markers: seq<real>, shuffles: seq<seq<Dyad>>, rounds: nat)
    : (o: Outcome)
    requires Shaped(t, n) && DyadsOver(ds, n) && |ds| > 0 && Markers(markers) && Shuffles(shuffles, ds)
    requires rounds <= |markers| && rounds <= |shuffles|
    ensures Shaped(o.ties, n) && IsShuffle(o.dyads, ds) && DyadsOver(o.dyads, n) && |o.dyads| == |ds| && o.fallbacks <= rounds
    ensures o.ties.formal == t.formal && o.ties.limited == t.limited && o.ties.degreeFormal == t.degreeFormal
    ensures Total(o.ties.degreeInformal) == Total(t.degreeInformal) - 2 * rounds
    ensures Consistent(t, n) && o.fallbacks == 0 ==> Consistent(o.ties, n)
  {
    if rounds == 0 then Outcome(t, ds, 0)
    else
      var o := PositiveBreaks(mode, t, n, ds, markers, shuffles, rounds - 1);
      var r := PositiveBreakRound(mode, o.ties, n, o.dyads, markers[rounds - 1], shuffles[rounds - 1]);
      if Consistent(o.ties, n) && !r.fallback then
        PositiveBreakRoundKeepsConsistent(mode, o.ties, n, o.dyads, markers[rounds - 1], shuffles[rounds - 1]);
        Outcome(r.ties, r.dyads, o.fallbacks)
      else
        Outcome(r.ties, r.dyads, o.fallbacks + if r.fallback then 1 else 0)
  }

  lemma PositiveBreaksStep(mode: Dynamics, t: Ties, n: nat, ds: seq<Dyad>, markers: seq<real>, shuffles: seq<seq<Dyad>>, k: nat)
    requires Shaped(t, n) && DyadsOver(ds, n) && |ds| > 0 && Markers(markers) && Shuffles(shuffles, ds)
    requires k < |markers| && k < |shuffles|
    ensures var o := PositiveBreaks(mode, t, n, ds, markers, shuffles, k);
            IsShuffle(shuffles[k], o.dyads)
            && PositiveBreaks(mode, t, n, ds, markers, shuffles, k + 1).ties
               == PositiveBreakRound(mode, o.ties, n, o.dyads, markers[k], shuffles[k]).ties
            && PositiveBreaks(mode, t, n, ds, markers, shuffles, k + 1).dyads
               == PositiveBreakRound(mode, o.ties, n, o.dyads, markers[k], shuffles[k]).dyads
  {
  }

  /** The first loop of test2's do_tie_break: the informal weights in list order and their maximum from MinPositive. */
  method PositiveBreakWeightsOf(mode: Dynamics, t: Ties, n: nat, ds: seq<Dyad>) returns (w: seq<real>, max: real)
    requires Shaped(t, n) && DyadsOver(ds, n)
    ensures w == BreakWeights(mode, t, n, ds) && max == PositiveCutMax(mode, t, n, ds, |ds|)
  {
    w, max := [], MinPositive;
    for d := 0 to |ds|
      invariant w == BreakWeights(mode, t, n, ds)[..d] && max == PositiveCutMax(mode, t, n, ds, d)
    {
      var x := InformalWeightOf(mode, t, n, ds, d);
      PositiveCutMaxNext(mode, t, n, ds, d);
      if t.informal[ds[d].0][ds[d].1] && x > max {
        max := x;
      }
      w := w + [x];
    }
  }

  /** The weight of the d-th dyad when it is an informal tie, 0 otherwise. */
  method InformalWeightOf(mode: Dynamics, t: Ties, n: nat, ds: seq<Dyad>, d: nat) returns (x: real)
    requires Shaped(t, n) && DyadsOver(ds, n) && d < |ds|
    ensures x == BreakWeights(mode, t, n, ds)[d]
  {
    var (f, g) := ds[d];
    x := 0.0;
    if t.informal[f][g] {
      x := WeightOf(mode, t, n, f, g);
    }
  }

  /** The pick of one round of test2's do_tie_break: the chosen dyad and the list it leaves. */
  method PositiveBreakChoice(mode: Dynamics, t: Ties, n: nat, ds: seq<Dyad>, marker: real, shuffled: seq<Dyad>)
    returns (chosen: Dyad, after: seq<Dyad>)
    requires Shaped(t, n) && DyadsOver(ds, n) && IsShuffle(shuffled, ds) && |ds| > 0 && 0.0 <= marker < 1.0
    ensures chosen == PositiveBreakRound(mode, t, n, ds, marker, shuffled).chosen
    ensures after == PositiveBreakRound(mode, t, n, ds, marker, shuffled).dyads
  {
    var w, max := PositiveBreakWeightsOf(mode, t, n, ds);
    var p, denom := InvertedOf(w, max);
    chosen, after := Choose(p, denom, ds, marker, shuffled);
  }

  /** test2's do_tie_break: num rounds, round k drawing markers[k] and, on a zero sum, the shuffle shuffles[k]. */
  method FlatTieBreak(mode: Dynamics, t: Ties, n: nat, ds: seq<Dyad>, num: nat, markers: seq<real>, shuffles: seq<seq<Dyad>>)
    returns (r: Ties, dyads: seq<Dyad>)
    requires Shaped(t, n) && DyadsOver(ds, n) && |ds| > 0 && Markers(markers) && Shuffles(shuffles, ds)
    requires num <= |markers| && num <= |shuffles|
    ensures r == PositiveBreaks(mode, t, n, ds, markers, shuffles, num).ties
    ensures dyads == PositiveBreaks(mode, t, n, ds, markers, shuffles, num).dyads
  {
    r, dyads := t, ds;
    for k := 0 to num
      invariant r == PositiveBreaks(mode, t, n, ds, markers, shuffles, k).ties
      invariant dyads == PositiveBreaks(mode, t, n, ds, markers, shuffles, k).dyads
    {
      PositiveBreaksStep(mode, t, n, ds, markers, shuffles, k);
      var chosen;
      chosen, dyads := PositiveBreakChoice(mode, r, n, dyads, markers[k], shuffles[k]);
      r := Cut(r, n, chosen.0, chosen.1);
    }
  }

  // ---------------------------------------------------------------
  // Random rewiring, on values
  // ---------------------------------------------------------------

  /** The body of the random pass for one dyad: cut it if informal and owed, else form it if allowed and owed. */
  method VisitDyad(t: Ties, n: nat, cap: nat, d: Dyad, nf: nat, nb: nat) returns (r: Pass)
    requires Shaped(t, n) && d.0 < n && d.1 < n
    ensures r == Visit(t, n, cap, d, nf, nb)
  {
    var (f, g) := d;
    if t.informal[f][g] && nb > 0 {
      r := Pass(Cut(t, n, f, g), nf, nb - 1);
    } else if nf > 0 && !t.network[f][g] && f != g
              && (t.degreeInformal[f] < cap || t.degreeInformal[g] < cap) && !t.limited[f][g] {
      r := Pass(Add(t, n, f, g), nf - 1, nb);
    } else {
      r := Pass(t, nf, nb);
    }
  }

  /** The inner loop of do_random_rewiring over the list as just shuffled, left as soon as both quotas are met. */
  method RandomPass(t: Ties, n: nat, cap: nat, ds: seq<Dyad>, nf: nat, nb: nat) returns (r: Pass)
    requires Shaped(t, n) && DyadsOver(ds, n)
    ensures r == PassFrom(t, n, cap, ds, 0, nf, nb)
  {
    r := Pass(t, nf, nb);
    for p := 0 to |ds|
      invariant Shaped(r.ties, n)
      invariant PassFrom(r.ties, n, cap, ds, p, r.formLeft, r.breakLeft) == PassFrom(t, n, cap, ds, 0, nf, nb)
    {
      r := VisitDyad(r.ties, n, cap, ds[p], r.formLeft, r.breakLeft);
      if r.formLeft == 0 && r.breakLeft == 0 {
        return;
      }
    }
  }

  /**
   * do_random_rewiring: pass after pass, each over a fresh shuffle of the
   * list, until both quotas are met.  The source repeats for ever when they
   * cannot be; here the passes are bounded by the shuffles given, and
   * complete says whether the quotas were met.
   */
  method RandomRewiring(t: Ties, n: nat, cap: nat, ds: seq<Dyad>, nf: nat, nb: nat, shuffles: seq<seq<Dyad>>)
    returns (r: Ties, dyads: seq<Dyad>, complete: bool)
    requires Shaped(t, n) && DyadsOver(ds, n) && Shuffles(shuffles, ds) && |shuffles| > 0
    ensures r == PassesFrom(t, n, cap, ds, shuffles, 0, nf, nb).last.ties
    ensures dyads == PassesFrom(t, n, cap, ds, shuffles, 0, nf, nb).dyads
    ensures complete <==> PassesFrom(t, n, cap, ds, shuffles, 0, nf, nb).last == Pass(r, 0, 0)
  {
    ghost var goal := PassesFrom(t, n, cap, ds, shuffles, 0, nf, nb);
    var last := Pass(t, nf, nb);
    var k := 0;
    complete := false;
    dyads := ds;
    while !complete && k < |shuffles|
      invariant k <= |shuffles| && Shaped(last.ties, n)
      invariant !complete && k < |shuffles| ==> PassesFrom(last.ties, n, cap, ds, shuffles, k, last.formLeft, last.breakLeft) == goal
      invariant complete || k == |shuffles| ==> goal == Rewired(last, dyads, k)
      invariant complete <==> k > 0 && last.formLeft == 0 && last.breakLeft == 0
      decreases |shuffles| - k
    {
      ghost var before := last;
      ShuffleKeepsDyadsOver(shuffles[k], ds, n);
      dyads := shuffles[k];
      last := RandomPass(last.ties, n, cap, dyads, last.formLeft, last.breakLeft);
      PassesStep(before.ties, n, cap, ds, shuffles, k, before.formLeft, before.breakLeft, last);
      k := k + 1;
      complete := last.formLeft == 0 && last.breakLeft == 0;
    }
    r := last.ties;
  }

  // ---------------------------------------------------------------
  // do_rewiring
  // ---------------------------------------------------------------

  /**
   * test2's do_rewiring: random passes, or nb directed breaks followed by nf
   * directed formations.  Formal ties, the mask and the formal counters are
   * never touched; when the quotas are met the informal counters grow by two
   * per formation and shrink by two per break.
   */
  function FlatAfterRewiring(mode: Dynamics, random: bool, t: Ties, n: nat, cap: nat, ds: seq<Dyad>, nf: nat, nb: nat, d: RewiringDraws)
    : (r: Simulation.Rewire)
    requires Shaped(t, n) && DyadsOver(ds, n) && |ds| > 0 && DrawsFit(d, ds, nf, nb)
    ensures Shaped(r.ties, n) && IsShuffle(r.dyads, ds) && DyadsOver(r.dyads, n) && |r.dyads| == |ds|
    ensures r.ties.formal == t.formal && r.ties.limited == t.limited && r.ties.degreeFormal == t.degreeFormal
    ensures r.complete ==> Total(r.ties.degreeInformal) == Total(t.degreeInformal) + 2 * nf - 2 * nb
    ensures !random ==> r.complete
  {
    if random then
      var o := PassesFrom(t, n, cap, ds, d.passShuffles, 0, nf, nb);
      ShuffleKeepsDyadsOver(o.dyads, ds, n);
      Simulation.Rewire(o.last.ties, o.dyads, 0, o.last.formLeft == 0 && o.last.breakLeft == 0)
    else
      var b := PositiveBreaks(mode, t, n, ds, d.breakMarkers, d.breakShuffles, nb);
      ShufflesOfReordering(d.formShuffles, ds, b.dyads);
      var f := Openings(mode, b.ties, n, b.dyads, d.formMarkers, d.formShuffles, nf);
      Simulation.Rewire(f.ties, f.dyads, b.fallbacks + f.fallbacks, true)
  }

  /** Rewiring keeps the invariant unless a directed round fell back; random passes always keep it. */
  lemma FlatRewiringKeepsConsistent(mode: Dynamics, random: bool, t: Ties, n: nat, cap: nat, ds: seq<Dyad>, nf: nat, nb: nat,
                                    d: RewiringDraws)
    requires Consistent(t, n) && DyadsOver(ds, n) && |ds| > 0 && DrawsFit(d, ds, nf, nb)
    ensures random ==> FlatAfterRewiring(mode, random, t, n, cap, ds, nf, nb, d).fallbacks == 0
    ensures FlatAfterRewiring(mode, random, t, n, cap, ds, nf, nb, d).fallbacks == 0 ==>
              Consistent(FlatAfterRewiring(mode, random, t, n, cap, ds, nf, nb, d).ties, n)
  {
    if random {
      PassesKeepConsistent(t, n, cap, ds, d.passShuffles, 0, nf, nb);
    } else {
      var b := PositiveBreaks(mode, t, n, ds, d.breakMarkers, d.breakShuffles, nb);
      ShufflesOfReordering(d.formShuffles, ds, b.dyads);
      var f := Openings(mode, b.ties, n, b.dyads, d.formMarkers, d.formShuffles, nf);
      assert FlatAfterRewiring(mode, random, t, n, cap, ds, nf, nb, d).fallbacks == b.fallbacks + f.fallbacks;
    }
  }

  /** Random rewiring is the primary variant's: given the same shuffles the two variants end in the same state. */
  lemma RandomRewiringShared(mode: Dynamics, t: Ties, n: nat, cap: nat, ds: seq<Dyad>, nf: nat, nb: nat,
                             d: RewiringDraws, sd: Simulation.StepDraws)
    requires Shaped(t, n) && DyadsOver(ds, n) && |ds| > 0 && DrawsFit(d, ds, nf, nb) && Simulation.RewireFits(sd, ds, nf, nb)
    requires sd.passShuffles == d.passShuffles
    ensures FlatAfterRewiring(mode, true, t, n, cap, ds, nf, nb, d) == Simulation.AfterRewiring(mode, true, t, n, cap, ds, nf, nb, sd)
  {
  }

  /** do_rewiring on values: random passes, or breaks then formations. */
  method FlatDoRewiring(mode: Dynamics, random: bool, t: Ties, n: nat, cap: nat, ds: seq<Dyad>, nf: nat, nb: nat, d: RewiringDraws)
    returns (r: Ties, dyads: seq<Dyad>, complete: bool)
    requires Shaped(t, n) && DyadsOver(ds, n) && |ds| > 0 && DrawsFit(d, ds, nf, nb)
    ensures r == FlatAfterRewiring(mode, random, t, n, cap, ds, nf, nb, d).ties
    ensures dyads == FlatAfterRewiring(mode, random, t, n, cap, ds, nf, nb, d).dyads
    ensures complete == FlatAfterRewiring(mode, random, t, n, cap, ds, nf, nb, d).complete
  {
    if random {
      r, dyads, complete := RandomRewiring(t, n, cap, ds, nf, nb, d.passShuffles);
    } else {
      var b, after := FlatTieBreak(mode, t, n, ds, nb, d.breakMarkers, d.breakShuffles);
      ShufflesOfReordering(d.formShuffles, ds, after);
      r, dyads := FlatTieFormation(mode, b, n, after, nf, d.formMarkers, d.formShuffles);
      complete := true;
    }
  }
}
