// What one step of each rewiring routine does to the tie state, as pure
// functions of the state, the dyad list and the random inputs: a marker in
// [0, 1) for each roulette draw and, for each shuffle, the reordered dyad
// list it produces.
// The methods of the scenario class are proved against these functions.

module Rewiring {
  import opened Graphs
  import opened Wrappers
  import opened Roulette
  import opened Networks
  import Metrics

  // ---------------------------------------------------------------
  // A shuffle is given as its outcome: a list with the same multiset.
  // ---------------------------------------------------------------

  predicate IsShuffle(shuffled: seq<Dyad>, ds: seq<Dyad>)
  {
    multiset(shuffled) == multiset(ds)
  }

  /** A reordering keeps the length and keeps every entry a pair of distinct agents. */
  lemma ShuffleKeepsDyadsOver(shuffled: seq<Dyad>, ds: seq<Dyad>, n: nat)
    requires IsShuffle(shuffled, ds) && DyadsOver(ds, n)
    ensures |shuffled| == |ds| && DyadsOver(shuffled, n)
  {
    assert |multiset(shuffled)| == |multiset(ds)|;
    forall p | 0 <= p < |shuffled| ensures shuffled[p].0 < n && shuffled[p].1 < n && shuffled[p].0 != shuffled[p].1 {
      assert shuffled[p] in multiset(ds);
    }
  }

  /** Each shuffle outcome is a reordering of the list ds. */
  predicate Shuffles(shuffles: seq<seq<Dyad>>, ds: seq<Dyad>)
  {
    forall k :: 0 <= k < |shuffles| ==> IsShuffle(shuffles[k], ds)
  }

  /** Shuffles of a list are shuffles of any reordering of it. */
  lemma ShufflesOfReordering(shuffles: seq<seq<Dyad>>, ds: seq<Dyad>, reordered: seq<Dyad>)
    requires Shuffles(shuffles, ds) && IsShuffle(reordered, ds)
    ensures Shuffles(shuffles, reordered)
  {
  }

  predicate Markers(markers: seq<real>)
  {
    forall k :: 0 <= k < |markers| ==> 0.0 <= markers[k] < 1.0
  }

  /** The outcome of one round of a directed routine. */
  datatype Round = Round(ties: Ties, dyads: seq<Dyad>, fallback: bool, chosen: Dyad)

  /** The outcome of several rounds: the final state and list, and how many rounds fell back. */
  datatype Outcome = Outcome(ties: Ties, dyads: seq<Dyad>, fallbacks: nat)

  /** The roulette over w, normalised by its sum, stops at a position holding d. */
  predicate Picked(w: seq<real>, marker: real, ds: seq<Dyad>, d: Dyad)
  {
    Sum(w) != 0.0 && exists k :: 0 <= k < |ds| && ds[k] == d && Select(w, Sum(w), marker) == Some(k)
  }

  // ---------------------------------------------------------------
  // Directed tie formation
  // ---------------------------------------------------------------

  /** Distinct, not adjacent, not masked, and both informal counters under the cap. */
  predicate Formable(t: Ties, n: nat, cap: nat, d: Dyad)
    requires Shaped(t, n) && d.0 < n && d.1 < n
  {
    !t.network[d.0][d.1] && d.0 != d.1 && !t.limited[d.0][d.1]
    && t.degreeInformal[d.0] < cap && t.degreeInformal[d.1] < cap
  }

  /** The weight of each formable dyad, 0 elsewhere, in list order. */
  function FormationWeights(mode: Dynamics, t: Ties, n: nat, cap: nat, ds: seq<Dyad>): (w: seq<real>)
    requires Shaped(t, n) && DyadsOver(ds, n)
    ensures |w| == |ds|
  {
    seq(|ds|, k requires 0 <= k < |ds| =>
      if Formable(t, n, cap, ds[k]) then Weight(mode, t, n, ds[k].0, ds[k].1) else 0.0)
  }

  /**
   * One round of the formation loop.  When the weights sum to a non-zero
   * value the roulette picks a formable dyad of non-zero weight; otherwise
   * the list is reshuffled and its first dyad is taken whatever its state.
   */
  function FormationRound(mode: Dynamics, t: Ties, n: nat, cap: nat, ds: seq<Dyad>,
                          marker: real, shuffled: seq<Dyad>): (r: Round)
    requires Shaped(t, n) && DyadsOver(ds, n) && IsShuffle(shuffled, ds) && |ds| > 0
    requires 0.0 <= marker < 1.0
    ensures r.chosen.0 < n && r.chosen.1 < n && r.ties == Add(t, n, r.chosen.0, r.chosen.1)
    ensures r.fallback <==> Sum(FormationWeights(mode, t, n, cap, ds)) == 0.0
    ensures IsShuffle(r.dyads, ds) && DyadsOver(r.dyads, n) && |r.dyads| == |ds|
    ensures r.fallback ==> r.dyads == shuffled && r.chosen == shuffled[0]
    ensures !r.fallback ==> r.dyads == ds && Picked(FormationWeights(mode, t, n, cap, ds), marker, ds, r.chosen)
    ensures !r.fallback ==> Formable(t, n, cap, r.chosen) && Weight(mode, t, n, r.chosen.0, r.chosen.1) != 0.0
  {
    var w := FormationWeights(mode, t, n, cap, ds);
    var denom := Sum(w);
    if denom == 0.0 then
      ShuffleKeepsDyadsOver(shuffled, ds, n);
      Round(Add(t, n, shuffled[0].0, shuffled[0].1), shuffled, true, shuffled[0])
    else
      SelectFound(w, denom, marker);
      var k := Select(w, denom, marker).value;
      Round(Add(t, n, ds[k].0, ds[k].1), ds, false, ds[k])
  }

  /** The state after the given number of formation rounds. */
  function Formations(mode: Dynamics, t: Ties, n: nat, cap: nat, ds: seq<Dyad>,
                      markers: seq<real>, shuffles: seq<seq<Dyad>>, rounds: nat): (o: Outcome)
    requires Shaped(t, n) && DyadsOver(ds, n) && |ds| > 0 && Markers(markers) && Shuffles(shuffles, ds)
    requires rounds <= |markers| && rounds <= |shuffles|
    ensures Shaped(o.ties, n) && IsShuffle(o.dyads, ds) && DyadsOver(o.dyads, n) && |o.dyads| == |ds| && o.fallbacks <= rounds
    ensures o.ties.formal == t.formal && o.ties.limited == t.limited && o.ties.degreeFormal == t.degreeFormal
    ensures Total(o.ties.degreeInformal) == Total(t.degreeInformal) + 2 * rounds
    ensures Consistent(t, n) && o.fallbacks == 0 ==> Consistent(o.ties, n)
  {
    if rounds == 0 then Outcome(t, ds, 0)
    else
      var o := Formations(mode, t, n, cap, ds, markers, shuffles, rounds - 1);
      var r := FormationRound(mode, o.ties, n, cap, o.dyads, markers[rounds - 1], shuffles[rounds - 1]);
      if Consistent(o.ties, n) && !r.fallback then
        FormationRoundKeepsConsistent(mode, o.ties, n, cap, o.dyads, markers[rounds - 1], shuffles[rounds - 1]);
        Outcome(r.ties, r.dyads, o.fallbacks)
      else
        Outcome(r.ties, r.dyads, o.fallbacks + if r.fallback then 1 else 0)
  }

  /** One more round applies the round function to the state and list the earlier rounds left. */
  lemma FormationsStep(mode: Dynamics, t: Ties, n: nat, cap: nat, ds: seq<Dyad>,
                       markers: seq<real>, shuffles: seq<seq<Dyad>>, k: nat)
    requires Shaped(t, n) && DyadsOver(ds, n) && |ds| > 0 && Markers(markers) && Shuffles(shuffles, ds)
    requires k < |markers| && k < |shuffles|
    ensures var o := Formations(mode, t, n, cap, ds, markers, shuffles, k);
            IsShuffle(shuffles[k], o.dyads)
            && Formations(mode, t, n, cap, ds, markers, shuffles, k + 1).ties
               == FormationRound(mode, o.ties, n, cap, o.dyads, markers[k], shuffles[k]).ties
            && Formations(mode, t, n, cap, ds, markers, shuffles, k + 1).dyads
               == FormationRound(mode, o.ties, n, cap, o.dyads, markers[k], shuffles[k]).dyads
  {
  }

  lemma FormationRoundKeepsConsistent(mode: Dynamics, t: Ties, n: nat, cap: nat, ds: seq<Dyad>,
                                      marker: real, shuffled: seq<Dyad>)
    requires Consistent(t, n) && DyadsOver(ds, n) && IsShuffle(shuffled, ds) && |ds| > 0
    requires 0.0 <= marker < 1.0
    requires !FormationRound(mode, t, n, cap, ds, marker, shuffled).fallback
    ensures Consistent(FormationRound(mode, t, n, cap, ds, marker, shuffled).ties, n)
  {
    var r := FormationRound(mode, t, n, cap, ds, marker, shuffled);
    assert Formable(t, n, cap, r.chosen);
    AddKeepsConsistent(t, n, r.chosen.0, r.chosen.1);
  }

  /** A fallback round that lands on an existing tie leaves the degree counter above the row count. */
  lemma FormationFallbackDrifts(mode: Dynamics, t: Ties, n: nat, cap: nat, ds: seq<Dyad>,
                                marker: real, shuffled: seq<Dyad>)
    requires Consistent(t, n) && DyadsOver(ds, n) && IsShuffle(shuffled, ds) && |ds| > 0
    requires 0.0 <= marker < 1.0
    requires Sum(FormationWeights(mode, t, n, cap, ds)) == 0.0
    requires |shuffled| > 0 && shuffled[0].0 < n && shuffled[0].1 < n && t.network[shuffled[0].0][shuffled[0].1]
    ensures !Counted(FormationRound(mode, t, n, cap, ds, marker, shuffled).ties)
  {
    AddOnTieDrifts(t, n, shuffled[0].0, shuffled[0].1);
  }

  // ---------------------------------------------------------------
  // Directed tie break
  // ---------------------------------------------------------------

  /** The weight of each informal tie, 0 elsewhere, in list order. */
  function BreakWeights(mode: Dynamics, t: Ties, n: nat, ds: seq<Dyad>): (w: seq<real>)
    requires Shaped(t, n) && DyadsOver(ds, n)
    ensures |w| == |ds|
  {
    seq(|ds|, k requires 0 <= k < |ds| =>
      if t.informal[ds[k].0][ds[k].1] then Weight(mode, t, n, ds[k].0, ds[k].1) else 0.0)
  }

  /** Running maximum of the informal weights over the first k dyads, started at FloatMin. */
  function CutMax(mode: Dynamics, t: Ties, n: nat, ds: seq<Dyad>, k: nat): (m: real)
    requires Shaped(t, n) && DyadsOver(ds, n) && k <= |ds|
    ensures forall j :: 0 <= j < k && t.informal[ds[j].0][ds[j].1] ==> BreakWeights(mode, t, n, ds)[j] <= m
  {
    if k == 0 then Metrics.FloatMin
    else
      var m := CutMax(mode, t, n, ds, k - 1);
      var w := BreakWeights(mode, t, n, ds)[k - 1];
      if t.informal[ds[k - 1].0][ds[k - 1].1] && w > m then w else m
  }

  /** Each non-zero weight w becomes max - w, so ties at the maximum weight drop to 0. */
  function Inverted(w: seq<real>, max: real): (p: seq<real>)
    ensures |p| == |w|
  {
    seq(|w|, k requires 0 <= k < |w| => if w[k] != 0.0 then max - w[k] else 0.0)
  }

  function BreakProbabilities(mode: Dynamics, t: Ties, n: nat, ds: seq<Dyad>): seq<real>
    requires Shaped(t, n) && DyadsOver(ds, n)
  {
    Inverted(BreakWeights(mode, t, n, ds), CutMax(mode, t, n, ds, |ds|))
  }

  /**
   * One round of the break loop.  Off the fallback the chosen dyad is an
   * informal tie of non-zero weight strictly below the running maximum;
   * on the fallback the reshuffled list's first dyad is cut whatever it is.
   */
  function BreakRound(mode: Dynamics, t: Ties, n: nat, ds: seq<Dyad>, marker: real, shuffled: seq<Dyad>): (r: Round)
    requires Shaped(t, n) && DyadsOver(ds, n) && IsShuffle(shuffled, ds) && |ds| > 0
    requires 0.0 <= marker < 1.0
    ensures r.chosen.0 < n && r.chosen.1 < n && r.ties == Cut(t, n, r.chosen.0, r.chosen.1)
    ensures r.fallback <==> Sum(BreakProbabilities(mode, t, n, ds)) == 0.0
    ensures IsShuffle(r.dyads, ds) && DyadsOver(r.dyads, n) && |r.dyads| == |ds|
    ensures r.fallback ==> r.dyads == shuffled && r.chosen == shuffled[0]
    ensures !r.fallback ==> r.dyads == ds && Picked(BreakProbabilities(mode, t, n, ds), marker, ds, r.chosen)
    ensures !r.fallback ==> (t.informal[r.chosen.0][r.chosen.1]
              && 0.0 != Weight(mode, t, n, r.chosen.0, r.chosen.1) < CutMax(mode, t, n, ds, |ds|))
  {
    var p := BreakProbabilities(mode, t, n, ds);
    var denom := Sum(p);
    if denom == 0.0 then
      ShuffleKeepsDyadsOver(shuffled, ds, n);
      Round(Cut(t, n, shuffled[0].0, shuffled[0].1), shuffled, true, shuffled[0])
    else
      SelectFound(p, denom, marker);
      var k := Select(p, denom, marker).value;
      Round(Cut(t, n, ds[k].0, ds[k].1), ds, false, ds[k])
  }

  /** The state after the given number of break rounds. */
  function Breaks(mode: Dynamics, t: Ties, n: nat, ds: seq<Dyad>,
                  markers: seq<real>, shuffles: seq<seq<Dyad>>, rounds: nat): (o: Outcome)
    requires Shaped(t, n) && DyadsOver(ds, n) && |ds| > 0 && Markers(markers) && Shuffles(shuffles, ds)
    requires rounds <= |markers| && rounds <= |shuffles|
    ensures Shaped(o.ties, n) && IsShuffle(o.dyads, ds) && DyadsOver(o.dyads, n) && |o.dyads| == |ds| && o.fallbacks <= rounds
    ensures o.ties.formal == t.formal && o.ties.limited == t.limited && o.ties.degreeFormal == t.degreeFormal
    ensures Total(o.ties.degreeInformal) == Total(t.degreeInformal) - 2 * rounds
    ensures Consistent(t, n) && o.fallbacks == 0 ==> Consistent(o.ties, n)
  {
    if rounds == 0 then Outcome(t, ds, 0)
    else
      var o := Breaks(mode, t, n, ds, markers, shuffles, rounds - 1);
      var r := BreakRound(mode, o.ties, n, o.dyads, markers[rounds - 1], shuffles[rounds - 1]);
      if Consistent(o.ties, n) && !r.fallback then
        BreakRoundKeepsConsistent(mode, o.ties, n, o.dyads, markers[rounds - 1], shuffles[rounds - 1]);
        Outcome(r.ties, r.dyads, o.fallbacks)
      else
        Outcome(r.ties, r.dyads, o.fallbacks + if r.fallback then 1 else 0)
  }

  /** One more round applies the round function to the state and list the earlier rounds left. */
  lemma BreaksStep(mode: Dynamics, t: Ties, n: nat, ds: seq<Dyad>,
                   markers: seq<real>, shuffles: seq<seq<Dyad>>, k: nat)
    requires Shaped(t, n) && DyadsOver(ds, n) && |ds| > 0 && Markers(markers) && Shuffles(shuffles, ds)
    requires k < |markers| && k < |shuffles|
    ensures var o := Breaks(mode, t, n, ds, markers, shuffles, k);
            IsShuffle(shuffles[k], o.dyads)
            && Breaks(mode, t, n, ds, markers, shuffles, k + 1).ties
               == BreakRound(mode, o.ties, n, o.dyads, markers[k], shuffles[k]).ties
            && Breaks(mode, t, n, ds, markers, shuffles, k + 1).dyads
               == BreakRound(mode, o.ties, n, o.dyads, markers[k], shuffles[k]).dyads
  {
  }

  lemma BreakRoundKeepsConsistent(mode: Dynamics, t: Ties, n: nat, ds: seq<Dyad>, marker: real, shuffled: seq<Dyad>)
    requires Consistent(t, n) && DyadsOver(ds, n) && IsShuffle(shuffled, ds) && |ds| > 0
    requires 0.0 <= marker < 1.0
    requires !BreakRound(mode, t, n, ds, marker, shuffled).fallback
    ensures Consistent(BreakRound(mode, t, n, ds, marker, shuffled).ties, n)
  {
    var r := BreakRound(mode, t, n, ds, marker, shuffled);
    CutKeepsConsistent(t, n, r.chosen.0, r.chosen.1);
  }

  /** A fallback round that lands on a formal tie leaves a formal tie outside the network. */
  lemma BreakFallbackHitsFormal(mode: Dynamics, t: Ties, n: nat, ds: seq<Dyad>, marker: real, shuffled: seq<Dyad>)
    requires Consistent(t, n) && DyadsOver(ds, n) && IsShuffle(shuffled, ds) && |ds| > 0
    requires 0.0 <= marker < 1.0
    requires Sum(BreakProbabilities(mode, t, n, ds)) == 0.0
    requires |shuffled| > 0 && shuffled[0].0 < n && shuffled[0].1 < n && t.formal[shuffled[0].0][shuffled[0].1]
    ensures !Partitioned(BreakRound(mode, t, n, ds, marker, shuffled).ties, n)
  {
    CutOnFormalBreaksPartition(t, n, shuffled[0].0, shuffled[0].1);
  }

  // ---------------------------------------------------------------
  // Random rewiring
  // ---------------------------------------------------------------

  /** The state and the quotas left, after (part of) a pass over a shuffled list. */
  datatype Pass = Pass(ties: Ties, formLeft: nat, breakLeft: nat)

  /** Distinct, not adjacent, not masked, and at least one informal counter under the cap. */
  predicate RandomFormable(t: Ties, n: nat, cap: nat, d: Dyad)
    requires Shaped(t, n) && d.0 < n && d.1 < n
  {
    !t.network[d.0][d.1] && d.0 != d.1
    && (t.degreeInformal[d.0] < cap || t.degreeInformal[d.1] < cap) && !t.limited[d.0][d.1]
  }

  /** What one dyad of the pass does: cut it if informal and cuts are owed, else form it if allowed and owed. */
  function Visit(t: Ties, n: nat, cap: nat, d: Dyad, nf: nat, nb: nat): (r: Pass)
    requires Shaped(t, n) && d.0 < n && d.1 < n
    ensures Shaped(r.ties, n) && r.formLeft <= nf && r.breakLeft <= nb
    ensures r.ties.formal == t.formal && r.ties.limited == t.limited && r.ties.degreeFormal == t.degreeFormal
    ensures Total(r.ties.degreeInformal) == Total(t.degreeInformal) + 2 * (nf - r.formLeft) - 2 * (nb - r.breakLeft)
  {
    if t.informal[d.0][d.1] && nb > 0 then Pass(Cut(t, n, d.0, d.1), nf, nb - 1)
    else if nf > 0 && RandomFormable(t, n, cap, d) then Pass(Add(t, n, d.0, d.1), nf - 1, nb)
    else Pass(t, nf, nb)
  }

  /** The pass over ds from position p on, stopping as soon as both quotas reach 0. */
  function PassFrom(t: Ties, n: nat, cap: nat, ds: seq<Dyad>, p: nat, nf: nat, nb: nat): (r: Pass)
    requires Shaped(t, n) && DyadsOver(ds, n) && p <= |ds|
    ensures Shaped(r.ties, n) && r.formLeft <= nf && r.breakLeft <= nb
    ensures r.ties.formal == t.formal && r.ties.limited == t.limited && r.ties.degreeFormal == t.degreeFormal
    ensures Total(r.ties.degreeInformal) == Total(t.degreeInformal) + 2 * (nf - r.formLeft) - 2 * (nb - r.breakLeft)
    decreases |ds| - p
  {
    if p == |ds| then Pass(t, nf, nb)
    else
      var v := Visit(t, n, cap, ds[p], nf, nb);
      if v.formLeft == 0 && v.breakLeft == 0 then v
      else PassFrom(v.ties, n, cap, ds, p + 1, v.formLeft, v.breakLeft)
  }

  /** The state after some passes of random rewiring and the dyad list as last shuffled. */
  datatype Rewired = Rewired(last: Pass, dyads: seq<Dyad>, passes: nat)

  /**
   * The passes made with the shuffles from k on: each pass first reorders
   * the list, then walks it; passes repeat until both quotas are met or the
   * shuffles run out.
   */
  function PassesFrom(t: Ties, n: nat, cap: nat, ds: seq<Dyad>, shuffles: seq<seq<Dyad>>, k: nat, nf: nat, nb: nat): (o: Rewired)
    requires Shaped(t, n) && DyadsOver(ds, n) && Shuffles(shuffles, ds) && k < |shuffles|
    ensures Shaped(o.last.ties, n) && o.last.formLeft <= nf && o.last.breakLeft <= nb && k < o.passes <= |shuffles|
    ensures IsShuffle(o.dyads, ds)
    ensures o.last.ties.formal == t.formal && o.last.ties.limited == t.limited && o.last.ties.degreeFormal == t.degreeFormal
    ensures Total(o.last.ties.degreeInformal) == Total(t.degreeInformal) + 2 * (nf - o.last.formLeft) - 2 * (nb - o.last.breakLeft)
    ensures o.passes < |shuffles| ==> o.last.formLeft == 0 && o.last.breakLeft == 0
    decreases |shuffles| - k
  {
    var shuffled := shuffles[k];
    ShuffleKeepsDyadsOver(shuffled, ds, n);
    var r := PassFrom(t, n, cap, shuffled, 0, nf, nb);
    if (r.formLeft == 0 && r.breakLeft == 0) || k + 1 == |shuffles| then Rewired(r, shuffled, k + 1)
    else PassesFrom(r.ties, n, cap, ds, shuffles, k + 1, r.formLeft, r.breakLeft)
  }

  /**
   * One more pass: r is the walk over shuffles[k]; then the passes end
   * there if the quotas are met or the shuffles run out, and go on from r
   * otherwise.
   */
  lemma PassesStep(t: Ties, n: nat, cap: nat, ds: seq<Dyad>, shuffles: seq<seq<Dyad>>, k: nat, nf: nat, nb: nat, r: Pass)
    requires Shaped(t, n) && DyadsOver(ds, n) && Shuffles(shuffles, ds) && k < |shuffles| && DyadsOver(shuffles[k], n)
    requires r == PassFrom(t, n, cap, shuffles[k], 0, nf, nb)
    ensures (r.formLeft == 0 && r.breakLeft == 0) || k + 1 == |shuffles| ==>
              PassesFrom(t, n, cap, ds, shuffles, k, nf, nb) == Rewired(r, shuffles[k], k + 1)
    ensures !((r.formLeft == 0 && r.breakLeft == 0) || k + 1 == |shuffles|) ==>
              PassesFrom(t, n, cap, ds, shuffles, k, nf, nb) == PassesFrom(r.ties, n, cap, ds, shuffles, k + 1, r.formLeft, r.breakLeft)
  {
  }

  /**
   * A pass only cuts informal ties and only forms ties at non-adjacent
   * distinct dyads, so it keeps the invariant; the informal counters move by
   * two per tie formed and minus two per tie cut.
   */
  lemma {:induction false} PassKeepsConsistent(t: Ties, n: nat, cap: nat, ds: seq<Dyad>, p: nat, nf: nat, nb: nat)
    requires Consistent(t, n) && DyadsOver(ds, n) && p <= |ds|
    ensures Consistent(PassFrom(t, n, cap, ds, p, nf, nb).ties, n)
    decreases |ds| - p
  {
    if p < |ds| {
      var d := ds[p];
      var v := Visit(t, n, cap, d, nf, nb);
      if t.informal[d.0][d.1] && nb > 0 {
        CutKeepsConsistent(t, n, d.0, d.1);
      } else if nf > 0 && RandomFormable(t, n, cap, d) {
        AddKeepsConsistent(t, n, d.0, d.1);
      }
      if !(v.formLeft == 0 && v.breakLeft == 0) {
        PassKeepsConsistent(v.ties, n, cap, ds, p + 1, v.formLeft, v.breakLeft);
      }
    }
  }

  lemma {:induction false} PassesKeepConsistent(t: Ties, n: nat, cap: nat, ds: seq<Dyad>, shuffles: seq<seq<Dyad>>, k: nat, nf: nat, nb: nat)
    requires Consistent(t, n) && DyadsOver(ds, n) && Shuffles(shuffles, ds) && k < |shuffles|
    ensures Consistent(PassesFrom(t, n, cap, ds, shuffles, k, nf, nb).last.ties, n)
    decreases |shuffles| - k
  {
    var shuffled := shuffles[k];
    ShuffleKeepsDyadsOver(shuffled, ds, n);
    PassKeepsConsistent(t, n, cap, shuffled, 0, nf, nb);
    var r := PassFrom(t, n, cap, shuffled, 0, nf, nb);
    if !((r.formLeft == 0 && r.breakLeft == 0) || k + 1 == |shuffles|) {
      PassesKeepConsistent(r.ties, n, cap, ds, shuffles, k + 1, r.formLeft, r.breakLeft);
    }
  }

  /** Every pair of distinct agents is tied. */
  predicate Saturated(t: Ties, n: nat)
    requires Shaped(t, n)
  {
    forall i, j :: 0 <= i < n && 0 <= j < n && i != j ==> t.network[i][j]
  }

  /**
   * With no cuts owed and every dyad already tied, a pass changes nothing and
   * the formation quota stays as it was: the outer loop can never finish.
   */
  lemma {:induction false} SaturatedPassStalls(t: Ties, n: nat, cap: nat, ds: seq<Dyad>, p: nat, nf: nat)
    requires Shaped(t, n) && Saturated(t, n) && DyadsOver(ds, n) && p <= |ds| && nf > 0
    ensures PassFrom(t, n, cap, ds, p, nf, 0) == Pass(t, nf, 0)
    decreases |ds| - p
  {
    if p < |ds| {
      SaturatedPassStalls(t, n, cap, ds, p + 1, nf);
    }
  }
}
