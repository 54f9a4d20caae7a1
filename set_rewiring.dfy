// Random rewiring in the HashSet variant.  The dyad list is a vector, as in
// the matrix variant, and is shuffled in place before every pass; the walk
// over it reads set membership and set sizes where the matrix variant reads
// matrix entries and counters.  Under the tie invariant the walk acts on
// the view exactly as the matrix variant's walk does.

module SetRewiring {
  import opened Graphs
  import opened Networks
  import opened Rewiring
  import opened SetAnalysis
  import opened SetScenario

  /** The state and the quotas left, after (part of) a pass over the shuffled list. */
  datatype SetPass = SetPass(ties: SetTies, formLeft: nat, breakLeft: nat)

  /** Distinct, not adjacent, not masked, and at least one informal set under the cap. */
  predicate OpenPair(t: SetTies, n: nat, cap: nat, d: Dyad)
    requires Over(t, n) && d.0 < n && d.1 < n
  {
    d.1 !in t.network[d.0] && d.0 != d.1
    && (|t.informal[d.0]| < cap || |t.informal[d.1]| < cap) && d.1 !in t.limited[d.0]
  }

  /** What one dyad of the pass does: cut it if informal and cuts are owed, else form it if open and owed. */
  function VisitPair(t: SetTies, n: nat, cap: nat, d: Dyad, nf: nat, nb: nat): (r: SetPass)
    requires Over(t, n) && Simple(t) && d.0 < n && d.1 < n
    ensures Over(r.ties, n) && Simple(r.ties) && r.ties.formal == t.formal && r.ties.limited == t.limited
    ensures r.formLeft <= nf && r.breakLeft <= nb
  {
    if d.1 in t.informal[d.0] && nb > 0 then
      CutTieKeepsSimple(t, n, d.0, d.1);
      SetPass(CutTie(t, d.0, d.1), nf, nb - 1)
    else if nf > 0 && OpenPair(t, n, cap, d) then
      FormTieKeepsSimple(t, n, d.0, d.1);
      SetPass(FormTie(t, d.0, d.1), nf - 1, nb)
    else SetPass(t, nf, nb)
  }

  /** The pass over ds from position p on, stopping as soon as both quotas reach 0. */
  function PassOver(t: SetTies, n: nat, cap: nat, ds: seq<Dyad>, p: nat, nf: nat, nb: nat): (r: SetPass)
    requires Over(t, n) && Simple(t) && DyadsOver(ds, n) && p <= |ds|
    ensures Over(r.ties, n) && Simple(r.ties) && r.ties.formal == t.formal && r.ties.limited == t.limited
    ensures r.formLeft <= nf && r.breakLeft <= nb
    decreases |ds| - p
  {
    if p == |ds| then SetPass(t, nf, nb)
    else
      var v := VisitPair(t, n, cap, ds[p], nf, nb);
      if v.formLeft == 0 && v.breakLeft == 0 then v
      else PassOver(v.ties, n, cap, ds, p + 1, v.formLeft, v.breakLeft)
  }

  /** The state after some passes, the list as last shuffled, and how many passes were made. */
  datatype SetRewired = SetRewired(last: SetPass, dyads: seq<Dyad>, passes: nat)

  /**
   * The passes made with the shuffles from k on: each pass first reorders
   * the list, then walks it; passes repeat until both quotas are met or the
   * shuffles run out.
   */
  function PassesOver(t: SetTies, n: nat, cap: nat, ds: seq<Dyad>, shuffles: seq<seq<Dyad>>, k: nat, nf: nat, nb: nat): (o: SetRewired)
    requires Over(t, n) && Simple(t) && DyadsOver(ds, n) && Shuffles(shuffles, ds) && k < |shuffles|
    ensures Over(o.last.ties, n) && Simple(o.last.ties)
    ensures o.last.ties.formal == t.formal && o.last.ties.limited == t.limited
    ensures o.last.formLeft <= nf && o.last.breakLeft <= nb && k < o.passes <= |shuffles|
    ensures IsShuffle(o.dyads, ds)
    ensures o.passes < |shuffles| ==> o.last.formLeft == 0 && o.last.breakLeft == 0
    decreases |shuffles| - k
  {
    var shuffled := shuffles[k];
    ShuffleKeepsDyadsOver(shuffled, ds, n);
    var r := PassOver(t, n, cap, shuffled, 0, nf, nb);
    if (r.formLeft == 0 && r.breakLeft == 0) || k + 1 == |shuffles| then SetRewired(r, shuffled, k + 1)
    else PassesOver(r.ties, n, cap, ds, shuffles, k + 1, r.formLeft, r.breakLeft)
  }

  // ---------------------------------------------------------------
  // The tie invariant and the informal degree total
  // ---------------------------------------------------------------

  /** A new tie at two distinct agents not yet tied keeps the invariant. */
  lemma FormTieKeepsTidy(t: SetTies, n: nat, f: nat, g: nat)
    requires Over(t, n) && Tidy(t, n) && f < n && g < n && f != g && g !in t.network[f]
    ensures Over(FormTie(t, f, g), n) && Tidy(FormTie(t, f, g), n)
  {
    FormTieKeepsSimple(t, n, f, g);
    assert f !in t.network[g];
  }

  /** Cutting an informal tie keeps the invariant. */
  lemma CutTieKeepsTidy(t: SetTies, n: nat, f: nat, g: nat)
    requires Over(t, n) && Tidy(t, n) && f < n && g < n && g in t.informal[f]
    ensures Over(CutTie(t, f, g), n) && Tidy(CutTie(t, f, g), n)
  {
    CutTieKeepsSimple(t, n, f, g);
    assert f in t.informal[g] && g !in t.formal[f] && f !in t.formal[g];
  }

  /**
   * Under the invariant every visit keeps it, and the informal degrees sum
   * to two more per tie formed and two fewer per tie cut.
   */
  lemma VisitEffect(t: SetTies, n: nat, cap: nat, d: Dyad, nf: nat, nb: nat)
    requires Over(t, n) && Tidy(t, n) && d.0 < n && d.1 < n
    ensures Tidy(VisitPair(t, n, cap, d, nf, nb).ties, n)
    ensures Total(Sizes(VisitPair(t, n, cap, d, nf, nb).ties.informal))
            == Total(Sizes(t.informal)) + 2 * (nf - VisitPair(t, n, cap, d, nf, nb).formLeft)
                                        - 2 * (nb - VisitPair(t, n, cap, d, nf, nb).breakLeft)
  {
    var (f, g) := d;
    if g in t.informal[f] && nb > 0 {
      CutTieKeepsTidy(t, n, f, g);
      PartSizes(t.informal, f, g);
      BumpTotal(Sizes(t.informal), f, g, -1);
    } else if nf > 0 && OpenPair(t, n, cap, d) {
      FormTieKeepsTidy(t, n, f, g);
      assert g !in t.informal[f] && f !in t.informal[g];
      JoinSizes(t.informal, f, g);
      BumpTotal(Sizes(t.informal), f, g, 1);
    }
  }

  lemma {:induction false} PassEffect(t: SetTies, n: nat, cap: nat, ds: seq<Dyad>, p: nat, nf: nat, nb: nat)
    requires Over(t, n) && Tidy(t, n) && DyadsOver(ds, n) && p <= |ds|
    ensures Tidy(PassOver(t, n, cap, ds, p, nf, nb).ties, n)
    ensures Total(Sizes(PassOver(t, n, cap, ds, p, nf, nb).ties.informal))
            == Total(Sizes(t.informal)) + 2 * (nf - PassOver(t, n, cap, ds, p, nf, nb).formLeft)
                                        - 2 * (nb - PassOver(t, n, cap, ds, p, nf, nb).breakLeft)
    decreases |ds| - p
  {
    if p < |ds| {
      VisitEffect(t, n, cap, ds[p], nf, nb);
      var v := VisitPair(t, n, cap, ds[p], nf, nb);
      if !(v.formLeft == 0 && v.breakLeft == 0) {
        PassEffect(v.ties, n, cap, ds, p + 1, v.formLeft, v.breakLeft);
      }
    }
  }

  /** Over all passes: the invariant is kept and the informal total moves by the quotas spent. */
  lemma {:induction false} PassesEffect(t: SetTies, n: nat, cap: nat, ds: seq<Dyad>, shuffles: seq<seq<Dyad>>, k: nat, nf: nat, nb: nat)
    requires Over(t, n) && Tidy(t, n) && DyadsOver(ds, n) && Shuffles(shuffles, ds) && k < |shuffles|
    ensures Tidy(PassesOver(t, n, cap, ds, shuffles, k, nf, nb).last.ties, n)
    ensures Total(Sizes(PassesOver(t, n, cap, ds, shuffles, k, nf, nb).last.ties.informal))
            == Total(Sizes(t.informal)) + 2 * (nf - PassesOver(t, n, cap, ds, shuffles, k, nf, nb).last.formLeft)
                                        - 2 * (nb - PassesOver(t, n, cap, ds, shuffles, k, nf, nb).last.breakLeft)
    decreases |shuffles| - k
  {
    var shuffled := shuffles[k];
    ShuffleKeepsDyadsOver(shuffled, ds, n);
    PassEffect(t, n, cap, shuffled, 0, nf, nb);
    var r := PassOver(t, n, cap, shuffled, 0, nf, nb);
    if !((r.formLeft == 0 && r.breakLeft == 0) || k + 1 == |shuffles|) {
      PassesEffect(r.ties, n, cap, ds, shuffles, k + 1, r.formLeft, r.breakLeft);
    }
  }

  // ---------------------------------------------------------------
  // The same walk as the matrix variant's
  // ---------------------------------------------------------------

  /** The visit's two tests read the same on the sets and on the view. */
  lemma VisitTestsAgree(t: SetTies, n: nat, cap: nat, d: Dyad)
    requires Over(t, n) && d.0 < n && d.1 < n
    ensures Shaped(View(t), n)
    ensures View(t).informal[d.0][d.1] == (d.1 in t.informal[d.0])
    ensures RandomFormable(View(t), n, cap, d) == OpenPair(t, n, cap, d)
  {
    ViewShaped(t, n);
  }

  /** Under the invariant a visit acts on the view as the matrix variant's visit does. */
  lemma VisitIsVisit(t: SetTies, n: nat, cap: nat, d: Dyad, nf: nat, nb: nat)
    requires Over(t, n) && Tidy(t, n) && d.0 < n && d.1 < n
    ensures Shaped(View(t), n)
    ensures View(VisitPair(t, n, cap, d, nf, nb).ties) == Visit(View(t), n, cap, d, nf, nb).ties
    ensures VisitPair(t, n, cap, d, nf, nb).formLeft == Visit(View(t), n, cap, d, nf, nb).formLeft
    ensures VisitPair(t, n, cap, d, nf, nb).breakLeft == Visit(View(t), n, cap, d, nf, nb).breakLeft
  {
    VisitTestsAgree(t, n, cap, d);
    TidyIsConsistent(t, n);
    var (f, g) := d;
    if g in t.informal[f] && nb > 0 {
      CutTieIsCut(t, n, f, g);
    } else if nf > 0 && OpenPair(t, n, cap, d) {
      FormTieIsAdd(t, n, f, g);
    }
  }

  /** Under the invariant a pass acts on the view as the matrix variant's pass does. */
  lemma {:induction false} PassIsPass(t: SetTies, n: nat, cap: nat, ds: seq<Dyad>, p: nat, nf: nat, nb: nat)
    requires Over(t, n) && Tidy(t, n) && DyadsOver(ds, n) && p <= |ds|
    ensures Shaped(View(t), n)
    ensures View(PassOver(t, n, cap, ds, p, nf, nb).ties) == PassFrom(View(t), n, cap, ds, p, nf, nb).ties
    ensures PassOver(t, n, cap, ds, p, nf, nb).formLeft == PassFrom(View(t), n, cap, ds, p, nf, nb).formLeft
    ensures PassOver(t, n, cap, ds, p, nf, nb).breakLeft == PassFrom(View(t), n, cap, ds, p, nf, nb).breakLeft
    decreases |ds| - p
  {
    ViewShaped(t, n);
    if p < |ds| {
      VisitIsVisit(t, n, cap, ds[p], nf, nb);
      VisitEffect(t, n, cap, ds[p], nf, nb);
      var v := VisitPair(t, n, cap, ds[p], nf, nb);
      if !(v.formLeft == 0 && v.breakLeft == 0) {
        PassIsPass(v.ties, n, cap, ds, p + 1, v.formLeft, v.breakLeft);
      }
    }
  }

  /** Under the invariant the passes act on the view as the matrix variant's passes do. */
  lemma {:induction false} PassesArePasses(t: SetTies, n: nat, cap: nat, ds: seq<Dyad>, shuffles: seq<seq<Dyad>>, k: nat, nf: nat, nb: nat)
    requires Over(t, n) && Tidy(t, n) && DyadsOver(ds, n) && Shuffles(shuffles, ds) && k < |shuffles|
    ensures Shaped(View(t), n)
    ensures View(PassesOver(t, n, cap, ds, shuffles, k, nf, nb).last.ties) == PassesFrom(View(t), n, cap, ds, shuffles, k, nf, nb).last.ties
    ensures PassesOver(t, n, cap, ds, shuffles, k, nf, nb).last.formLeft == PassesFrom(View(t), n, cap, ds, shuffles, k, nf, nb).last.formLeft
    ensures PassesOver(t, n, cap, ds, shuffles, k, nf, nb).last.breakLeft == PassesFrom(View(t), n, cap, ds, shuffles, k, nf, nb).last.breakLeft
    ensures PassesOver(t, n, cap, ds, shuffles, k, nf, nb).passes == PassesFrom(View(t), n, cap, ds, shuffles, k, nf, nb).passes
    decreases |shuffles| - k
  {
    ViewShaped(t, n);
    var shuffled := shuffles[k];
    ShuffleKeepsDyadsOver(shuffled, ds, n);
    PassIsPass(t, n, cap, shuffled, 0, nf, nb);
    PassEffect(t, n, cap, shuffled, 0, nf, nb);
    var r := PassOver(t, n, cap, shuffled, 0, nf, nb);
    if !((r.formLeft == 0 && r.breakLeft == 0) || k + 1 == |shuffles|) {
      PassesArePasses(r.ties, n, cap, ds, shuffles, k + 1, r.formLeft, r.breakLeft);
    }
  }

  // ---------------------------------------------------------------
  // The routine
  // ---------------------------------------------------------------

  /** The body of the inner loop for one dyad. */
  method VisitDyad(t: SetTies, n: nat, cap: nat, d: Dyad, nf: nat, nb: nat) returns (r: SetTies, formLeft: nat, breakLeft: nat)
    requires Over(t, n) && Simple(t) && d.0 < n && d.1 < n
    ensures SetPass(r, formLeft, breakLeft) == VisitPair(t, n, cap, d, nf, nb)
  {
    var (f, g) := d;
    r, formLeft, breakLeft := t, nf, nb;
    if g in t.informal[f] && nb > 0 {
      r := CutTie(t, f, g);
      breakLeft := nb - 1;
    } else if nf > 0 && g !in t.network[f] && f != g
              && (|t.informal[f]| < cap || |t.informal[g]| < cap) && g !in t.limited[f] {
      r := FormTie(t, f, g);
      formLeft := nf - 1;
    }
  }

  /** The inner loop over the list as just shuffled, left as soon as both quotas are met. */
  method RandomPass(t: SetTies, n: nat, cap: nat, ds: seq<Dyad>, nf: nat, nb: nat) returns (r: SetTies, formLeft: nat, breakLeft: nat)
    requires Over(t, n) && Simple(t) && DyadsOver(ds, n)
    ensures SetPass(r, formLeft, breakLeft) == PassOver(t, n, cap, ds, 0, nf, nb)
  {
    r, formLeft, breakLeft := t, nf, nb;
    for p := 0 to |ds|
      invariant Over(r, n) && Simple(r)
      invariant PassOver(r, n, cap, ds, p, formLeft, breakLeft) == PassOver(t, n, cap, ds, 0, nf, nb)
    {
      r, formLeft, breakLeft := VisitDyad(r, n, cap, ds[p], formLeft, breakLeft);
      if formLeft == 0 && breakLeft == 0 {
        return;
      }
    }
  }

  /**
   * do_random_rewiring: pass after pass, each over a fresh shuffle of the
   * list, until both quotas are met.  The source repeats for ever when they
   * cannot be; here the passes are bounded by the shuffles given, and
   * complete says whether the quotas were met.
   */
  method DoRandomRewiring(t: SetTies, n: nat, cap: nat, ds: seq<Dyad>, shuffles: seq<seq<Dyad>>, nf: nat, nb: nat)
    returns (r: SetTies, dyads: seq<Dyad>, complete: bool)
    requires Over(t, n) && Simple(t) && DyadsOver(ds, n) && Shuffles(shuffles, ds) && |shuffles| > 0
    ensures r == PassesOver(t, n, cap, ds, shuffles, 0, nf, nb).last.ties
    ensures dyads == PassesOver(t, n, cap, ds, shuffles, 0, nf, nb).dyads
    ensures complete <==> PassesOver(t, n, cap, ds, shuffles, 0, nf, nb).last == SetPass(r, 0, 0)
  {
    ghost var goal := PassesOver(t, n, cap, ds, shuffles, 0, nf, nb);
    var formLeft, breakLeft := nf, nb;
    var k := 0;
    r, dyads, complete := t, ds, false;
    while !complete && k < |shuffles|
      invariant Over(r, n) && Simple(r) && k <= |shuffles|
      invariant !complete && k < |shuffles| ==> PassesOver(r, n, cap, ds, shuffles, k, formLeft, breakLeft) == goal
      invariant complete || k == |shuffles| ==> goal == SetRewired(SetPass(r, formLeft, breakLeft), dyads, k)
      invariant complete <==> k > 0 && formLeft == 0 && breakLeft == 0
      decreases |shuffles| - k
    {
      dyads := shuffles[k];
      ShuffleKeepsDyadsOver(dyads, ds, n);
      r, formLeft, breakLeft := RandomPass(r, n, cap, dyads, formLeft, breakLeft);
      k := k + 1;
      complete := formLeft == 0 && breakLeft == 0;
    }
  }

  /**
   * The ties and the dyad list after do_rewiring: the random passes when
   * random rewiring is set, otherwise nf directed formation rounds followed
   * by nb directed break rounds, the list left as it was.
   */
  function RewiredSets(mode: Dynamics, random: bool, t: SetTies, n: nat, cap: nat, ds: seq<Dyad>, nf: nat, nb: nat,
                       shuffles: seq<seq<Dyad>>, formMarkers: seq<real>, breakMarkers: seq<real>, breakDraws: seq<seq<nat>>)
    : (r: (SetTies, seq<Dyad>))
    requires Over(t, n) && Simple(t) && DyadsOver(ds, n) && Shuffles(shuffles, ds) && |shuffles| > 0
    requires Markers(formMarkers) && nf <= |formMarkers| && Markers(breakMarkers) && nb <= |breakMarkers| && nb <= |breakDraws|
    ensures Over(r.0, n) && Simple(r.0) && r.0.formal == t.formal && r.0.limited == t.limited
    ensures IsShuffle(r.1, ds)
  {
    if random then
      var o := PassesOver(t, n, cap, ds, shuffles, 0, nf, nb);
      (o.last.ties, o.dyads)
    else
      var formed := FormationRounds(mode, t, n, cap, ds, formMarkers, nf);
      (BreakRounds(mode, formed.ties, n, breakMarkers, breakDraws, nb), ds)
  }

  /**
   * do_rewiring: random passes when random rewiring is set, otherwise nf
   * directed formations and then nb directed breaks.  complete says that no
   * routine was left unfinished (quotas unmet, or a directed round with
   * nothing to pick).  Formal ties and the mask never change, and the tie
   * invariant is kept by the random passes and by directed rounds that did
   * not fall back on the uniform formation pick.
   */
  method DoRewiring(mode: Dynamics, random: bool, t: SetTies, n: nat, cap: nat, ds: seq<Dyad>, nf: nat, nb: nat,
                    shuffles: seq<seq<Dyad>>, formMarkers: seq<real>, breakMarkers: seq<real>, breakDraws: seq<seq<nat>>)
    returns (r: SetTies, dyads: seq<Dyad>, complete: bool, ghost fallbacks: nat)
    requires Over(t, n) && Simple(t) && DyadsOver(ds, n) && Shuffles(shuffles, ds) && |shuffles| > 0
    requires Markers(formMarkers) && nf <= |formMarkers| && Markers(breakMarkers) && nb <= |breakMarkers| && nb <= |breakDraws|
    ensures (r, dyads) == RewiredSets(mode, random, t, n, cap, ds, nf, nb, shuffles, formMarkers, breakMarkers, breakDraws)
    ensures random ==> (complete <==> PassesOver(t, n, cap, ds, shuffles, 0, nf, nb).last == SetPass(r, 0, 0))
                       && fallbacks == 0
    ensures !random ==> fallbacks == FormationRounds(mode, t, n, cap, ds, formMarkers, nf).fallbacks && fallbacks <= nf
    ensures fallbacks == 0 && Tidy(t, n) ==> Tidy(r, n)
  {
    if random {
      r, dyads, complete := DoRandomRewiring(t, n, cap, ds, shuffles, nf, nb);
      fallbacks := 0;
      if Tidy(t, n) {
        PassesEffect(t, n, cap, ds, shuffles, 0, nf, nb);
      }
    } else {
      var formed, stuckForming;
      formed, stuckForming, fallbacks := DoTieFormation(mode, t, n, cap, ds, nf, formMarkers);
      var stuckBreaking;
      r, stuckBreaking := DoTieBreak(mode, formed, n, nb, breakMarkers, breakDraws);
      dyads, complete := ds, !stuckForming && !stuckBreaking;
    }
  }
}
