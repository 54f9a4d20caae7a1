// The older flat-belief scenario (test2): its dyad index map and its
// initial network.  The hierarchy, the enforcement loop and the level mask
// are those of the primary variant (modules Hierarchy and Initial); what
// differs is the additional-links loop, which here moves every counter it
// should.

module FlatInit {
  import opened Graphs
  import opened Networks
  import opened Initial
  import Hierarchy

  /**
   * Scenario::new's dyad index map: the pairs i < j in lexicographic order,
   * N_DYAD of them, and the index list starting as the identity.
   */
  method DyadIndex(n: nat) returns (index: seq<nat>, pairs: seq<Dyad>)
    ensures pairs == AllDyads(n) && |pairs| == PairCount(n)
    ensures |index| == |pairs| && forall d :: 0 <= d < |index| ==> index[d] == d
  {
    index, pairs := [], [];
    for i := 0 to n
      invariant pairs == DyadRows(n, i)
      invariant |index| == |pairs| && forall d :: 0 <= d < |index| ==> index[d] == d
    {
      for j := i to n
        invariant pairs == DyadRows(n, i) + seq(if j == i then 0 else j - i - 1, k => (i, i + 1 + k))
        invariant |index| == |pairs| && forall d :: 0 <= d < |index| ==> index[d] == d
      {
        if i == j {
          continue;
        }
        index := index + [|pairs|];
        pairs := pairs + [(i, j)];
      }
      assert DyadRows(n, i + 1) == DyadRows(n, i) + DyadRow(n, i);
    }
    AllDyadsShape(n);
  }

  // ---------------------------------------------------------------
  // Additional links, with the counters kept
  // ---------------------------------------------------------------

  /**
   * A tie added by test2's additional-links loop: set in the network and in
   * the part its draw selects, with the overall counter and that part's
   * counter raised at both ends.
   */
  function Admit(t: Ties, n: nat, f: nat, g: nat, enforced: bool): (r: Ties)
    requires Shaped(t, n) && f < n && g < n
    ensures Shaped(r, n) && r.limited == t.limited
    ensures r.network == Attach(t, n, f, g, enforced).network
    ensures r.formal == Attach(t, n, f, g, enforced).formal && r.informal == Attach(t, n, f, g, enforced).informal
    ensures enforced ==> r.degreeInformal == t.degreeInformal
    ensures !enforced ==> r.degreeFormal == t.degreeFormal
  {
    var u := if enforced then t.(formal := Link(t.formal, f, g, true), degreeFormal := Bump(t.degreeFormal, f, g, 1))
             else t.(informal := Link(t.informal, f, g, true), degreeInformal := Bump(t.degreeInformal, f, g, 1));
    u.(network := Link(t.network, f, g, true), degree := Bump(t.degree, f, g, 1))
  }

  /** Tying an open dyad of distinct agents this way keeps the whole invariant, counters included. */
  lemma AdmitKeepsConsistent(t: Ties, n: nat, f: nat, g: nat, enforced: bool)
    requires Consistent(t, n) && f < n && g < n && f != g && !t.network[f][g]
    ensures Consistent(Admit(t, n, f, g, enforced), n)
  {
    var r := Admit(t, n, f, g, enforced);
    AttachKeepsPartition(t, n, f, g, enforced);
    assert Partitioned(r, n);
    LinkKeepsDegrees(t.network, t.degree, f, g, true);
    if enforced {
      LinkKeepsDegrees(t.formal, t.degreeFormal, f, g, true);
    } else {
      LinkKeepsDegrees(t.informal, t.degreeInformal, f, g, true);
    }
  }

  /**
   * The pass over ds from position p on: each open dyad (not tied, one end
   * under the informal cap) is tied, formal when its draw is below the
   * enforcement level, until no addition is owed.
   */
  function AdmissionsFrom(t: Ties, n: nat, cap: nat, ds: seq<Dyad>, p: nat, draws: seq<real>, enforcement: real,
                          left: nat, used: nat): (r: Added)
    requires Shaped(t, n) && DyadsOver(ds, n) && p <= |ds| && used + left <= |draws|
    ensures Shaped(r.ties, n) && r.left <= left && r.used + r.left == used + left
    ensures r.ties.limited == t.limited
    decreases |ds| - p
  {
    if p == |ds| || left == 0 then Added(t, left, used)
    else if Open(t, n, cap, ds[p]) then
      AdmissionsFrom(Admit(t, n, ds[p].0, ds[p].1, draws[used] < enforcement), n, cap, ds, p + 1, draws, enforcement, left - 1, used + 1)
    else AdmissionsFrom(t, n, cap, ds, p + 1, draws, enforcement, left, used)
  }

  /** Every addition keeps the invariant, so the pass does. */
  lemma {:induction false} AdmissionsKeepConsistent(t: Ties, n: nat, cap: nat, ds: seq<Dyad>, p: nat, draws: seq<real>,
                                                    enforcement: real, left: nat, used: nat)
    requires Consistent(t, n) && DyadsOver(ds, n) && p <= |ds| && used + left <= |draws|
    ensures Consistent(AdmissionsFrom(t, n, cap, ds, p, draws, enforcement, left, used).ties, n)
    decreases |ds| - p, 1
  {
    if p < |ds| && left > 0 {
      if Open(t, n, cap, ds[p]) {
        AdmissionKeepsConsistent(t, n, cap, ds, p, draws, enforcement, left, used);
      } else {
        AdmissionsKeepConsistent(t, n, cap, ds, p + 1, draws, enforcement, left, used);
      }
    }
  }

  /** The step of AdmissionsKeepConsistent where the dyad at p is open and gets tied. */
  lemma {:induction false} AdmissionKeepsConsistent(t: Ties, n: nat, cap: nat, ds: seq<Dyad>, p: nat, draws: seq<real>,
                                                    enforcement: real, left: nat, used: nat)
    requires Consistent(t, n) && DyadsOver(ds, n) && p < |ds| && 0 < left && used + left <= |draws| && Open(t, n, cap, ds[p])
    ensures Consistent(AdmissionsFrom(t, n, cap, ds, p, draws, enforcement, left, used).ties, n)
    decreases |ds| - p, 0
  {
    var d := ds[p];
    var t' := Admit(t, n, d.0, d.1, draws[used] < enforcement);
    AdmitKeepsConsistent(t, n, d.0, d.1, draws[used] < enforcement);
    AdmissionsKeepConsistent(t', n, cap, ds, p + 1, draws, enforcement, left - 1, used + 1);
    assert AdmissionsFrom(t, n, cap, ds, p, draws, enforcement, left, used).ties
           == AdmissionsFrom(t', n, cap, ds, p + 1, draws, enforcement, left - 1, used + 1).ties;
  }

  /**
   * One pass of the additional-links loop over the shuffled list, leaving as
   * soon as the last owed addition is made; returns the additions still owed.
   */
  method AdmitLinks(t: Ties, n: nat, cap: nat, ds: seq<Dyad>, draws: seq<real>, enforcement: real, numAddition: nat)
    returns (r: Ties, left: nat)
    requires Shaped(t, n) && DyadsOver(ds, n) && numAddition <= |draws|
    ensures left <= numAddition
    ensures Added(r, left, numAddition - left) == AdmissionsFrom(t, n, cap, ds, 0, draws, enforcement, numAddition, 0)
  {
    r, left := t, numAddition;
    var used := 0;
    for p := 0 to |ds|
      invariant Shaped(r, n) && used + left == numAddition
      invariant left > 0 || p == 0
      invariant AdmissionsFrom(r, n, cap, ds, p, draws, enforcement, left, used)
                == AdmissionsFrom(t, n, cap, ds, 0, draws, enforcement, numAddition, 0)
    {
      if left == 0 {
        break;
      }
      var (focal, target) := ds[p];
      if !r.network[focal][target] && (r.degreeInformal[focal] < cap || r.degreeInformal[target] < cap) && left > 0 {
        r := Admit(r, n, focal, target, draws[used] < enforcement);
        left, used := left - 1, used + 1;
        if left == 0 {
          break;
        }
      }
    }
  }

  /** Ties only appear and informal counters only rise along the pass. */
  lemma {:induction false} AdmissionsMonotone(t: Ties, n: nat, cap: nat, ds: seq<Dyad>, p: nat, draws: seq<real>, enforcement: real,
                                              left: nat, used: nat)
    requires Shaped(t, n) && DyadsOver(ds, n) && p <= |ds| && used + left <= |draws|
    ensures forall x, y :: 0 <= x < n && 0 <= y < n && t.network[x][y] ==>
              AdmissionsFrom(t, n, cap, ds, p, draws, enforcement, left, used).ties.network[x][y]
    ensures forall x :: 0 <= x < n ==>
              t.degreeInformal[x] <= AdmissionsFrom(t, n, cap, ds, p, draws, enforcement, left, used).ties.degreeInformal[x]
    decreases |ds| - p
  {
    if p < |ds| && left > 0 {
      if Open(t, n, cap, ds[p]) {
        var t' := Admit(t, n, ds[p].0, ds[p].1, draws[used] < enforcement);
        assert forall x :: 0 <= x < n ==> t.degreeInformal[x] <= t'.degreeInformal[x];
        AdmissionsMonotone(t', n, cap, ds, p + 1, draws, enforcement, left - 1, used + 1);
      } else {
        AdmissionsMonotone(t, n, cap, ds, p + 1, draws, enforcement, left, used);
      }
    }
  }

  /**
   * A pass that ends with additions still owed leaves no open dyad from p
   * on: the network and the informal counters never go back.
   */
  lemma {:induction false} ShortAdmissionsCloseAll(t: Ties, n: nat, cap: nat, ds: seq<Dyad>, p: nat, draws: seq<real>,
                                                   enforcement: real, left: nat, used: nat)
    requires Shaped(t, n) && DyadsOver(ds, n) && p <= |ds| && used + left <= |draws|
    requires AdmissionsFrom(t, n, cap, ds, p, draws, enforcement, left, used).left > 0
    ensures forall q :: p <= q < |ds| ==> !Open(AdmissionsFrom(t, n, cap, ds, p, draws, enforcement, left, used).ties, n, cap, ds[q])
    decreases |ds| - p
  {
    if p < |ds| {
      var d := ds[p];
      if Open(t, n, cap, d) {
        var t' := Admit(t, n, d.0, d.1, draws[used] < enforcement);
        ShortAdmissionsCloseAll(t', n, cap, ds, p + 1, draws, enforcement, left - 1, used + 1);
        AdmissionsMonotone(t', n, cap, ds, p + 1, draws, enforcement, left - 1, used + 1);
      } else {
        ShortAdmissionsCloseAll(t, n, cap, ds, p + 1, draws, enforcement, left, used);
        AdmissionsMonotone(t, n, cap, ds, p + 1, draws, enforcement, left, used);
      }
    }
  }

  /** With no open dyad left from p on, the pass changes nothing. */
  lemma {:induction false} ClosedAdmissionsIdle(t: Ties, n: nat, cap: nat, ds: seq<Dyad>, p: nat, draws: seq<real>,
                                                enforcement: real, left: nat, used: nat)
    requires Shaped(t, n) && DyadsOver(ds, n) && p <= |ds| && used + left <= |draws|
    requires forall q :: p <= q < |ds| ==> !Open(t, n, cap, ds[q])
    ensures AdmissionsFrom(t, n, cap, ds, p, draws, enforcement, left, used) == Added(t, left, used)
    decreases |ds| - p
  {
    if p < |ds| && left > 0 {
      ClosedAdmissionsIdle(t, n, cap, ds, p + 1, draws, enforcement, left, used);
    }
  }

  /**
   * If test2's first pass ends with additions still owed, every further pass
   * over the same list adds nothing and owes the same number: its outer loop
   * never ends.
   */
  lemma AdmissionsRepeatForever(t: Ties, n: nat, cap: nat, ds: seq<Dyad>, draws: seq<real>, enforcement: real, numAddition: nat)
    requires Shaped(t, n) && DyadsOver(ds, n) && numAddition <= |draws|
    requires AdmissionsFrom(t, n, cap, ds, 0, draws, enforcement, numAddition, 0).left > 0
    ensures var r := AdmissionsFrom(t, n, cap, ds, 0, draws, enforcement, numAddition, 0);
            AdmissionsFrom(r.ties, n, cap, ds, 0, draws, enforcement, r.left, r.used) == r
  {
    var r := AdmissionsFrom(t, n, cap, ds, 0, draws, enforcement, numAddition, 0);
    ShortAdmissionsCloseAll(t, n, cap, ds, 0, draws, enforcement, numAddition, 0);
    ClosedAdmissionsIdle(r.ties, n, cap, ds, 0, draws, enforcement, r.left, r.used);
  }

  // ---------------------------------------------------------------
  // The whole of initialize_network
  // ---------------------------------------------------------------

  /**
   * The state test2's initialize_network leaves: the hierarchy split by the
   * enforcement draws, the additional links made along ds with their
   * counters, then the level mask; and the additions still owed.
   */
  function FlatInitialTies(n: nat, span: nat, linkLevel: bool, limitLevel: bool, cap: nat, ds: seq<Dyad>,
                           enforceDraws: seq<seq<real>>, additionDraws: seq<real>, enforcement: real, numAddition: nat): (a: Added)
    requires span >= 1 && DyadsOver(ds, n) && DrawGrid(enforceDraws, n) && numAddition <= |additionDraws|
    ensures Shaped(a.ties, n) && a.left <= numAddition
  {
    var enforced := EnforcedTies(HierarchyNet(span, n, linkLevel), n, enforceDraws, enforcement);
    var added := AdmissionsFrom(enforced, n, cap, ds, 0, additionDraws, enforcement, numAddition, 0);
    added.(ties := added.ties.(limited := LevelMask(n, Levels(n, span), limitLevel)))
  }

  /**
   * Unlike the primary variant's, test2's initial state keeps the whole
   * invariant whatever the additions: simple relations, every tie formal or
   * informal and never both, and each counter equal to its row count, so
   * degree == degree_formal + degree_informal at every agent.
   */
  lemma FlatInitialConsistent(n: nat, span: nat, linkLevel: bool, limitLevel: bool, cap: nat, ds: seq<Dyad>,
                              enforceDraws: seq<seq<real>>, additionDraws: seq<real>, enforcement: real, numAddition: nat)
    requires span >= 1 && DyadsOver(ds, n) && DrawGrid(enforceDraws, n) && numAddition <= |additionDraws|
    ensures Consistent(FlatInitialTies(n, span, linkLevel, limitLevel, cap, ds, enforceDraws, additionDraws, enforcement, numAddition).ties, n)
    ensures var t := FlatInitialTies(n, span, linkLevel, limitLevel, cap, ds, enforceDraws, additionDraws, enforcement, numAddition).ties;
            forall v :: 0 <= v < n ==> t.degree[v] == t.degreeFormal[v] + t.degreeInformal[v]
  {
    var t := EnforcedTies(HierarchyNet(span, n, linkLevel), n, enforceDraws, enforcement);
    EnforcedConsistent(HierarchyNet(span, n, linkLevel), n, enforceDraws, enforcement);
    AdmissionsKeepConsistent(t, n, cap, ds, 0, additionDraws, enforcement, numAddition, 0);
    var r := FlatInitialTies(n, span, linkLevel, limitLevel, cap, ds, enforceDraws, additionDraws, enforcement, numAddition).ties;
    forall v | 0 <= v < n ensures r.degree[v] == r.degreeFormal[v] + r.degreeInformal[v] {
      DegreeSplit(r, n, v);
    }
  }

  /**
   * The body of test2's initialize_network on local values: the hierarchy
   * and its levels, the enforcement loop, one pass of additional links
   * along ds (skipped when none are owed), and the level mask.
   */
  method FlatInitialNetwork(n: nat, span: nat, linkLevel: bool, limitLevel: bool, cap: nat, ds: seq<Dyad>,
                            enforceDraws: seq<seq<real>>, additionDraws: seq<real>, enforcement: real, numAddition: nat)
    returns (t: Ties, levels: seq<int>, range: int, left: nat)
    requires 1 <= span && span + 1 <= n && DyadsOver(ds, n) && DrawGrid(enforceDraws, n) && numAddition <= |additionDraws|
    ensures Consistent(t, n)
    ensures t == FlatInitialTies(n, span, linkLevel, limitLevel, cap, ds, enforceDraws, additionDraws, enforcement, numAddition).ties
    ensures left == FlatInitialTies(n, span, linkLevel, limitLevel, cap, ds, enforceDraws, additionDraws, enforcement, numAddition).left
    ensures levels == Levels(n, span) && range == Hierarchy.Level(n - 1, span) - 1
  {
    var net, deg;
    net, deg, levels, range := Hierarchy.BuildHierarchy(n, span, linkLevel);
    SameEntries(net, HierarchyNet(span, n, linkLevel), n);
    MatchIsRowCounts(net, deg);
    var formal, informal, degFormal, degInformal := Enforce(net, n, enforceDraws, enforcement);
    MatchIsRowCounts(formal, degFormal);
    MatchIsRowCounts(informal, degInformal);
    t := Ties(net, formal, informal, Empty(n), deg, degFormal, degInformal);
    assert t == EnforcedTies(HierarchyNet(span, n, linkLevel), n, enforceDraws, enforcement);
    left := numAddition;
    if numAddition > 0 {
      t, left := AdmitLinks(t, n, cap, ds, additionDraws, enforcement, numAddition);
    }
    assert levels == Levels(n, span);
    var limited := LimitLevels(n, levels, limitLevel);
    t := t.(limited := limited);
    FlatInitialConsistent(n, span, linkLevel, limitLevel, cap, ds, enforceDraws, additionDraws, enforcement, numAddition);
  }
}
