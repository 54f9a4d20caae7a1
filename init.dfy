// The steps of initialize_network that follow the hierarchy: each hierarchy
// tie drawn formal or informal, the additional links, and the mask on dyads
// across distant levels.  The random draws and the shuffle are inputs.

module Initial {
  import opened Graphs
  import opened Networks
  import Hierarchy

  // ---------------------------------------------------------------
  // Tie enforcement
  // ---------------------------------------------------------------

  /** An n-by-n grid of draws; the loop over focal <= target reads entry [focal][target]. */
  predicate DrawGrid(draws: seq<seq<real>>, n: nat)
  {
    |draws| == n && forall i :: 0 <= i < n ==> |draws[i]| == n
  }

  /** The draw taken for the tie between i and j: the one at focal = min, target = max. */
  function EnforceDraw(draws: seq<seq<real>>, n: nat, i: nat, j: nat): real
    requires DrawGrid(draws, n) && i < n && j < n
  {
    if i <= j then draws[i][j] else draws[j][i]
  }

  /** The tie between i and j exists and its draw fell below the enforcement level. */
  predicate Enforced(network: Matrix, n: nat, draws: seq<seq<real>>, enforcement: real, i: nat, j: nat)
    requires IsSquare(network, n) && DrawGrid(draws, n) && i < n && j < n
  {
    network[i][j] && EnforceDraw(draws, n, i, j) < enforcement
  }

  function FormalPart(network: Matrix, n: nat, draws: seq<seq<real>>, enforcement: real): (m: Matrix)
    requires IsSquare(network, n) && DrawGrid(draws, n)
    ensures IsSquare(m, n)
  {
    seq(n, i requires 0 <= i < n => seq(n, j requires 0 <= j < n => Enforced(network, n, draws, enforcement, i, j)))
  }

  function InformalPart(network: Matrix, n: nat, draws: seq<seq<real>>, enforcement: real): (m: Matrix)
    requires IsSquare(network, n) && DrawGrid(draws, n)
    ensures IsSquare(m, n)
  {
    seq(n, i requires 0 <= i < n => seq(n, j requires 0 <= j < n =>
      network[i][j] && !Enforced(network, n, draws, enforcement, i, j)))
  }

  /** The loop has passed the dyad {i, j}: its smaller end is below focal, or equal to it with the larger end below target. */
  predicate Seen(i: nat, j: nat, focal: nat, target: nat)
  {
    if i <= j then i < focal || (i == focal && j < target) else j < focal || (j == focal && i < target)
  }

  /** Formal and informal hold exactly the passed ties, split by their draws. */
  predicate EnforcedUpTo(network: Matrix, n: nat, draws: seq<seq<real>>, enforcement: real,
                         formal: Matrix, informal: Matrix, focal: nat, target: nat)
    requires IsSquare(network, n) && DrawGrid(draws, n) && IsSquare(formal, n) && IsSquare(informal, n)
  {
    forall i, j :: 0 <= i < n && 0 <= j < n ==>
      formal[i][j] == (Seen(i, j, focal, target) && Enforced(network, n, draws, enforcement, i, j))
      && informal[i][j] == (Seen(i, j, focal, target) && network[i][j] && !Enforced(network, n, draws, enforcement, i, j))
  }

  /** One dyad of the enforcement loop: the passed part grows by {focal, target}, which was unset in both parts. */
  lemma EnforceStep(network: Matrix, n: nat, draws: seq<seq<real>>, enforcement: real,
                    formal: Matrix, informal: Matrix, focal: nat, target: nat)
    requires IsSquare(network, n) && SimpleGraph(network) && DrawGrid(draws, n) && IsSquare(formal, n) && IsSquare(informal, n)
    requires focal <= target < n && EnforcedUpTo(network, n, draws, enforcement, formal, informal, focal, target)
    ensures network[focal][target] ==> (focal != target && !formal[focal][target] && !formal[target][focal]
              && !informal[focal][target] && !informal[target][focal])
    ensures !network[focal][target] ==> EnforcedUpTo(network, n, draws, enforcement, formal, informal, focal, target + 1)
    ensures network[focal][target] && draws[focal][target] < enforcement ==>
              EnforcedUpTo(network, n, draws, enforcement, Link(formal, focal, target, true), informal, focal, target + 1)
    ensures network[focal][target] && !(draws[focal][target] < enforcement) ==>
              EnforcedUpTo(network, n, draws, enforcement, formal, Link(informal, focal, target, true), focal, target + 1)
  {
    assert EnforceDraw(draws, n, target, focal) == draws[focal][target];
  }

  /**
   * The enforcement loop: for focal <= target, a tie of the hierarchy becomes
   * formal when its draw is below the enforcement level and informal
   * otherwise, both ends of the matching counter raised by one.
   */
  method Enforce(network: Matrix, n: nat, draws: seq<seq<real>>, enforcement: real)
    returns (formal: Matrix, informal: Matrix, degreeFormal: seq<int>, degreeInformal: seq<int>)
    requires IsSquare(network, n) && SimpleGraph(network) && DrawGrid(draws, n)
    ensures formal == FormalPart(network, n, draws, enforcement)
    ensures informal == InformalPart(network, n, draws, enforcement)
    ensures DegreesMatch(formal, degreeFormal) && DegreesMatch(informal, degreeInformal)
  {
    formal, informal := Empty(n), Empty(n);
    degreeFormal := seq(n, _ => 0);
    degreeInformal := degreeFormal;
    Hierarchy.ZerosMatchEmpty(n);
    for focal := 0 to n
      invariant IsSquare(formal, n) && IsSquare(informal, n)
      invariant EnforcedUpTo(network, n, draws, enforcement, formal, informal, focal, focal)
      invariant DegreesMatch(formal, degreeFormal) && DegreesMatch(informal, degreeInformal)
    {
      for target := focal to n
        invariant IsSquare(formal, n) && IsSquare(informal, n)
        invariant EnforcedUpTo(network, n, draws, enforcement, formal, informal, focal, target)
        invariant DegreesMatch(formal, degreeFormal) && DegreesMatch(informal, degreeInformal)
      {
        EnforceStep(network, n, draws, enforcement, formal, informal, focal, target);
        if network[focal][target] {
          if draws[focal][target] < enforcement {
            LinkKeepsDegrees(formal, degreeFormal, focal, target, true);
            formal, degreeFormal := Link(formal, focal, target, true), Bump(degreeFormal, focal, target, 1);
          } else {
            LinkKeepsDegrees(informal, degreeInformal, focal, target, true);
            informal, degreeInformal := Link(informal, focal, target, true), Bump(degreeInformal, focal, target, 1);
          }
        }
      }
    }
    SameEntries(formal, FormalPart(network, n, draws, enforcement), n);
    SameEntries(informal, InformalPart(network, n, draws, enforcement), n);
  }

  /** The tie state the enforcement loop leaves: the hierarchy split by the draws, nothing masked, every counter matching. */
  function EnforcedTies(network: Matrix, n: nat, draws: seq<seq<real>>, enforcement: real): (t: Ties)
    requires IsSquare(network, n) && DrawGrid(draws, n)
    ensures Shaped(t, n)
  {
    var formal := FormalPart(network, n, draws, enforcement);
    var informal := InformalPart(network, n, draws, enforcement);
    Ties(network, formal, informal, Empty(n), RowCounts(network), RowCounts(formal), RowCounts(informal))
  }

  /**
   * After enforcement every tie is formal or informal and not both, all
   * three relations are simple graphs, and every counter equals its row
   * count; so degree == degree_formal + degree_informal at every agent.
   */
  lemma EnforcedConsistent(network: Matrix, n: nat, draws: seq<seq<real>>, enforcement: real)
    requires IsSquare(network, n) && SimpleGraph(network) && DrawGrid(draws, n)
    ensures Consistent(EnforcedTies(network, n, draws, enforcement), n)
    ensures forall v :: 0 <= v < n ==>
              EnforcedTies(network, n, draws, enforcement).degree[v]
              == EnforcedTies(network, n, draws, enforcement).degreeFormal[v] + EnforcedTies(network, n, draws, enforcement).degreeInformal[v]
  {
    var t := EnforcedTies(network, n, draws, enforcement);
    forall i, j | 0 <= i < n && 0 <= j < n
      ensures t.formal[i][j] == t.formal[j][i] && t.informal[i][j] == t.informal[j][i]
    {
      assert EnforceDraw(draws, n, i, j) == EnforceDraw(draws, n, j, i);
    }
    forall v | 0 <= v < n ensures t.degree[v] == t.degreeFormal[v] + t.degreeInformal[v] {
      DegreeSplit(t, n, v);
    }
  }

  // ---------------------------------------------------------------
  // Additional links
  // ---------------------------------------------------------------

  /** A tie added by the additional-links loop: set in the network and in one part, no counter moved. */
  function Attach(t: Ties, n: nat, f: nat, g: nat, enforced: bool): (r: Ties)
    requires Shaped(t, n) && f < n && g < n
    ensures Shaped(r, n) && r.limited == t.limited
    ensures r.degree == t.degree && r.degreeFormal == t.degreeFormal && r.degreeInformal == t.degreeInformal
    ensures r.network[f][g] && r.network[g][f]
  {
    if enforced then t.(network := Link(t.network, f, g, true), formal := Link(t.formal, f, g, true))
    else t.(network := Link(t.network, f, g, true), informal := Link(t.informal, f, g, true))
  }

  /** The guard of the additional-links loop: not yet tied, and one end under the informal cap. */
  predicate Open(t: Ties, n: nat, cap: nat, d: Dyad)
    requires Shaped(t, n) && d.0 < n && d.1 < n
  {
    !t.network[d.0][d.1] && (t.degreeInformal[d.0] < cap || t.degreeInformal[d.1] < cap)
  }

  /** The state after (part of) the loop, the additions still owed, and the draws used. */
  datatype Added = Added(ties: Ties, left: nat, used: nat)

  /**
   * The pass over ds from position p on: each open dyad is tied, formal when
   * its draw (the next unused one) is below the enforcement level, until no
   * addition is owed.
   */
  function AdditionsFrom(t: Ties, n: nat, cap: nat, ds: seq<Dyad>, p: nat, draws: seq<real>, enforcement: real,
                         left: nat, used: nat): (r: Added)
    requires Shaped(t, n) && DyadsOver(ds, n) && p <= |ds| && used + left <= |draws|
    ensures Shaped(r.ties, n) && r.left <= left && r.used + r.left == used + left
    ensures r.ties.limited == t.limited && r.ties.degree == t.degree
    ensures r.ties.degreeFormal == t.degreeFormal && r.ties.degreeInformal == t.degreeInformal
    decreases |ds| - p
  {
    if p == |ds| || left == 0 then Added(t, left, used)
    else if Open(t, n, cap, ds[p]) then
      AdditionsFrom(Attach(t, n, ds[p].0, ds[p].1, draws[used] < enforcement), n, cap, ds, p + 1, draws, enforcement, left - 1, used + 1)
    else AdditionsFrom(t, n, cap, ds, p + 1, draws, enforcement, left, used)
  }

  /**
   * One pass of the additional-links loop over the shuffled list, leaving as
   * soon as the last owed addition is made; returns the additions still owed.
   */
  method AddLinks(t: Ties, n: nat, cap: nat, ds: seq<Dyad>, draws: seq<real>, enforcement: real, numAddition: nat)
    returns (r: Ties, left: nat)
    requires Shaped(t, n) && DyadsOver(ds, n) && numAddition <= |draws|
    ensures left <= numAddition
    ensures Added(r, left, numAddition - left) == AdditionsFrom(t, n, cap, ds, 0, draws, enforcement, numAddition, 0)
  {
    r, left := t, numAddition;
    var used := 0;
    for p := 0 to |ds|
      invariant Shaped(r, n) && used + left == numAddition
      invariant left > 0 || p == 0
      invariant AdditionsFrom(r, n, cap, ds, p, draws, enforcement, left, used)
                == AdditionsFrom(t, n, cap, ds, 0, draws, enforcement, numAddition, 0)
    {
      if left == 0 {
        break;
      }
      var (focal, target) := ds[p];
      if !r.network[focal][target] && (r.degreeInformal[focal] < cap || r.degreeInformal[target] < cap) && left > 0 {
        r := Attach(r, n, focal, target, draws[used] < enforcement);
        left, used := left - 1, used + 1;
        if left == 0 {
          break;
        }
      }
    }
  }

  /** Ties only appear: every tie of t is a tie of the result. */
  lemma {:induction false} AdditionsMonotone(t: Ties, n: nat, cap: nat, ds: seq<Dyad>, p: nat, draws: seq<real>, enforcement: real,
                                             left: nat, used: nat)
    requires Shaped(t, n) && DyadsOver(ds, n) && p <= |ds| && used + left <= |draws|
    ensures forall x, y :: 0 <= x < n && 0 <= y < n && t.network[x][y] ==>
              AdditionsFrom(t, n, cap, ds, p, draws, enforcement, left, used).ties.network[x][y]
    decreases |ds| - p
  {
    if p < |ds| && left > 0 {
      if Open(t, n, cap, ds[p]) {
        AdditionsMonotone(Attach(t, n, ds[p].0, ds[p].1, draws[used] < enforcement), n, cap, ds, p + 1, draws, enforcement, left - 1, used + 1);
      } else {
        AdditionsMonotone(t, n, cap, ds, p + 1, draws, enforcement, left, used);
      }
    }
  }

  /**
   * A pass that ends with additions still owed leaves no open dyad from p
   * on: each was either tied already, tied by the pass, or has both ends at
   * the cap, and neither the network nor the informal counters go back.
   */
  lemma {:induction false} ShortPassClosesAll(t: Ties, n: nat, cap: nat, ds: seq<Dyad>, p: nat, draws: seq<real>, enforcement: real,
                                              left: nat, used: nat)
    requires Shaped(t, n) && DyadsOver(ds, n) && p <= |ds| && used + left <= |draws|
    requires AdditionsFrom(t, n, cap, ds, p, draws, enforcement, left, used).left > 0
    ensures forall q :: p <= q < |ds| ==> !Open(AdditionsFrom(t, n, cap, ds, p, draws, enforcement, left, used).ties, n, cap, ds[q])
    decreases |ds| - p
  {
    var r := AdditionsFrom(t, n, cap, ds, p, draws, enforcement, left, used);
    if p < |ds| {
      var d := ds[p];
      if Open(t, n, cap, d) {
        var t' := Attach(t, n, d.0, d.1, draws[used] < enforcement);
        ShortPassClosesAll(t', n, cap, ds, p + 1, draws, enforcement, left - 1, used + 1);
        AdditionsMonotone(t', n, cap, ds, p + 1, draws, enforcement, left - 1, used + 1);
      } else {
        ShortPassClosesAll(t, n, cap, ds, p + 1, draws, enforcement, left, used);
        AdditionsMonotone(t, n, cap, ds, p + 1, draws, enforcement, left, used);
      }
    }
  }

  /** With no open dyad left from p on, the pass changes nothing. */
  lemma {:induction false} ClosedPassIdle(t: Ties, n: nat, cap: nat, ds: seq<Dyad>, p: nat, draws: seq<real>, enforcement: real,
                                          left: nat, used: nat)
    requires Shaped(t, n) && DyadsOver(ds, n) && p <= |ds| && used + left <= |draws|
    requires forall q :: p <= q < |ds| ==> !Open(t, n, cap, ds[q])
    ensures AdditionsFrom(t, n, cap, ds, p, draws, enforcement, left, used) == Added(t, left, used)
    decreases |ds| - p
  {
    if p < |ds| && left > 0 {
      ClosedPassIdle(t, n, cap, ds, p + 1, draws, enforcement, left, used);
    }
  }

  /**
   * If the first pass ends with additions still owed, every further pass
   * over the same list adds nothing and owes the same number: the source's
   * outer loop never ends.
   */
  lemma ShortPassRepeatsForever(t: Ties, n: nat, cap: nat, ds: seq<Dyad>, draws: seq<real>, enforcement: real, numAddition: nat)
    requires Shaped(t, n) && DyadsOver(ds, n) && numAddition <= |draws|
    requires AdditionsFrom(t, n, cap, ds, 0, draws, enforcement, numAddition, 0).left > 0
    ensures var r := AdditionsFrom(t, n, cap, ds, 0, draws, enforcement, numAddition, 0);
            AdditionsFrom(r.ties, n, cap, ds, 0, draws, enforcement, r.left, r.used) == r
  {
    var r := AdditionsFrom(t, n, cap, ds, 0, draws, enforcement, numAddition, 0);
    ShortPassClosesAll(t, n, cap, ds, 0, draws, enforcement, numAddition, 0);
    ClosedPassIdle(r.ties, n, cap, ds, 0, draws, enforcement, r.left, r.used);
  }

  /** Every entry of net is set in exactly one of a and b. */
  predicate Splits(net: Matrix, a: Matrix, b: Matrix, n: nat)
    requires IsSquare(net, n) && IsSquare(a, n) && IsSquare(b, n)
  {
    forall i, j :: 0 <= i < n && 0 <= j < n ==> net[i][j] == (a[i][j] || b[i][j]) && !(a[i][j] && b[i][j])
  }

  /** Setting an unset dyad in the network and in one of its two parts keeps the split. */
  lemma LinkKeepsSplit(net: Matrix, a: Matrix, b: Matrix, n: nat, f: nat, g: nat)
    requires IsSquare(net, n) && IsSquare(a, n) && IsSquare(b, n) && Splits(net, a, b, n)
    requires f < n && g < n && !net[f][g] && !net[g][f]
    ensures Splits(Link(net, f, g, true), Link(a, f, g, true), b, n)
  {
  }

  lemma AttachKeepsPartition(t: Ties, n: nat, f: nat, g: nat, enforced: bool)
    requires Shaped(t, n) && SimpleGraph(t.network) && SimpleGraph(t.formal) && SimpleGraph(t.informal) && Partitioned(t, n)
    requires f < n && g < n && f != g && !t.network[f][g]
    ensures var r := Attach(t, n, f, g, enforced);
            SimpleGraph(r.network) && SimpleGraph(r.formal) && SimpleGraph(r.informal) && Partitioned(r, n)
  {
    assert Splits(t.network, t.formal, t.informal, n) && Splits(t.network, t.informal, t.formal, n);
    LinkKeepsSimple(t.network, f, g, true);
    if enforced {
      LinkKeepsSimple(t.formal, f, g, true);
      LinkKeepsSplit(t.network, t.formal, t.informal, n, f, g);
    } else {
      LinkKeepsSimple(t.informal, f, g, true);
      LinkKeepsSplit(t.network, t.informal, t.formal, n, f, g);
    }
  }

  /** The additions keep the three relations simple and partitioned. */
  lemma {:induction false} AdditionsKeepPartition(t: Ties, n: nat, cap: nat, ds: seq<Dyad>, p: nat, draws: seq<real>, enforcement: real,
                                                  left: nat, used: nat)
    requires Shaped(t, n) && SimpleGraph(t.network) && SimpleGraph(t.formal) && SimpleGraph(t.informal) && Partitioned(t, n)
    requires DyadsOver(ds, n) && p <= |ds| && used + left <= |draws|
    ensures var r := AdditionsFrom(t, n, cap, ds, p, draws, enforcement, left, used).ties;
            SimpleGraph(r.network) && SimpleGraph(r.formal) && SimpleGraph(r.informal) && Partitioned(r, n)
    decreases |ds| - p
  {
    if p < |ds| && left > 0 {
      var d := ds[p];
      if Open(t, n, cap, d) {
        var t' := Attach(t, n, d.0, d.1, draws[used] < enforcement);
        assert AdditionsFrom(t, n, cap, ds, p, draws, enforcement, left, used)
               == AdditionsFrom(t', n, cap, ds, p + 1, draws, enforcement, left - 1, used + 1);
        AttachKeepsPartition(t, n, d.0, d.1, draws[used] < enforcement);
        AdditionsKeepPartition(t', n, cap, ds, p + 1, draws, enforcement, left - 1, used + 1);
      } else {
        AdditionsKeepPartition(t, n, cap, ds, p + 1, draws, enforcement, left, used);
      }
    }
  }

  /** An addition on an open dyad keeps the network simple and puts two more entries into its rows. */
  lemma AttachGrows(t: Ties, n: nat, f: nat, g: nat, enforced: bool)
    requires Shaped(t, n) && SimpleGraph(t.network) && f < n && g < n && f != g && !t.network[f][g]
    ensures SimpleGraph(Attach(t, n, f, g, enforced).network)
    ensures Total(RowCounts(Attach(t, n, f, g, enforced).network)) == Total(RowCounts(t.network)) + 2
  {
    assert Attach(t, n, f, g, enforced).network == Link(t.network, f, g, true);
    LinkKeepsSimple(t.network, f, g, true);
    LinkGrowsTotal(t.network, f, g);
  }

  lemma {:induction false} AdditionsGrowNetwork(t: Ties, n: nat, cap: nat, ds: seq<Dyad>, p: nat, draws: seq<real>, enforcement: real,
                                                left: nat, used: nat, a: Added)
    requires Shaped(t, n) && SimpleGraph(t.network)
    requires DyadsOver(ds, n) && p <= |ds| && used + left <= |draws|
    requires a == AdditionsFrom(t, n, cap, ds, p, draws, enforcement, left, used)
    ensures Total(RowCounts(a.ties.network)) == Total(RowCounts(t.network)) + 2 * (left - a.left)
    decreases |ds| - p, 1
  {
    if p == |ds| || left == 0 {
      assert a == Added(t, left, used);
    } else if Open(t, n, cap, ds[p]) {
      AdditionGrowsNetwork(t, n, cap, ds, p, draws, enforcement, left, used, a);
    } else {
      AdditionsGrowNetwork(t, n, cap, ds, p + 1, draws, enforcement, left, used, a);
    }
  }

  /** The step of AdditionsGrowNetwork where the dyad at p is open and gets tied. */
  lemma {:induction false} AdditionGrowsNetwork(t: Ties, n: nat, cap: nat, ds: seq<Dyad>, p: nat, draws: seq<real>, enforcement: real,
                                                left: nat, used: nat, a: Added)
    requires Shaped(t, n) && SimpleGraph(t.network)
    requires DyadsOver(ds, n) && p < |ds| && 0 < left && used + left <= |draws| && Open(t, n, cap, ds[p])
    requires a == AdditionsFrom(t, n, cap, ds, p, draws, enforcement, left, used)
    ensures Total(RowCounts(a.ties.network)) == Total(RowCounts(t.network)) + 2 * (left - a.left)
    decreases |ds| - p, 0
  {
    var d := ds[p];
    var t' := Attach(t, n, d.0, d.1, draws[used] < enforcement);
    AttachGrows(t, n, d.0, d.1, draws[used] < enforcement);
    AdditionsGrowNetwork(t', n, cap, ds, p + 1, draws, enforcement, left - 1, used + 1, a);
  }

  /**
   * Because the loop moves no counter, any addition leaves degree below the
   * row count of the network: the counters drift from the first addition on,
   * while degree == degree_formal + degree_informal keeps holding.
   */
  lemma AdditionsDrift(t: Ties, n: nat, cap: nat, ds: seq<Dyad>, draws: seq<real>, enforcement: real, numAddition: nat)
    requires Consistent(t, n) && DyadsOver(ds, n) && numAddition <= |draws|
    requires AdditionsFrom(t, n, cap, ds, 0, draws, enforcement, numAddition, 0).left < numAddition
    ensures !DegreesMatch(AdditionsFrom(t, n, cap, ds, 0, draws, enforcement, numAddition, 0).ties.network,
                          AdditionsFrom(t, n, cap, ds, 0, draws, enforcement, numAddition, 0).ties.degree)
    ensures forall v :: 0 <= v < n ==>
              AdditionsFrom(t, n, cap, ds, 0, draws, enforcement, numAddition, 0).ties.degree[v]
              == t.degreeFormal[v] + t.degreeInformal[v]
  {
    var r := AdditionsFrom(t, n, cap, ds, 0, draws, enforcement, numAddition, 0).ties;
    AdditionsGrowNetwork(t, n, cap, ds, 0, draws, enforcement, numAddition, 0,
                         AdditionsFrom(t, n, cap, ds, 0, draws, enforcement, numAddition, 0));
    MatchIsRowCounts(t.network, t.degree);
    if DegreesMatch(r.network, r.degree) {
      MatchIsRowCounts(r.network, r.degree);
      assert false;
    }
    forall v | 0 <= v < n ensures r.degree[v] == t.degreeFormal[v] + t.degreeInformal[v] {
      DegreeSplit(t, n, v);
    }
  }

  // ---------------------------------------------------------------
  // The level mask (LIMIT_LEVEL)
  // ---------------------------------------------------------------

  function Gap(a: int, b: int): int
  {
    if a < b then b - a else a - b
  }

  /** The mask the loop evidently means: every agent's own entry, and every pair whose levels are more than one apart. */
  function LevelMask(n: nat, levelOf: seq<int>, limitLevel: bool): (m: Matrix)
    requires |levelOf| == n
    ensures IsSquare(m, n)
  {
    seq(n, i requires 0 <= i < n => seq(n, j requires 0 <= j < n =>
      limitLevel && (i == j || Gap(levelOf[i], levelOf[j]) > 1)))
  }

  /** Only the diagonal: what the loop as written produces. */
  function Diagonal(n: nat): (m: Matrix)
    ensures IsSquare(m, n)
  {
    seq(n, i requires 0 <= i < n => seq(n, j requires 0 <= j < n => i == j))
  }

  /**
   * The LIMIT_LEVEL loop as written: for each focal it sets its own entry,
   * and for each later target more than one level away it sets the focal's
   * own entry again, so no dyad of two distinct agents is ever masked.
   */
  method LimitLevelsAsWritten(n: nat, levelOf: seq<int>, limitLevel: bool) returns (limited: Matrix)
    requires |levelOf| == n
    ensures limited == if limitLevel then Diagonal(n) else Empty(n)
  {
    limited := Empty(n);
    if limitLevel {
      for focal := 0 to n
        invariant IsSquare(limited, n)
        invariant forall i, j :: 0 <= i < n && 0 <= j < n ==> limited[i][j] == (i == j && i < focal)
      {
        limited := limited[focal := limited[focal][focal := true]];
        for target := focal to n
          invariant IsSquare(limited, n)
          invariant forall i, j :: 0 <= i < n && 0 <= j < n ==> limited[i][j] == (i == j && i <= focal)
        {
          if Gap(levelOf[focal], levelOf[target]) > 1 {
            limited := limited[focal := limited[focal][focal := true]];
          }
        }
      }
      SameEntries(limited, Diagonal(n), n);
    }
  }

  /** The corrected loop: the pair (focal, target) is masked in both directions when the levels are more than one apart. */
  method LimitLevels(n: nat, levelOf: seq<int>, limitLevel: bool) returns (limited: Matrix)
    requires |levelOf| == n
    ensures limited == LevelMask(n, levelOf, limitLevel)
  {
    limited := Empty(n);
    if limitLevel {
      for focal := 0 to n
        invariant IsSquare(limited, n)
        invariant forall i, j :: 0 <= i < n && 0 <= j < n ==>
                    limited[i][j] == (Seen(i, j, focal, focal) && (i == j || Gap(levelOf[i], levelOf[j]) > 1))
      {
        limited := Link(limited, focal, focal, true);
        for target := focal to n
          invariant IsSquare(limited, n)
          invariant forall i, j :: 0 <= i < n && 0 <= j < n ==>
                      limited[i][j] == ((Seen(i, j, focal, target) || (i == j && i == focal))
                                        && (i == j || Gap(levelOf[i], levelOf[j]) > 1))
        {
          if Gap(levelOf[focal], levelOf[target]) > 1 {
            limited := Link(limited, focal, target, true);
          }
        }
        forall i, j | 0 <= i < n && 0 <= j < n
          ensures limited[i][j] == (Seen(i, j, focal + 1, focal + 1) && (i == j || Gap(levelOf[i], levelOf[j]) > 1))
        {
          assert Seen(i, j, focal, n) || (i == j && i == focal) <==> Seen(i, j, focal + 1, focal + 1);
        }
      }
    }
    SameEntries(limited, LevelMask(n, levelOf, limitLevel), n);
  }

  /** A dyad the mask closes is never formable, so ties form only between agents at most one level apart. */
  lemma MaskedNeverFormable(t: Ties, n: nat, cap: nat, levelOf: seq<int>, d: Dyad)
    requires Shaped(t, n) && |levelOf| == n && t.limited == LevelMask(n, levelOf, true) && d.0 < n && d.1 < n
    ensures !t.limited[d.0][d.1] <==> d.0 != d.1 && Gap(levelOf[d.0], levelOf[d.1]) <= 1
  {
  }

  /** The mask never closes a tie of the hierarchy: tied agents are at most one level apart. */
  lemma MaskSparesHierarchy(span: nat, n: nat, linkLevel: bool, a: nat, b: nat)
    requires span >= 1 && a < n && b < n && Hierarchy.HierarchyTie(span, n, linkLevel, a, b)
    ensures !LevelMask(n, Levels(n, span), true)[a][b]
  {
    Hierarchy.HierarchyTieSimple(span, n, linkLevel, a, b);
    var (j, k) := if a < b then (a, b) else (b, a);
    Hierarchy.OneSuperior(span, n, linkLevel, k, j);
  }

  /** Agents 0 and 2 of a chain lie two levels apart: the intended mask closes the dyad, the loop as written leaves it open. */
  lemma AsWrittenMaskLeavesGap()
    ensures LevelMask(3, [1, 2, 3], true)[0][2] && !Diagonal(3)[0][2]
  {
  }

  // ---------------------------------------------------------------
  // The whole of initialize_network
  // ---------------------------------------------------------------

  /** The hierarchy BuildHierarchy produces, as a matrix. */
  function HierarchyNet(span: nat, n: nat, linkLevel: bool): (m: Matrix)
    requires span >= 1
    ensures IsSquare(m, n) && SimpleGraph(m)
    ensures forall a, b :: 0 <= a < n && 0 <= b < n ==> m[a][b] == Hierarchy.HierarchyTie(span, n, linkLevel, a, b)
  {
    seq(n, a requires 0 <= a < n => seq(n, b requires 0 <= b < n => Hierarchy.HierarchyTie(span, n, linkLevel, a, b)))
  }

  /** The level of every agent: 1 at the top, one more per step down the tree. */
  function Levels(n: nat, span: nat): (l: seq<int>)
    requires span >= 1
    ensures |l| == n && forall k :: 0 <= k < n ==> l[k] == Hierarchy.Level(k, span) >= 1
  {
    seq(n, k requires 0 <= k < n => Hierarchy.Level(k, span))
  }

  /**
   * The state initialize_network leaves: the hierarchy, split by the
   * enforcement draws, then the additional links made along ds, then the
   * level mask; and how many additions were still owed after the pass.
   */
  function InitialTies(n: nat, span: nat, linkLevel: bool, limitLevel: bool, cap: nat, ds: seq<Dyad>,
                       enforceDraws: seq<seq<real>>, additionDraws: seq<real>, enforcement: real, numAddition: nat): (a: Added)
    requires span >= 1 && DyadsOver(ds, n) && DrawGrid(enforceDraws, n) && numAddition <= |additionDraws|
    ensures Shaped(a.ties, n)
  {
    var enforced := EnforcedTies(HierarchyNet(span, n, linkLevel), n, enforceDraws, enforcement);
    var added := AdditionsFrom(enforced, n, cap, ds, 0, additionDraws, enforcement, numAddition, 0);
    added.(ties := added.ties.(limited := LevelMask(n, Levels(n, span), limitLevel)))
  }

  /** A pass that made no addition returns the state it was given. */
  lemma {:induction false} NoneAddedUnchanged(t: Ties, n: nat, cap: nat, ds: seq<Dyad>, p: nat, draws: seq<real>, enforcement: real,
                                              left: nat, used: nat)
    requires Shaped(t, n) && DyadsOver(ds, n) && p <= |ds| && used + left <= |draws|
    requires AdditionsFrom(t, n, cap, ds, p, draws, enforcement, left, used).left == left
    ensures AdditionsFrom(t, n, cap, ds, p, draws, enforcement, left, used).ties == t
    decreases |ds| - p
  {
    if p < |ds| && left > 0 && !Open(t, n, cap, ds[p]) {
      NoneAddedUnchanged(t, n, cap, ds, p + 1, draws, enforcement, left, used);
    }
  }

  /**
   * After initialize_network the three relations are simple graphs and
   * every tie is formal or informal, never both, and degree ==
   * degree_formal + degree_informal at every agent; the counters match the
   * rows exactly when the additional-links pass added nothing.
   */
  lemma InitialPartitioned(n: nat, span: nat, linkLevel: bool, limitLevel: bool, cap: nat, ds: seq<Dyad>,
                           enforceDraws: seq<seq<real>>, additionDraws: seq<real>, enforcement: real, numAddition: nat)
    requires span >= 1 && DyadsOver(ds, n) && DrawGrid(enforceDraws, n) && numAddition <= |additionDraws|
    ensures var a := InitialTies(n, span, linkLevel, limitLevel, cap, ds, enforceDraws, additionDraws, enforcement, numAddition);
            SimpleGraph(a.ties.network) && SimpleGraph(a.ties.formal) && SimpleGraph(a.ties.informal) && Partitioned(a.ties, n)
    ensures var a := InitialTies(n, span, linkLevel, limitLevel, cap, ds, enforceDraws, additionDraws, enforcement, numAddition);
            forall v :: 0 <= v < n ==> a.ties.degree[v] == a.ties.degreeFormal[v] + a.ties.degreeInformal[v]
    ensures var a := InitialTies(n, span, linkLevel, limitLevel, cap, ds, enforceDraws, additionDraws, enforcement, numAddition);
            Consistent(a.ties, n) <==> a.left == numAddition
  {
    var h := HierarchyNet(span, n, linkLevel);
    var t := EnforcedTies(h, n, enforceDraws, enforcement);
    var added := AdditionsFrom(t, n, cap, ds, 0, additionDraws, enforcement, numAddition, 0);
    var a := InitialTies(n, span, linkLevel, limitLevel, cap, ds, enforceDraws, additionDraws, enforcement, numAddition);
    assert a.ties == added.ties.(limited := LevelMask(n, Levels(n, span), limitLevel)) && a.left == added.left;
    EnforcedConsistent(h, n, enforceDraws, enforcement);
    AdditionsKeepPartition(t, n, cap, ds, 0, additionDraws, enforcement, numAddition, 0);
    if added.left < numAddition {
      AdditionsDrift(t, n, cap, ds, additionDraws, enforcement, numAddition);
    } else {
      NoneAddedUnchanged(t, n, cap, ds, 0, additionDraws, enforcement, numAddition, 0);
      forall v | 0 <= v < n ensures t.degree[v] == t.degreeFormal[v] + t.degreeInformal[v] {
        DegreeSplit(t, n, v);
      }
    }
  }
}
