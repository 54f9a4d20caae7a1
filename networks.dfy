// The tie state of a scenario: the overall network, its formal and informal
// parts, the mask of dyads closed to new ties, and the three degree counters
// the source keeps beside the matrices.  The rewiring weights are computed
// from this state.

module Networks {
  import opened Arith
  import opened Graphs

  datatype Ties = Ties(network: Matrix, formal: Matrix, informal: Matrix, limited: Matrix,
                       degree: seq<int>, degreeFormal: seq<int>, degreeInformal: seq<int>)

  predicate Shaped(t: Ties, n: nat)
  {
    IsSquare(t.network, n) && IsSquare(t.formal, n) && IsSquare(t.informal, n) && IsSquare(t.limited, n)
    && |t.degree| == n && |t.degreeFormal| == n && |t.degreeInformal| == n
  }

  /** Every tie is formal or informal and never both; there is nothing else. */
  predicate Partitioned(t: Ties, n: nat)
    requires Shaped(t, n)
  {
    forall i, j :: 0 <= i < n && 0 <= j < n ==>
      t.network[i][j] == (t.formal[i][j] || t.informal[i][j]) && !(t.formal[i][j] && t.informal[i][j])
  }

  /** Each counter equals the number of ties in its row. */
  predicate Counted(t: Ties)
  {
    DegreesMatch(t.network, t.degree) && DegreesMatch(t.formal, t.degreeFormal)
    && DegreesMatch(t.informal, t.degreeInformal)
  }

  /** The invariant the tie updates are meant to keep. */
  predicate Consistent(t: Ties, n: nat)
  {
    Shaped(t, n) && SimpleGraph(t.network) && SimpleGraph(t.formal) && SimpleGraph(t.informal)
    && Partitioned(t, n) && Counted(t)
  }

  /** With the partition in place, degree == degree_formal + degree_informal at every agent. */
  lemma {:induction false} CountSplit(a: seq<bool>, b: seq<bool>, c: seq<bool>)
    requires |a| == |b| == |c|
    requires forall k :: 0 <= k < |a| ==> a[k] == (b[k] || c[k]) && !(b[k] && c[k])
    ensures Count(a) == Count(b) + Count(c)
    decreases |a|
  {
    if a != [] {
      var last := |a| - 1;
      CountSplit(a[..last], b[..last], c[..last]);
    }
  }

  lemma DegreeSplit(t: Ties, n: nat, v: nat)
    requires Consistent(t, n) && v < n
    ensures t.degree[v] == t.degreeFormal[v] + t.degreeInformal[v]
  {
    CountSplit(t.network[v], t.formal[v], t.informal[v]);
  }

  /** An informal tie formed between f and g: both matrices set at both ends, both counters raised. */
  function Add(t: Ties, n: nat, f: nat, g: nat): (r: Ties)
    requires Shaped(t, n) && f < n && g < n
    ensures Shaped(r, n)
    ensures r.formal == t.formal && r.limited == t.limited && r.degreeFormal == t.degreeFormal
    ensures r.network[f][g] && r.network[g][f] && r.informal[f][g] && r.informal[g][f]
    ensures Total(r.degreeInformal) == Total(t.degreeInformal) + 2
  {
    BumpTotal(t.degreeInformal, f, g, 1);
    t.(network := Link(t.network, f, g, true), informal := Link(t.informal, f, g, true),
       degree := Bump(t.degree, f, g, 1), degreeInformal := Bump(t.degreeInformal, f, g, 1))
  }

  /** The tie between f and g removed from the network and its informal part, both counters lowered. */
  function Cut(t: Ties, n: nat, f: nat, g: nat): (r: Ties)
    requires Shaped(t, n) && f < n && g < n
    ensures Shaped(r, n)
    ensures r.formal == t.formal && r.limited == t.limited && r.degreeFormal == t.degreeFormal
    ensures !r.network[f][g] && !r.network[g][f] && !r.informal[f][g] && !r.informal[g][f]
    ensures Total(r.degreeInformal) == Total(t.degreeInformal) - 2
  {
    BumpTotal(t.degreeInformal, f, g, -1);
    t.(network := Link(t.network, f, g, false), informal := Link(t.informal, f, g, false),
       degree := Bump(t.degree, f, g, -1), degreeInformal := Bump(t.degreeInformal, f, g, -1))
  }

  /** Forming a tie at a dyad of two distinct, non-adjacent agents keeps the invariant. */
  lemma AddKeepsConsistent(t: Ties, n: nat, f: nat, g: nat)
    requires Consistent(t, n) && f < n && g < n && f != g && !t.network[f][g]
    ensures Consistent(Add(t, n, f, g), n)
  {
    LinkKeepsSimple(t.network, f, g, true);
    LinkKeepsSimple(t.informal, f, g, true);
    LinkKeepsDegrees(t.network, t.degree, f, g, true);
    LinkKeepsDegrees(t.informal, t.degreeInformal, f, g, true);
  }

  /** Removing an informal tie keeps the invariant. */
  lemma CutKeepsConsistent(t: Ties, n: nat, f: nat, g: nat)
    requires Consistent(t, n) && f < n && g < n && t.informal[f][g]
    ensures Consistent(Cut(t, n, f, g), n)
  {
    assert f != g;
    LinkKeepsSimple(t.network, f, g, false);
    LinkKeepsSimple(t.informal, f, g, false);
    LinkKeepsDegrees(t.network, t.degree, f, g, false);
    LinkKeepsDegrees(t.informal, t.degreeInformal, f, g, false);
  }

  /** Forming a tie where one already exists raises the counter but not the row count. */
  lemma AddOnTieDrifts(t: Ties, n: nat, f: nat, g: nat)
    requires Consistent(t, n) && f < n && g < n && t.network[f][g]
    ensures !DegreesMatch(Add(t, n, f, g).network, Add(t, n, f, g).degree)
  {
    var r := Add(t, n, f, g);
    assert r.network[f] == t.network[f];
    assert f != g;
  }

  /** Cutting a formal tie takes it out of the network but leaves it formal. */
  lemma CutOnFormalBreaksPartition(t: Ties, n: nat, f: nat, g: nat)
    requires Consistent(t, n) && f < n && g < n && t.formal[f][g]
    ensures !Partitioned(Cut(t, n, f, g), n)
  {
    var r := Cut(t, n, f, g);
    assert !r.network[f][g] && r.formal[f][g];
  }

  // ---------------------------------------------------------------
  // Rewiring weights
  // ---------------------------------------------------------------

  /** social_dynamics 0 selects network closure, 1 preferential attachment, anything else neither. */
  datatype Dynamics = NetworkClosure | PreferentialAttachment | Neither

  function DynamicsOf(socialDynamics: nat): Dynamics
  {
    if socialDynamics == 0 then NetworkClosure
    else if socialDynamics == 1 then PreferentialAttachment
    else Neither
  }

  function MaxInt(a: int, b: int): int { if a < b then b else a }
  function MinInt(a: int, b: int): int { if a < b then a else b }

  /** Marks the agents adjacent to both f and g. */
  function CommonRow(m: Matrix, f: nat, g: nat): (r: seq<bool>)
    requires IsSquare(m, |m|) && f < |m| && g < |m|
    ensures |r| == |m|
    ensures forall i :: 0 <= i < |m| ==> (r[i] <==> m[f][i] && m[g][i])
  {
    seq(|m|, i requires 0 <= i < |m| => m[f][i] && m[g][i])
  }

  /**
   * One plus the number of common neighbours, over the larger degree counter
   * plus one when f and g are not adjacent.  A zero denominator, which the
   * counters cannot produce while they match the rows, gives 0 here.
   */
  function ClosureRatio(common: nat, df: int, dg: int, adjacent: bool): real
  {
    var denom := MaxInt(df, dg) as real + (if adjacent then 0.0 else 1.0);
    if denom == 0.0 then 0.0 else (1 + common) as real / denom
  }

  function ClosureWeight(t: Ties, n: nat, f: nat, g: nat): real
    requires Shaped(t, n) && f < n && g < n
  {
    ClosureRatio(Count(CommonRow(t.network, f, g)), t.degree[f], t.degree[g], t.network[f][g])
  }

  /** The smaller of the two degree counters. */
  function PreferentialWeight(t: Ties, n: nat, f: nat, g: nat): real
    requires Shaped(t, n) && f < n && g < n
  {
    MinInt(t.degree[f], t.degree[g]) as real
  }

  function Weight(mode: Dynamics, t: Ties, n: nat, f: nat, g: nat): real
    requires Shaped(t, n) && f < n && g < n
  {
    match mode
    case NetworkClosure => ClosureWeight(t, n, f, g)
    case PreferentialAttachment => PreferentialWeight(t, n, f, g)
    case Neither => 0.0
  }

  /** Common neighbours of f and g are neighbours of f, and g itself is never one. */
  lemma CommonWithinRow(m: Matrix, f: nat, g: nat)
    requires IsSquare(m, |m|) && f < |m| && g < |m| && !m[g][g]
    ensures Count(CommonRow(m, f, g)) <= Count(m[f])
    ensures m[f][g] ==> Count(CommonRow(m, f, g)) < Count(m[f])
  {
    var common := CommonRow(m, f, g);
    CountMono(common, m[f]);
    if m[f][g] {
      assert m[f][g] && !common[g];
    }
  }

  lemma ClosureRatioBounds(c: nat, df: int, dg: int, adjacent: bool)
    requires c <= df && (adjacent ==> c < df) && dg >= 0
    ensures 0.0 < ClosureRatio(c, df, dg, adjacent) <= 1.0
  {
    var denom := MaxInt(df, dg) + (if adjacent then 0 else 1);
    assert 1 <= 1 + c <= denom;
    RatioInUnitInterval(1 + c, denom);
    assert denom as real == MaxInt(df, dg) as real + (if adjacent then 0.0 else 1.0);
  }

  /**
   * While the counters match the rows the closure weight lies in (0, 1]:
   * common neighbours are neighbours of f, and when g is one of them it is
   * not a common neighbour.
   */
  lemma ClosureWeightBounds(t: Ties, n: nat, f: nat, g: nat)
    requires Consistent(t, n) && f < n && g < n
    ensures 0.0 < ClosureWeight(t, n, f, g) <= 1.0
  {
    var m := t.network;
    assert !m[g][g];
    CommonWithinRow(m, f, g);
    assert t.degree[f] == Count(m[f]) && t.degree[g] == Count(m[g]);
    ClosureRatioBounds(Count(CommonRow(m, f, g)), t.degree[f], t.degree[g], m[f][g]);
  }

  /** Both weights treat the dyad as unordered. */
  lemma WeightSymmetric(mode: Dynamics, t: Ties, n: nat, f: nat, g: nat)
    requires Shaped(t, n) && SimpleGraph(t.network) && f < n && g < n
    ensures Weight(mode, t, n, f, g) == Weight(mode, t, n, g, f)
  {
    if mode == NetworkClosure {
      assert t.network[f][g] == t.network[g][f];
      assert CommonRow(t.network, f, g) == CommonRow(t.network, g, f);
    }
  }

  /** While the counters match the rows no weight is negative. */
  lemma WeightNonnegative(mode: Dynamics, t: Ties, n: nat, f: nat, g: nat)
    requires Consistent(t, n) && f < n && g < n
    ensures Weight(mode, t, n, f, g) >= 0.0
    ensures mode == NetworkClosure ==> Weight(mode, t, n, f, g) > 0.0
  {
    if mode == NetworkClosure {
      ClosureWeightBounds(t, n, f, g);
    }
  }
}
