// The scenario of the HashSet variant.  Its four relations are a set of
// neighbours per agent, every insert and remove is made at both ends, and
// degrees are read off as set sizes.  The view of such a state as the
// matrix variant keeps it (membership matrices, set sizes as counters)
// links the two: the routines whose rules are the same are proved to act on
// that view exactly as the matrix routines do, and the routines whose rules
// differ (tie enforcement, the limit mask, the fallbacks of the directed
// rounds, additions guarded by set sizes) get their own definitions here.

module SetScenario {
  import opened Graphs
  import opened Wrappers
  import opened Roulette
  import opened Networks
  import opened Rewiring
  import opened Learning
  import Beliefs
  import Initial
  import Metrics
  import Selection
  import opened SetAnalysis

  /** network, network_formal, network_informal and network_limited. */
  datatype SetTies = SetTies(network: SetAdj, formal: SetAdj, informal: SetAdj, limited: SetAdj)

  predicate Over(t: SetTies, n: nat)
  {
    |t.network| == n && |t.formal| == n && |t.informal| == n && |t.limited| == n
    && SetsOver(t.network) && SetsOver(t.formal) && SetsOver(t.informal) && SetsOver(t.limited)
  }

  /** The degree of every agent: the size of its set. */
  function Sizes(a: SetAdj): (d: seq<int>)
    ensures |d| == |a|
  {
    seq(|a|, v requires 0 <= v < |a| => |a[v]|)
  }

  /** The state as the matrix variant keeps it, with the set sizes as degree counters. */
  function View(t: SetTies): Ties
  {
    Ties(Members(t.network), Members(t.formal), Members(t.informal), Members(t.limited),
         Sizes(t.network), Sizes(t.formal), Sizes(t.informal))
  }

  lemma ViewShaped(t: SetTies, n: nat)
    requires Over(t, n)
    ensures Shaped(View(t), n)
  {
  }

  // ---------------------------------------------------------------
  // Degrees are set sizes
  // ---------------------------------------------------------------

  lemma {:induction false} CardIsCount(s: set<nat>, k: nat)
    requires forall x :: x in s ==> x < k
    ensures |s| == Count(seq(k, j => j in s))
  {
    if k == 0 {
      assert s == {};
    } else {
      var s0 := s - {k - 1};
      CardIsCount(s0, k - 1);
      assert seq(k, j => j in s)[..k - 1] == seq(k - 1, j => j in s0);
      if k - 1 in s {
        assert s == s0 + {k - 1};
      } else {
        assert s == s0;
      }
    }
  }

  /**
   * The size of every set is the number of entries in its row of the
   * membership matrix: a degree read off a set can never drift from the
   * relation, unlike the counters the matrix variant keeps beside it.
   */
  lemma SizesAreCounts(a: SetAdj)
    requires SetsOver(a)
    ensures DegreesMatch(Members(a), Sizes(a))
  {
    forall v | 0 <= v < |a| ensures Sizes(a)[v] == Count(Members(a)[v]) {
      CardIsCount(a[v], |a|);
      assert Members(a)[v] == seq(|a|, j => j in a[v]);
    }
  }

  lemma ViewCounted(t: SetTies, n: nat)
    requires Over(t, n)
    ensures Counted(View(t))
  {
    SizesAreCounts(t.network);
    SizesAreCounts(t.formal);
    SizesAreCounts(t.informal);
  }

  /** Two relations over the same agents with the same membership matrix are equal. */
  lemma MembersDetermine(a: SetAdj, b: SetAdj)
    requires SetsOver(a) && SetsOver(b) && |a| == |b| && Members(a) == Members(b)
    ensures a == b
  {
    forall v | 0 <= v < |a| ensures a[v] == b[v] {
      forall x ensures x in a[v] <==> x in b[v] {
        if x in a[v] {
          assert Members(a)[v][x];
        }
        if x in b[v] {
          assert Members(b)[v][x];
        }
      }
    }
  }

  lemma ViewDetermines(t: SetTies, u: SetTies, n: nat)
    requires Over(t, n) && Over(u, n) && View(t) == View(u)
    ensures t == u
  {
    MembersDetermine(t.network, u.network);
    MembersDetermine(t.formal, u.formal);
    MembersDetermine(t.informal, u.informal);
    MembersDetermine(t.limited, u.limited);
  }

  // ---------------------------------------------------------------
  // Inserts and removes at both ends
  // ---------------------------------------------------------------

  /** g inserted into the set of f and f into the set of g. */
  function Join(a: SetAdj, f: nat, g: nat): (r: SetAdj)
    requires f < |a| && g < |a|
    ensures |r| == |a|
    ensures SetsOver(a) ==> SetsOver(r)
  {
    a[f := a[f] + {g}][g := a[g] + {f}]
  }

  /** g removed from the set of f and f from the set of g. */
  function Part(a: SetAdj, f: nat, g: nat): (r: SetAdj)
    requires f < |a| && g < |a|
    ensures |r| == |a|
    ensures SetsOver(a) ==> SetsOver(r)
  {
    a[f := a[f] - {g}][g := a[g] - {f}]
  }

  /** Both-ends insertion is the symmetric link of the matrix variant. */
  lemma JoinIsLink(a: SetAdj, f: nat, g: nat)
    requires f < |a| && g < |a|
    ensures Members(Join(a, f, g)) == Link(Members(a), f, g, true)
  {
    var r, l := Members(Join(a, f, g)), Link(Members(a), f, g, true);
    forall i, j | 0 <= i < |a| && 0 <= j < |a| ensures r[i][j] == l[i][j] {
    }
    SameEntries(r, l, |a|);
  }

  /** Both-ends removal is the symmetric unlink of the matrix variant. */
  lemma PartIsLink(a: SetAdj, f: nat, g: nat)
    requires f < |a| && g < |a|
    ensures Members(Part(a, f, g)) == Link(Members(a), f, g, false)
  {
    var r, l := Members(Part(a, f, g)), Link(Members(a), f, g, false);
    forall i, j | 0 <= i < |a| && 0 <= j < |a| ensures r[i][j] == l[i][j] {
    }
    SameEntries(r, l, |a|);
  }

  /** Inserting an absent pair grows both sets by one. */
  lemma JoinSizes(a: SetAdj, f: nat, g: nat)
    requires f < |a| && g < |a| && f != g && g !in a[f] && f !in a[g]
    ensures Sizes(Join(a, f, g)) == Bump(Sizes(a), f, g, 1)
  {
    assert |a[f] + {g}| == |a[f]| + 1;
    assert |a[g] + {f}| == |a[g]| + 1;
  }

  /** Removing a present pair shrinks both sets by one. */
  lemma PartSizes(a: SetAdj, f: nat, g: nat)
    requires f < |a| && g < |a| && f != g && g in a[f] && f in a[g]
    ensures Sizes(Part(a, f, g)) == Bump(Sizes(a), f, g, -1)
  {
    assert a[f] == (a[f] - {g}) + {g};
    assert a[g] == (a[g] - {f}) + {f};
  }

  /** A new informal tie: inserted into the network and its informal part. */
  function FormTie(t: SetTies, f: nat, g: nat): (r: SetTies)
    requires f < |t.network| && f < |t.informal| && g < |t.network| && g < |t.informal|
    ensures r.formal == t.formal && r.limited == t.limited
  {
    t.(network := Join(t.network, f, g), informal := Join(t.informal, f, g))
  }

  /** A removed informal tie: taken out of the network and its informal part. */
  function CutTie(t: SetTies, f: nat, g: nat): (r: SetTies)
    requires f < |t.network| && f < |t.informal| && g < |t.network| && g < |t.informal|
    ensures r.formal == t.formal && r.limited == t.limited
  {
    t.(network := Part(t.network, f, g), informal := Part(t.informal, f, g))
  }

  /**
   * Forming a tie at two distinct agents not yet tied acts on the view as
   * the matrix variant's Add does, counter updates included.
   */
  lemma FormTieIsAdd(t: SetTies, n: nat, f: nat, g: nat)
    requires Over(t, n) && Consistent(View(t), n) && f < n && g < n && f != g && g !in t.network[f]
    ensures Over(FormTie(t, f, g), n)
    ensures View(FormTie(t, f, g)) == Add(View(t), n, f, g)
  {
    var v := View(t);
    assert !v.network[f][g] && !v.network[g][f];
    assert !v.informal[f][g] && !v.informal[g][f];
    JoinIsLink(t.network, f, g);
    JoinIsLink(t.informal, f, g);
    JoinSizes(t.network, f, g);
    JoinSizes(t.informal, f, g);
  }

  /** Cutting an informal tie acts on the view as the matrix variant's Cut does. */
  lemma CutTieIsCut(t: SetTies, n: nat, f: nat, g: nat)
    requires Over(t, n) && Consistent(View(t), n) && f < n && g < n && g in t.informal[f]
    ensures Over(CutTie(t, f, g), n)
    ensures View(CutTie(t, f, g)) == Cut(View(t), n, f, g)
  {
    var v := View(t);
    assert v.informal[f][g] && v.informal[g][f] && v.network[f][g] && v.network[g][f];
    assert f != g;
    PartIsLink(t.network, f, g);
    PartIsLink(t.informal, f, g);
    PartSizes(t.network, f, g);
    PartSizes(t.informal, f, g);
  }

  /**
   * Forming a tie where one exists changes neither the network nor any
   * degree: the insert is a no-op on the network, and the quota unit is
   * spent for nothing.
   */
  lemma FormOnTieKeepsNetwork(t: SetTies, n: nat, f: nat, g: nat)
    requires Over(t, n) && SimpleGraph(Members(t.network)) && f < n && g < n && g in t.network[f]
    ensures FormTie(t, f, g).network == t.network
    ensures Sizes(FormTie(t, f, g).network) == Sizes(t.network)
  {
    assert Members(t.network)[f][g] && Members(t.network)[g][f];
    assert f in t.network[g];
    assert t.network[f] + {g} == t.network[f] && t.network[g] + {f} == t.network[g];
  }

  // ---------------------------------------------------------------
  // Tie enforcement: every tie is visited from both ends
  // ---------------------------------------------------------------

  /** The visit of focal x to its neighbour y drew a value on the given side of the enforcement level. */
  predicate Drawn(net: SetAdj, draws: seq<seq<real>>, e: real, formal: bool, x: nat, y: nat)
    requires Initial.DrawGrid(draws, |net|) && x < |net| && y < |net|
  {
    y in net[x] && (draws[x][y] < e) == formal
  }

  /**
   * The formal (or informal) part after enforcement: y is in the set of x
   * when the visit x -> y or the visit y -> x drew on that side, since each
   * visit inserts at both ends.
   */
  function EnforcedSets(net: SetAdj, draws: seq<seq<real>>, e: real, formal: bool): (r: SetAdj)
    requires Initial.DrawGrid(draws, |net|)
    ensures |r| == |net| && SetsOver(r)
  {
    seq(|net|, x requires 0 <= x < |net| =>
      set y: nat | y < |net| && (Drawn(net, draws, e, formal, x, y) || Drawn(net, draws, e, formal, y, x)))
  }

  /** The visit x -> y comes before focal i, or is a visit of i to a member of done. */
  predicate Visited(i: nat, done: set<nat>, x: nat, y: nat)
  {
    x < i || (x == i && y in done)
  }

  /** The part built by the visits made so far. */
  function EnforcedSoFar(net: SetAdj, draws: seq<seq<real>>, e: real, formal: bool, i: nat, done: set<nat>): (r: SetAdj)
    requires Initial.DrawGrid(draws, |net|)
    ensures |r| == |net|
  {
    seq(|net|, x requires 0 <= x < |net| =>
      set y: nat | y < |net| && ((Visited(i, done, x, y) && Drawn(net, draws, e, formal, x, y))
                              || (Visited(i, done, y, x) && Drawn(net, draws, e, formal, y, x))))
  }

  /** One more visit inserts at both ends when its draw is on the side of the part. */
  lemma EnforceStep(net: SetAdj, draws: seq<seq<real>>, e: real, formal: bool, i: nat, done: set<nat>, y: nat)
    requires Initial.DrawGrid(draws, |net|) && SetsOver(net) && i < |net| && y in net[i] && y !in done
    ensures EnforcedSoFar(net, draws, e, formal, i, done + {y})
            == if (draws[i][y] < e) == formal then Join(EnforcedSoFar(net, draws, e, formal, i, done), i, y)
               else EnforcedSoFar(net, draws, e, formal, i, done)
  {
    var before := EnforcedSoFar(net, draws, e, formal, i, done);
    var after := EnforcedSoFar(net, draws, e, formal, i, done + {y});
    var want := if (draws[i][y] < e) == formal then Join(before, i, y) else before;
    forall x | 0 <= x < |net| ensures after[x] == want[x] {
      forall z ensures z in after[x] <==> z in want[x] {
      }
    }
  }

  /** Visiting every neighbour of focal i is the same as starting focal i + 1. */
  lemma EnforceNextFocal(net: SetAdj, draws: seq<seq<real>>, e: real, formal: bool, i: nat)
    requires Initial.DrawGrid(draws, |net|) && SetsOver(net) && i < |net|
    ensures EnforcedSoFar(net, draws, e, formal, i, net[i]) == EnforcedSoFar(net, draws, e, formal, i + 1, {})
  {
    var a := EnforcedSoFar(net, draws, e, formal, i, net[i]);
    var b := EnforcedSoFar(net, draws, e, formal, i + 1, {});
    forall x | 0 <= x < |net| ensures a[x] == b[x] {
      forall z ensures z in a[x] <==> z in b[x] {
      }
    }
  }

  lemma EnforceBounds(net: SetAdj, draws: seq<seq<real>>, e: real, formal: bool)
    requires Initial.DrawGrid(draws, |net|)
    ensures EnforcedSoFar(net, draws, e, formal, 0, {}) == seq(|net|, _ => {})
    ensures EnforcedSoFar(net, draws, e, formal, |net|, {}) == EnforcedSets(net, draws, e, formal)
  {
    var a, b := EnforcedSoFar(net, draws, e, formal, 0, {}), EnforcedSoFar(net, draws, e, formal, |net|, {});
    var c := EnforcedSets(net, draws, e, formal);
    forall x | 0 <= x < |net| ensures a[x] == {} && b[x] == c[x] {
      forall z ensures z in b[x] <==> z in c[x] {
      }
    }
  }

  /**
   * The enforcement loop: for every focal and every neighbour in whatever
   * order the set yields them, one draw, and the tie goes to the formal part
   * at both ends when the draw is below the enforcement level, else to the
   * informal part.
   */
  method Enforce(net: SetAdj, draws: seq<seq<real>>, e: real) returns (formal: SetAdj, informal: SetAdj)
    requires SetsOver(net) && Initial.DrawGrid(draws, |net|)
    ensures formal == EnforcedSets(net, draws, e, true) && informal == EnforcedSets(net, draws, e, false)
  {
    var n := |net|;
    formal, informal := seq(n, _ => {}), seq(n, _ => {});
    EnforceBounds(net, draws, e, true);
    EnforceBounds(net, draws, e, false);
    for focal := 0 to n
      invariant formal == EnforcedSoFar(net, draws, e, true, focal, {})
      invariant informal == EnforcedSoFar(net, draws, e, false, focal, {})
    {
      var rest := net[focal];
      ghost var done: set<nat> := {};
      while rest != {}
        invariant rest + done == net[focal] && rest !! done
        invariant formal == EnforcedSoFar(net, draws, e, true, focal, done)
        invariant informal == EnforcedSoFar(net, draws, e, false, focal, done)
        decreases |rest|
      {
        var target :| target in rest;
        EnforceStep(net, draws, e, true, focal, done, target);
        EnforceStep(net, draws, e, false, focal, done, target);
        if draws[focal][target] < e {
          formal := Join(formal, focal, target);
        } else {
          informal := Join(informal, focal, target);
        }
        rest, done := rest - {target}, done + {target};
      }
      EnforceNextFocal(net, draws, e, true, focal);
      EnforceNextFocal(net, draws, e, false, focal);
    }
  }

  /** Each part is symmetric and holds only ties of the network. */
  lemma EnforcedWithin(net: SetAdj, draws: seq<seq<real>>, e: real, formal: bool)
    requires SetsOver(net) && SimpleGraph(Members(net)) && Initial.DrawGrid(draws, |net|)
    ensures SimpleGraph(Members(EnforcedSets(net, draws, e, formal)))
    ensures forall x :: 0 <= x < |net| ==> EnforcedSets(net, draws, e, formal)[x] <= net[x]
  {
    var r, m := EnforcedSets(net, draws, e, formal), Members(net);
    forall x, y | 0 <= x < |net| && 0 <= y < |net| ensures (y in r[x] <==> x in r[y]) && (y in r[x] ==> y in net[x]) {
      assert m[x][y] == m[y][x];
    }
    forall x | 0 <= x < |net| ensures r[x] <= net[x] {
    }
    forall x | 0 <= x < |net| ensures !Members(r)[x][x] {
      assert !m[x][x];
    }
  }

  /** On a symmetric network every tie ends up in the formal part, the informal part, or both. */
  lemma EnforcedCover(net: SetAdj, draws: seq<seq<real>>, e: real)
    requires SetsOver(net) && SimpleGraph(Members(net)) && Initial.DrawGrid(draws, |net|)
    ensures forall x :: 0 <= x < |net| ==>
              EnforcedSets(net, draws, e, true)[x] + EnforcedSets(net, draws, e, false)[x] == net[x]
  {
    EnforcedWithin(net, draws, e, true);
    EnforcedWithin(net, draws, e, false);
    var f, g := EnforcedSets(net, draws, e, true), EnforcedSets(net, draws, e, false);
    forall x | 0 <= x < |net| ensures f[x] + g[x] == net[x] {
      forall y | y in net[x] ensures y in f[x] + g[x] {
        assert Drawn(net, draws, e, true, x, y) || Drawn(net, draws, e, false, x, y);
      }
    }
  }

  /**
   * A tie lands in both parts exactly when its two visits drew on opposite
   * sides of the enforcement level.
   */
  lemma EnforcedOverlap(net: SetAdj, draws: seq<seq<real>>, e: real, x: nat, y: nat)
    requires SetsOver(net) && SimpleGraph(Members(net)) && Initial.DrawGrid(draws, |net|)
    requires x < |net| && y in net[x]
    ensures (y in EnforcedSets(net, draws, e, true)[x] && y in EnforcedSets(net, draws, e, false)[x])
            <==> (draws[x][y] < e) != (draws[y][x] < e)
  {
    assert y < |net| && Members(net)[x][y] == Members(net)[y][x];
    assert x in net[y];
  }

  /** Draws in [0, 1): with an enforcement level of 0 or less, or 1 or more, no tie is in both parts. */
  lemma EnforcedDisjointAtExtremes(net: SetAdj, draws: seq<seq<real>>, e: real)
    requires SetsOver(net) && Initial.DrawGrid(draws, |net|)
    requires forall x, y :: 0 <= x < |net| && 0 <= y < |net| ==> 0.0 <= draws[x][y] < 1.0
    requires e <= 0.0 || e >= 1.0
    ensures forall x :: 0 <= x < |net| ==> EnforcedSets(net, draws, e, true)[x] !! EnforcedSets(net, draws, e, false)[x]
  {
    var f, g := EnforcedSets(net, draws, e, true), EnforcedSets(net, draws, e, false);
    forall x | 0 <= x < |net| ensures f[x] !! g[x] {
      if e <= 0.0 {
        assert f[x] == {};
      } else {
        assert g[x] == {};
      }
    }
  }

  /** The ties after enforcement, before the additional links. */
  function EnforcedTies(net: SetAdj, draws: seq<seq<real>>, e: real, limited: SetAdj): (t: SetTies)
    requires Initial.DrawGrid(draws, |net|)
  {
    SetTies(net, EnforcedSets(net, draws, e, true), EnforcedSets(net, draws, e, false), limited)
  }

  /**
   * With no tie in both parts the enforced state is the invariant of the
   * matrix variant on its view; the counters hold by construction.
   */
  lemma EnforcedConsistent(net: SetAdj, draws: seq<seq<real>>, e: real, limited: SetAdj)
    requires SetsOver(net) && SimpleGraph(Members(net)) && Initial.DrawGrid(draws, |net|)
    requires |limited| == |net| && SetsOver(limited)
    requires forall x :: 0 <= x < |net| ==> EnforcedSets(net, draws, e, true)[x] !! EnforcedSets(net, draws, e, false)[x]
    ensures Over(EnforcedTies(net, draws, e, limited), |net|)
    ensures Consistent(View(EnforcedTies(net, draws, e, limited)), |net|)
  {
    var t := EnforcedTies(net, draws, e, limited);
    var n := |net|;
    EnforcedWithin(net, draws, e, true);
    EnforcedWithin(net, draws, e, false);
    EnforcedCover(net, draws, e);
    ViewCounted(t, n);
    var v := View(t);
    forall i, j | 0 <= i < n && 0 <= j < n
      ensures v.network[i][j] == (v.formal[i][j] || v.informal[i][j]) && !(v.formal[i][j] && v.informal[i][j])
    {
      assert t.network[i] == t.formal[i] + t.informal[i] && t.formal[i] !! t.informal[i];
    }
  }

  // ---------------------------------------------------------------
  // The level mask (LIMIT_LEVEL)
  // ---------------------------------------------------------------

  /** Some agent from x up to hi - 1 is more than one level away from x. */
  predicate FarAhead(levelOf: seq<int>, x: nat, hi: nat)
    requires x < |levelOf| && hi <= |levelOf|
  {
    exists t :: x <= t < hi && Initial.Gap(levelOf[x], levelOf[t]) > 1
  }

  /**
   * The mask as the set loop builds it: each agent is inserted into its own
   * set when some later agent is more than one level away, so the mask
   * never holds a dyad of two distinct agents.
   */
  function LimitSets(n: nat, levelOf: seq<int>, limitLevel: bool): (r: SetAdj)
    requires |levelOf| == n
    ensures |r| == n && SetsOver(r)
    ensures forall x, y :: 0 <= x < n && y in r[x] ==> y == x
  {
    seq(n, x requires 0 <= x < n => if limitLevel && FarAhead(levelOf, x, n) then {x} else {})
  }

  /** The LIMIT_LEVEL loop over focal and every target from focal on. */
  method LimitLevels(n: nat, levelOf: seq<int>, limitLevel: bool) returns (limited: SetAdj)
    requires |levelOf| == n
    ensures limited == LimitSets(n, levelOf, limitLevel)
  {
    limited := seq(n, _ => {});
    if !limitLevel {
      return;
    }
    ghost var goal := LimitSets(n, levelOf, limitLevel);
    for focal := 0 to n
      invariant |limited| == n
      invariant forall x :: 0 <= x < focal ==> limited[x] == goal[x]
      invariant forall x :: focal <= x < n ==> limited[x] == {}
    {
      for target := focal to n
        invariant |limited| == n
        invariant forall x :: 0 <= x < focal ==> limited[x] == goal[x]
        invariant forall x :: focal < x < n ==> limited[x] == {}
        invariant limited[focal] == if FarAhead(levelOf, focal, target) then {focal} else {}
      {
        if Initial.Gap(levelOf[focal], levelOf[target]) > 1 {
          limited := limited[focal := limited[focal] + {focal}];
        }
      }
    }
  }

  // ---------------------------------------------------------------
  // Additional links
  // ---------------------------------------------------------------

  /** An added tie: inserted into the network and into the part its draw chose. */
  function Attach(t: SetTies, n: nat, f: nat, g: nat, enforced: bool): (r: SetTies)
    requires Over(t, n) && f < n && g < n
    ensures Over(r, n) && r.limited == t.limited && g in r.network[f]
  {
    if enforced then t.(network := Join(t.network, f, g), formal := Join(t.formal, f, g))
    else t.(network := Join(t.network, f, g), informal := Join(t.informal, f, g))
  }

  /** The guard of the loop: not yet tied, and one end with fewer informal ties than the cap. */
  predicate Open(t: SetTies, n: nat, cap: nat, d: Dyad)
    requires Over(t, n) && d.0 < n && d.1 < n
  {
    d.1 !in t.network[d.0] && (|t.informal[d.0]| < cap || |t.informal[d.1]| < cap)
  }

  /** The state after (part of) a pass, the additions still owed, and the draws used. */
  datatype SetAdded = SetAdded(ties: SetTies, left: nat, used: nat)

  /** The pass over ds from position p on: each open dyad is tied until no addition is owed. */
  function AdditionsFrom(t: SetTies, n: nat, cap: nat, ds: seq<Dyad>, p: nat, draws: seq<real>, e: real,
                         left: nat, used: nat): (r: SetAdded)
    requires Over(t, n) && DyadsOver(ds, n) && p <= |ds| && used + left <= |draws|
    ensures Over(r.ties, n) && r.left <= left && r.used + r.left == used + left
    ensures r.ties.limited == t.limited
    decreases |ds| - p
  {
    if p == |ds| || left == 0 then SetAdded(t, left, used)
    else if Open(t, n, cap, ds[p]) then
      AdditionsFrom(Attach(t, n, ds[p].0, ds[p].1, draws[used] < e), n, cap, ds, p + 1, draws, e, left - 1, used + 1)
    else AdditionsFrom(t, n, cap, ds, p + 1, draws, e, left, used)
  }

  /** One pass of the additional-links loop over the shuffled dyad list. */
  method AddLinks(t: SetTies, n: nat, cap: nat, ds: seq<Dyad>, draws: seq<real>, e: real, numAddition: nat)
    returns (r: SetTies, left: nat)
    requires Over(t, n) && DyadsOver(ds, n) && numAddition <= |draws|
    ensures left <= numAddition
    ensures SetAdded(r, left, numAddition - left) == AdditionsFrom(t, n, cap, ds, 0, draws, e, numAddition, 0)
  {
    r, left := t, numAddition;
    var used := 0;
    for p := 0 to |ds|
      invariant Over(r, n) && used + left == numAddition
      invariant AdditionsFrom(r, n, cap, ds, p, draws, e, left, used) == AdditionsFrom(t, n, cap, ds, 0, draws, e, numAddition, 0)
    {
      if left == 0 {
        break;
      }
      var (focal, target) := ds[p];
      if target !in r.network[focal] && (|r.informal[focal]| < cap || |r.informal[target]| < cap) && left > 0 {
        r := Attach(r, n, focal, target, draws[used] < e);
        left, used := left - 1, used + 1;
        if left == 0 {
          break;
        }
      }
    }
  }

  /**
   * An addition at an untied dyad keeps the invariant of the matrix variant
   * on the view, counters included: set sizes move with every insert.
   */
  lemma AttachKeepsConsistent(t: SetTies, n: nat, f: nat, g: nat, enforced: bool)
    requires Over(t, n) && Consistent(View(t), n) && f < n && g < n && f != g && g !in t.network[f]
    ensures Consistent(View(Attach(t, n, f, g, enforced)), n)
  {
    var a := Attach(t, n, f, g, enforced);
    var r := Initial.Attach(View(t), n, f, g, enforced);
    assert !View(t).network[f][g];
    JoinIsLink(t.network, f, g);
    JoinIsLink(t.formal, f, g);
    JoinIsLink(t.informal, f, g);
    assert View(a).network == r.network && View(a).formal == r.formal && View(a).informal == r.informal;
    Initial.AttachKeepsPartition(View(t), n, f, g, enforced);
    ViewCounted(a, n);
  }

  /** Unlike the matrix variant's additions, the set additions keep every degree equal to its row count. */
  lemma {:induction false} AdditionsKeepConsistent(t: SetTies, n: nat, cap: nat, ds: seq<Dyad>, p: nat, draws: seq<real>, e: real,
                                                   left: nat, used: nat)
    requires Over(t, n) && Consistent(View(t), n) && DyadsOver(ds, n) && p <= |ds| && used + left <= |draws|
    ensures Consistent(View(AdditionsFrom(t, n, cap, ds, p, draws, e, left, used).ties), n)
    decreases |ds| - p
  {
    if p < |ds| && left > 0 {
      var d := ds[p];
      if Open(t, n, cap, d) {
        AttachKeepsConsistent(t, n, d.0, d.1, draws[used] < e);
        AdditionsKeepConsistent(Attach(t, n, d.0, d.1, draws[used] < e), n, cap, ds, p + 1, draws, e, left - 1, used + 1);
      } else {
        AdditionsKeepConsistent(t, n, cap, ds, p + 1, draws, e, left, used);
      }
    }
  }

  /** Ties and informal ties only appear during the pass. */
  lemma {:induction false} AdditionsMonotone(t: SetTies, n: nat, cap: nat, ds: seq<Dyad>, p: nat, draws: seq<real>, e: real,
                                             left: nat, used: nat)
    requires Over(t, n) && DyadsOver(ds, n) && p <= |ds| && used + left <= |draws|
    ensures forall x :: 0 <= x < n ==>
              t.network[x] <= AdditionsFrom(t, n, cap, ds, p, draws, e, left, used).ties.network[x]
              && t.informal[x] <= AdditionsFrom(t, n, cap, ds, p, draws, e, left, used).ties.informal[x]
    decreases |ds| - p
  {
    if p < |ds| && left > 0 {
      if Open(t, n, cap, ds[p]) {
        AdditionsMonotone(Attach(t, n, ds[p].0, ds[p].1, draws[used] < e), n, cap, ds, p + 1, draws, e, left - 1, used + 1);
      } else {
        AdditionsMonotone(t, n, cap, ds, p + 1, draws, e, left, used);
      }
    }
  }

  lemma SubsetSize(a: set<nat>, b: set<nat>)
    requires a <= b
    ensures |a| <= |b|
  {
    assert b == a + (b - a);
  }

  /** A dyad that is not open stays closed as ties and informal ties are added. */
  lemma ClosedStaysClosed(t: SetTies, u: SetTies, n: nat, cap: nat, d: Dyad)
    requires Over(t, n) && Over(u, n) && d.0 < n && d.1 < n && !Open(t, n, cap, d)
    requires forall x :: 0 <= x < n ==> t.network[x] <= u.network[x] && t.informal[x] <= u.informal[x]
    ensures !Open(u, n, cap, d)
  {
    if d.1 !in t.network[d.0] {
      assert t.informal[d.0] <= u.informal[d.0] && t.informal[d.1] <= u.informal[d.1];
      SubsetSize(t.informal[d.0], u.informal[d.0]);
      SubsetSize(t.informal[d.1], u.informal[d.1]);
    }
  }

  /** A pass that ends with additions owed leaves every dyad from p on closed. */
  lemma {:induction false} ShortPassClosesAll(t: SetTies, n: nat, cap: nat, ds: seq<Dyad>, p: nat, draws: seq<real>, e: real,
                                              left: nat, used: nat)
    requires Over(t, n) && DyadsOver(ds, n) && p <= |ds| && used + left <= |draws|
    requires AdditionsFrom(t, n, cap, ds, p, draws, e, left, used).left > 0
    ensures forall q :: p <= q < |ds| ==> !Open(AdditionsFrom(t, n, cap, ds, p, draws, e, left, used).ties, n, cap, ds[q])
    decreases |ds| - p
  {
    var r := AdditionsFrom(t, n, cap, ds, p, draws, e, left, used);
    if p < |ds| {
      var d := ds[p];
      if Open(t, n, cap, d) {
        var t' := Attach(t, n, d.0, d.1, draws[used] < e);
        ShortPassClosesAll(t', n, cap, ds, p + 1, draws, e, left - 1, used + 1);
        AdditionsMonotone(t', n, cap, ds, p + 1, draws, e, left - 1, used + 1);
        ClosedStaysClosed(t', r.ties, n, cap, d);
      } else {
        ShortPassClosesAll(t, n, cap, ds, p + 1, draws, e, left, used);
        AdditionsMonotone(t, n, cap, ds, p + 1, draws, e, left, used);
        ClosedStaysClosed(t, r.ties, n, cap, d);
      }
    }
  }

  /** With no open dyad from p on, the pass changes nothing. */
  lemma {:induction false} ClosedPassIdle(t: SetTies, n: nat, cap: nat, ds: seq<Dyad>, p: nat, draws: seq<real>, e: real,
                                          left: nat, used: nat)
    requires Over(t, n) && DyadsOver(ds, n) && p <= |ds| && used + left <= |draws|
    requires forall q :: p <= q < |ds| ==> !Open(t, n, cap, ds[q])
    ensures AdditionsFrom(t, n, cap, ds, p, draws, e, left, used) == SetAdded(t, left, used)
    decreases |ds| - p
  {
    if p < |ds| && left > 0 {
      ClosedPassIdle(t, n, cap, ds, p + 1, draws, e, left, used);
    }
  }

  /**
   * If the first pass ends with additions owed, a further pass over the
   * same list adds nothing and owes the same: the source's outer loop never
   * ends.
   */
  lemma ShortPassRepeatsForever(t: SetTies, n: nat, cap: nat, ds: seq<Dyad>, draws: seq<real>, e: real, numAddition: nat)
    requires Over(t, n) && DyadsOver(ds, n) && numAddition <= |draws|
    requires AdditionsFrom(t, n, cap, ds, 0, draws, e, numAddition, 0).left > 0
    ensures var r := AdditionsFrom(t, n, cap, ds, 0, draws, e, numAddition, 0);
            AdditionsFrom(r.ties, n, cap, ds, 0, draws, e, r.left, r.used) == r
  {
    var r := AdditionsFrom(t, n, cap, ds, 0, draws, e, numAddition, 0);
    ShortPassClosesAll(t, n, cap, ds, 0, draws, e, numAddition, 0);
    ClosedPassIdle(r.ties, n, cap, ds, 0, draws, e, r.left, r.used);
  }

  // ---------------------------------------------------------------
  // Rewiring weights, read off the sets
  // ---------------------------------------------------------------

  /**
   * get_rewiring_weight_network_closure over sets: one plus the agents in
   * both neighbour sets, over the larger set size plus one when the two are
   * not tied.  It is the matrix variant's weight on the view.
   */
  method ClosureWeightOf(t: SetTies, n: nat, f: nat, g: nat) returns (w: real)
    requires Over(t, n) && f < n && g < n
    ensures w == ClosureWeight(View(t), n, f, g)
  {
    ghost var common := CommonRow(Members(t.network), f, g);
    var score := 1.0;
    for i := 0 to n
      invariant score == (1 + Count(common[..i])) as real
    {
      if i in t.network[f] && i in t.network[g] {
        score := score + 1.0;
      }
      assert common[..i + 1][..i] == common[..i];
    }
    assert common[..n] == common;
    var denom := MaxInt(|t.network[f]|, |t.network[g]|) as real + (if g in t.network[f] then 0.0 else 1.0);
    w := if denom == 0.0 then 0.0 else score / denom;
  }

  /** get_rewiring_weight: closure, the smaller set size, or 0. */
  method WeightOf(mode: Dynamics, t: SetTies, n: nat, f: nat, g: nat) returns (w: real)
    requires Over(t, n) && f < n && g < n
    ensures w == Weight(mode, View(t), n, f, g)
  {
    match mode
    case NetworkClosure =>
      w := ClosureWeightOf(t, n, f, g);
    case PreferentialAttachment =>
      w := MinInt(|t.network[f]|, |t.network[g]|) as real;
    case Neither =>
      w := 0.0;
  }

  /**
   * On a symmetric loop-free network the closure weight lies in (0, 1]
   * whatever the formal and informal parts hold, since the degrees are the
   * set sizes.
   */
  lemma ClosureWeightInUnit(t: SetTies, n: nat, f: nat, g: nat)
    requires Over(t, n) && SimpleGraph(Members(t.network)) && f < n && g < n
    ensures 0.0 < ClosureWeight(View(t), n, f, g) <= 1.0
  {
    var m := Members(t.network);
    assert !m[g][g];
    CommonWithinRow(m, f, g);
    SizesAreCounts(t.network);
    ClosureRatioBounds(Count(CommonRow(m, f, g)), |t.network[f]|, |t.network[g]|, m[f][g]);
  }

  // ---------------------------------------------------------------
  // Directed rounds
  // ---------------------------------------------------------------

  /** k weights of 1: the fallback of both directed rounds, whose denominator is the list length. */
  function Ones(k: nat): (w: seq<real>)
    ensures |w| == k
  {
    seq(k, _ => 1.0)
  }

  lemma {:induction false} OnesSum(k: nat)
    ensures Sum(Ones(k)) == k as real
  {
    if k > 0 {
      OnesSum(k - 1);
      assert Ones(k)[..k - 1] == Ones(k - 1);
    }
  }

  lemma {:induction false} OnesShare(k: nat, d: nat)
    requires 0 < k && d <= k
    ensures CumShare(Ones(k), k as real, d) == d as real / k as real
  {
    if d > 0 {
      OnesShare(k, d - 1);
      assert (d - 1) as real / k as real + 1.0 / k as real == d as real / k as real;
    }
  }

  /** x < y / k exactly when x * k < y, for k > 0. */
  lemma ShareOrder(x: real, y: real, k: real)
    requires k > 0.0
    ensures x < y / k <==> x * k < y
    ensures y / k >= x <==> y >= x * k
  {
    assert (y / k) * k == y;
    if x < y / k {
      assert x * k < (y / k) * k;
    }
    if x * k < y {
      assert x * k / k < y / k;
    }
  }

  /** With every weight 1, position d stops the walk exactly when marker * len <= d + 1. */
  lemma StopsOnes(len: nat, marker: real, d: nat)
    requires d < len
    ensures Stops(Ones(len), len as real, marker, d) <==> marker * len as real <= (d + 1) as real
  {
    OnesShare(len, d + 1);
    ShareOrder(marker, (d + 1) as real, len as real);
  }

  /**
   * The fallback picks uniformly: with every weight 1 and the list length as
   * denominator, the walk stops at index k exactly when the marker falls in
   * (k / len, (k + 1) / len], an interval of width 1 / len for every k.
   */
  lemma UniformPick(len: nat, marker: real, k: nat)
    requires 0 < len && 0.0 < marker < 1.0
    ensures Select(Ones(len), len as real, marker) == Some(k)
            <==> k < len && (k as real) < marker * len as real <= (k + 1) as real
  {
    var w, L := Ones(len), len as real;
    var x := marker * L;
    assert 0.0 < x by {
      assert 0.0 < marker && 0.0 < L;
    }
    OnesSum(len);
    SelectFound(w, L, marker);
    var j := Select(w, L, marker).value;
    StopsOnes(len, marker, j);
    if j > 0 {
      StopsOnes(len, marker, j - 1);
    }
    assert j as real < x <= (j + 1) as real;
    if k < len && (k as real) < x <= (k + 1) as real {
      assert j == k;
    }
  }

  /** The outcome of one directed round: the new state, the index chosen, and whether the fallback was taken. */
  datatype SetRound = SetRound(ties: SetTies, index: nat, fallback: bool)

  /** The weights the walk uses: w itself, or all 1 over the list length when w sums to 0. */
  function Wheel(w: seq<real>): (seq<real>, real)
  {
    if Sum(w) == 0.0 then (Ones(|w|), |w| as real) else (w, Sum(w))
  }

  /** The roulette's pick over a non-empty list of weights, and whether it took the fallback. */
  function Pick(w: seq<real>, marker: real): (r: (nat, bool))
    requires |w| > 0 && 0.0 <= marker < 1.0
    ensures r.0 < |w|
  {
    WheelStops(w, marker);
    (Select(Wheel(w).0, Wheel(w).1, marker).value, Sum(w) == 0.0)
  }

  /** A non-empty list always gets a pick from its wheel. */
  lemma WheelStops(w: seq<real>, marker: real)
    requires |w| > 0 && 0.0 <= marker < 1.0
    ensures Wheel(w).1 != 0.0 && Select(Wheel(w).0, Wheel(w).1, marker).Some?
    ensures Select(Wheel(w).0, Wheel(w).1, marker).value < |w|
  {
    OnesSum(|w|);
    SelectFound(Wheel(w).0, Wheel(w).1, marker);
  }

  /** Off the fallback the pick has non-zero weight; on it, the pick is the uniform one. */
  lemma PickSelects(w: seq<real>, marker: real)
    requires |w| > 0 && 0.0 <= marker < 1.0
    ensures Pick(w, marker).1 <==> Sum(w) == 0.0
    ensures !Pick(w, marker).1 ==> Select(w, Sum(w), marker) == Some(Pick(w, marker).0) && w[Pick(w, marker).0] != 0.0
    ensures Pick(w, marker).1 ==> Select(Ones(|w|), |w| as real, marker) == Some(Pick(w, marker).0)
  {
    WheelStops(w, marker);
    if Sum(w) != 0.0 {
      SelectFound(w, Sum(w), marker);
    }
  }

  /**
   * One round of do_tie_formation.  The weights are those of the matrix
   * variant on the view (formable dyads only, caps read off the informal
   * set sizes); when they sum to 0 every dyad of the list weighs 1 and the
   * denominator is the list length, so the pick is uniform over all dyads,
   * tied or not.  An empty list never gets a pick: the source's loop would
   * not end.
   */
  function FormationRound(mode: Dynamics, t: SetTies, n: nat, cap: nat, ds: seq<Dyad>, marker: real): (r: Option<SetRound>)
    requires Over(t, n) && DyadsOver(ds, n) && 0.0 <= marker < 1.0
    ensures r.None? <==> ds == []
    ensures r.Some? ==> r.value.index < |ds| && r.value.ties == FormTie(t, ds[r.value.index].0, ds[r.value.index].1)
  {
    if ds == [] then None
    else
      var (k, fallback) := Pick(FormationWeights(mode, View(t), n, cap, ds), marker);
      Some(SetRound(FormTie(t, ds[k].0, ds[k].1), k, fallback))
  }

  /**
   * The pick of a formation round: off the fallback, a formable dyad of
   * non-zero weight; on it, a uniform pick over the whole list.
   */
  lemma FormationRoundPicks(mode: Dynamics, t: SetTies, n: nat, cap: nat, ds: seq<Dyad>, marker: real)
    requires Over(t, n) && DyadsOver(ds, n) && 0.0 <= marker < 1.0 && ds != []
    ensures var r := FormationRound(mode, t, n, cap, ds, marker).value;
            r.fallback <==> Sum(FormationWeights(mode, View(t), n, cap, ds)) == 0.0
    ensures var r := FormationRound(mode, t, n, cap, ds, marker).value;
            !r.fallback ==> Formable(View(t), n, cap, ds[r.index]) && Weight(mode, View(t), n, ds[r.index].0, ds[r.index].1) != 0.0
    ensures var r := FormationRound(mode, t, n, cap, ds, marker).value;
            r.fallback ==> Select(Ones(|ds|), |ds| as real, marker) == Some(r.index)
  {
    var w := FormationWeights(mode, View(t), n, cap, ds);
    PickSelects(w, marker);
  }

  /** A round that picks by weight forms a tie at a formable dyad and keeps the invariant. */
  lemma FormationRoundKeepsConsistent(mode: Dynamics, t: SetTies, n: nat, cap: nat, ds: seq<Dyad>, marker: real)
    requires Over(t, n) && Consistent(View(t), n) && DyadsOver(ds, n) && 0.0 <= marker < 1.0
    requires FormationRound(mode, t, n, cap, ds, marker).Some? && !FormationRound(mode, t, n, cap, ds, marker).value.fallback
    ensures Over(FormationRound(mode, t, n, cap, ds, marker).value.ties, n)
    ensures Consistent(View(FormationRound(mode, t, n, cap, ds, marker).value.ties), n)
  {
    FormationRoundPicks(mode, t, n, cap, ds, marker);
    var d := ds[FormationRound(mode, t, n, cap, ds, marker).value.index];
    assert !View(t).network[d.0][d.1];
    FormTieIsAdd(t, n, d.0, d.1);
    AddKeepsConsistent(View(t), n, d.0, d.1);
  }

  /**
   * A fallback pick of a dyad already tied spends a quota unit and leaves
   * the network and every degree as they were (the matrix variant instead
   * raises two counters).
   */
  lemma FormationFallbackOnTie(mode: Dynamics, t: SetTies, n: nat, cap: nat, ds: seq<Dyad>, marker: real)
    requires Over(t, n) && SimpleGraph(Members(t.network)) && DyadsOver(ds, n) && 0.0 <= marker < 1.0
    requires FormationRound(mode, t, n, cap, ds, marker).Some?
    requires var k := FormationRound(mode, t, n, cap, ds, marker).value.index; ds[k].1 in t.network[ds[k].0]
    ensures FormationRound(mode, t, n, cap, ds, marker).value.ties.network == t.network
  {
    var k := FormationRound(mode, t, n, cap, ds, marker).value.index;
    FormOnTieKeepsNetwork(t, n, ds[k].0, ds[k].1);
  }

  /** The pairs (f, g) with g in a[f] and g below k, in ascending g. */
  function RowPairs(a: SetAdj, f: nat, k: nat): (r: seq<Dyad>)
    requires f < |a|
    ensures forall d :: d in r <==> d.0 == f && d.1 < k && d.1 in a[f]
  {
    if k == 0 then [] else RowPairs(a, f, k - 1) + (if k - 1 in a[f] then [(f, k - 1)] else [])
  }

  /**
   * The pairs (f, g) with g in a[f] and f below k, focal by focal.  The
   * source lists each set in hash order; here each row is listed in
   * ascending order, which the shuffle that follows makes immaterial.
   */
  function PairsBelow(a: SetAdj, k: nat): (r: seq<Dyad>)
    requires k <= |a|
    ensures forall d :: d in r <==> d.0 < k && d.1 < |a| && d.1 in a[d.0]
  {
    if k == 0 then [] else PairsBelow(a, k - 1) + RowPairs(a, k - 1, |a|)
  }

  /** pairs is a listing of the ordered informal pairs, in any order. */
  predicate ListsInformal(pairs: seq<Dyad>, t: SetTies, n: nat)
    requires Over(t, n)
  {
    DyadsOver(pairs, n) && multiset(pairs) == multiset(PairsBelow(t.informal, n))
  }

  /** A listing holds exactly the informal pairs. */
  lemma ListedPairs(pairs: seq<Dyad>, t: SetTies, n: nat)
    requires Over(t, n) && ListsInformal(pairs, t, n)
    ensures forall p :: 0 <= p < |pairs| ==> pairs[p].1 in t.informal[pairs[p].0]
    ensures pairs == [] <==> forall f :: 0 <= f < n ==> t.informal[f] == {}
  {
    forall p | 0 <= p < |pairs| ensures pairs[p].1 in t.informal[pairs[p].0] {
      assert pairs[p] in multiset(pairs);
      assert pairs[p] in PairsBelow(t.informal, n);
    }
    if exists f, g :: 0 <= f < n && g in t.informal[f] {
      var f, g :| 0 <= f < n && g in t.informal[f];
      assert (f, g) in PairsBelow(t.informal, n);
      assert (f, g) in multiset(pairs);
    }
    if pairs != [] {
      assert pairs[0].1 in t.informal[pairs[0].0];
    }
  }

  // ---------------------------------------------------------------
  // The slice shuffle
  // ---------------------------------------------------------------

  /** s with the entries at i and j exchanged. */
  function Swap(s: seq<Dyad>, i: nat, j: nat): (r: seq<Dyad>)
    requires i < |s| && j < |s|
    ensures |r| == |s| && multiset(r) == multiset(s)
  {
    s[i := s[j]][j := s[i]]
  }

  /** The position the shuffle exchanges position i with: the i-th draw, reduced to 0 .. i. */
  function SwapIndex(draws: seq<nat>, i: nat): (j: nat)
    ensures j <= i
  {
    if i < |draws| then draws[i] % (i + 1) else 0
  }

  /** Positions i down to 1 of the shuffle, each exchanged with a position at or below it. */
  function ShuffleDown(s: seq<Dyad>, draws: seq<nat>, i: nat): (r: seq<Dyad>)
    requires i < |s|
    ensures |r| == |s| && multiset(r) == multiset(s)
    decreases i
  {
    if i == 0 then s else ShuffleDown(Swap(s, i, SwapIndex(draws, i)), draws, i - 1)
  }

  /**
   * The slice shuffle of the random number library: from the last position
   * down to the second, each position is exchanged with one drawn at or
   * below it.  The draws stand for the generator; whatever they are, the
   * result is a reordering of the list.
   */
  function Shuffled(s: seq<Dyad>, draws: seq<nat>): (r: seq<Dyad>)
    ensures |r| == |s| && multiset(r) == multiset(s)
  {
    if s == [] then s else ShuffleDown(s, draws, |s| - 1)
  }

  /** A shuffle of the informal pairs in listing order is a listing. */
  lemma ShuffledLists(t: SetTies, n: nat, draws: seq<nat>)
    requires Over(t, n) && SimpleGraph(Members(t.informal))
    ensures ListsInformal(Shuffled(PairsBelow(t.informal, n), draws), t, n)
  {
    var pairs := Shuffled(PairsBelow(t.informal, n), draws);
    forall p | 0 <= p < |pairs| ensures pairs[p].0 < n && pairs[p].1 < n && pairs[p].0 != pairs[p].1 {
      assert pairs[p] in multiset(pairs);
      assert pairs[p] in PairsBelow(t.informal, n);
      var (f, g) := pairs[p];
      assert Members(t.informal)[f][g];
    }
  }

  /**
   * One round of do_tie_break over the listed informal pairs.  The weights
   * are inverted against their running maximum as in the matrix variant;
   * when the inverted weights sum to 0 every pair weighs 1 over the list
   * length.  Either way the pick is a listed informal pair.  No informal
   * pair at all gives no pick: the source's loop would not end.
   */
  function BreakRound(mode: Dynamics, t: SetTies, n: nat, pairs: seq<Dyad>, marker: real): (r: Option<SetRound>)
    requires Over(t, n) && ListsInformal(pairs, t, n) && 0.0 <= marker < 1.0
    ensures r.None? <==> forall f :: 0 <= f < n ==> t.informal[f] == {}
    ensures r.Some? ==> r.value.index < |pairs| && pairs[r.value.index].1 in t.informal[pairs[r.value.index].0]
    ensures r.Some? ==> r.value.ties == CutTie(t, pairs[r.value.index].0, pairs[r.value.index].1)
  {
    ListedPairs(pairs, t, n);
    if pairs == [] then None
    else
      var (k, fallback) := Pick(BreakProbabilities(mode, View(t), n, pairs), marker);
      Some(SetRound(CutTie(t, pairs[k].0, pairs[k].1), k, fallback))
  }

  /**
   * The pick of a break round: off the fallback, a pair of non-zero weight
   * strictly below the running maximum; on it, a uniform pick over the
   * listing.
   */
  lemma BreakRoundPicks(mode: Dynamics, t: SetTies, n: nat, pairs: seq<Dyad>, marker: real)
    requires Over(t, n) && ListsInformal(pairs, t, n) && 0.0 <= marker < 1.0 && pairs != []
    ensures var r := BreakRound(mode, t, n, pairs, marker).value;
            r.fallback <==> Sum(BreakProbabilities(mode, View(t), n, pairs)) == 0.0
    ensures var r := BreakRound(mode, t, n, pairs, marker).value;
            !r.fallback ==> 0.0 != Weight(mode, View(t), n, pairs[r.index].0, pairs[r.index].1) < CutMax(mode, View(t), n, pairs, |pairs|)
    ensures var r := BreakRound(mode, t, n, pairs, marker).value;
            r.fallback ==> Select(Ones(|pairs|), |pairs| as real, marker) == Some(r.index)
  {
    ListedPairs(pairs, t, n);
    var w := BreakProbabilities(mode, View(t), n, pairs);
    PickSelects(w, marker);
  }

  /**
   * Every break round keeps the invariant, the fallback included: it only
   * ever cuts a listed informal pair.
   */
  lemma BreakRoundKeepsConsistent(mode: Dynamics, t: SetTies, n: nat, pairs: seq<Dyad>, marker: real)
    requires Over(t, n) && Consistent(View(t), n) && ListsInformal(pairs, t, n) && 0.0 <= marker < 1.0
    requires BreakRound(mode, t, n, pairs, marker).Some?
    ensures Over(BreakRound(mode, t, n, pairs, marker).value.ties, n)
    ensures Consistent(View(BreakRound(mode, t, n, pairs, marker).value.ties), n)
  {
    var d := pairs[BreakRound(mode, t, n, pairs, marker).value.index];
    CutTieIsCut(t, n, d.0, d.1);
    assert View(t).informal[d.0][d.1];
    CutKeepsConsistent(View(t), n, d.0, d.1);
  }

  /**
   * A pair that is both formal and informal (possible after enforcement)
   * leaves the network when cut but stays in the formal part: the formal
   * part is then no longer within the network.
   */
  lemma BreakOfDoubleTie(mode: Dynamics, t: SetTies, n: nat, pairs: seq<Dyad>, marker: real)
    requires Over(t, n) && ListsInformal(pairs, t, n) && 0.0 <= marker < 1.0
    requires BreakRound(mode, t, n, pairs, marker).Some?
    requires var d := pairs[BreakRound(mode, t, n, pairs, marker).value.index]; d.1 in t.formal[d.0]
    ensures var d := pairs[BreakRound(mode, t, n, pairs, marker).value.index];
            var u := BreakRound(mode, t, n, pairs, marker).value.ties;
            d.1 in u.formal[d.0] && d.1 !in u.network[d.0]
  {
  }

  // ---------------------------------------------------------------
  // The directed routines
  // ---------------------------------------------------------------

  /** Every set relation read both ways: no self-ties, and g in the set of f exactly when f is in the set of g. */
  predicate SymmetricSets(a: SetAdj)
  {
    forall i, j :: 0 <= i < |a| && j in a[i] ==> j != i && j < |a| && i in a[j]
  }

  lemma SymmetricSetsIsSimple(a: SetAdj)
    requires SetsOver(a)
    ensures SymmetricSets(a) <==> SimpleGraph(Members(a))
  {
    var m := Members(a);
    if SimpleGraph(m) {
      forall i, j | 0 <= i < |a| && j in a[i] ensures j != i && j < |a| && i in a[j] {
        assert m[i][j] && m[j][i];
      }
    }
  }

  /** The network and its informal part are symmetric without self-ties, whatever the formal part holds. */
  predicate Simple(t: SetTies)
  {
    SymmetricSets(t.network) && SymmetricSets(t.informal)
  }

  lemma FormTieKeepsSimple(t: SetTies, n: nat, f: nat, g: nat)
    requires Over(t, n) && Simple(t) && f < n && g < n && f != g
    ensures Over(FormTie(t, f, g), n) && Simple(FormTie(t, f, g))
  {
  }

  lemma CutTieKeepsSimple(t: SetTies, n: nat, f: nat, g: nat)
    requires Over(t, n) && Simple(t) && f < n && g < n
    ensures Over(CutTie(t, f, g), n) && Simple(CutTie(t, f, g))
  {
  }

  /**
   * The tie invariant read off the sets: every relation symmetric without
   * self-ties, and each network set the disjoint union of its two parts.
   */
  predicate Tidy(t: SetTies, n: nat)
    requires Over(t, n)
  {
    Simple(t) && SymmetricSets(t.formal)
    && forall i :: 0 <= i < n ==> t.network[i] == t.formal[i] + t.informal[i] && t.formal[i] !! t.informal[i]
  }

  /** On the sets the invariant is exactly the matrix variant's invariant on the view, counters included. */
  lemma TidyIsConsistent(t: SetTies, n: nat)
    requires Over(t, n)
    ensures Tidy(t, n) <==> Consistent(View(t), n)
  {
    var v := View(t);
    ViewShaped(t, n);
    ViewCounted(t, n);
    SymmetricSetsIsSimple(t.network);
    SymmetricSetsIsSimple(t.formal);
    SymmetricSetsIsSimple(t.informal);
    if Tidy(t, n) {
      forall i, j | 0 <= i < n && 0 <= j < n
        ensures v.network[i][j] == (v.formal[i][j] || v.informal[i][j]) && !(v.formal[i][j] && v.informal[i][j])
      {
        assert j in t.network[i] <==> j in t.formal[i] + t.informal[i];
      }
    }
    if Consistent(v, n) {
      forall i | 0 <= i < n ensures t.network[i] == t.formal[i] + t.informal[i] && t.formal[i] !! t.informal[i] {
        forall j | j in t.network[i] + t.formal[i] + t.informal[i]
          ensures j in t.network[i] <==> j in t.formal[i] + t.informal[i]
          ensures !(j in t.formal[i] && j in t.informal[i])
        {
          assert j < n;
          assert v.network[i][j] == (v.formal[i][j] || v.informal[i][j]) && !(v.formal[i][j] && v.informal[i][j]);
        }
      }
    }
  }

  /**
   * One round of do_tie_break as the scenario runs it: the informal pairs
   * are listed, shuffled with the round's draws, and the marker picks the
   * pair to cut.  No pick when no informal pair is left.
   */
  function NextBreak(mode: Dynamics, t: SetTies, n: nat, draws: seq<nat>, marker: real): (r: Option<SetRound>)
    requires Over(t, n) && Simple(t) && 0.0 <= marker < 1.0
    ensures r.None? <==> forall f :: 0 <= f < n ==> t.informal[f] == {}
    ensures r.Some? ==> Over(r.value.ties, n) && Simple(r.value.ties)
    ensures r.Some? ==> r.value.ties.formal == t.formal && r.value.ties.limited == t.limited
  {
    var pairs := Shuffled(PairsBelow(t.informal, n), draws);
    ShuffledLists(t, n, draws);
    var r := BreakRound(mode, t, n, pairs, marker);
    if r.Some? then
      CutTieKeepsSimple(t, n, pairs[r.value.index].0, pairs[r.value.index].1);
      r
    else r
  }

  /** A round removes exactly one informal tie, and keeps the invariant whenever it held. */
  lemma NextBreakEffect(mode: Dynamics, t: SetTies, n: nat, draws: seq<nat>, marker: real)
    requires Over(t, n) && Simple(t) && 0.0 <= marker < 1.0 && NextBreak(mode, t, n, draws, marker).Some?
    ensures Total(Sizes(NextBreak(mode, t, n, draws, marker).value.ties.informal)) == Total(Sizes(t.informal)) - 2
    ensures Tidy(t, n) ==> Tidy(NextBreak(mode, t, n, draws, marker).value.ties, n)
  {
    var pairs := Shuffled(PairsBelow(t.informal, n), draws);
    ShuffledLists(t, n, draws);
    var r := BreakRound(mode, t, n, pairs, marker).value;
    var (f, g) := pairs[r.index];
    assert f != g && f in t.informal[g];
    PartSizes(t.informal, f, g);
    BumpTotal(Sizes(t.informal), f, g, -1);
    if Tidy(t, n) {
      TidyIsConsistent(t, n);
      BreakRoundKeepsConsistent(mode, t, n, pairs, marker);
      TidyIsConsistent(r.ties, n);
    }
  }

  /** One round of do_tie_formation as the scenario runs it, over its dyad list. */
  function NextFormation(mode: Dynamics, t: SetTies, n: nat, cap: nat, ds: seq<Dyad>, marker: real): (r: Option<SetRound>)
    requires Over(t, n) && Simple(t) && DyadsOver(ds, n) && 0.0 <= marker < 1.0
    ensures r.None? <==> ds == []
    ensures r.Some? ==> Over(r.value.ties, n) && Simple(r.value.ties)
    ensures r.Some? ==> r.value.ties.formal == t.formal && r.value.ties.limited == t.limited
    ensures r.Some? && !r.value.fallback && Tidy(t, n) ==> Tidy(r.value.ties, n)
  {
    var r := FormationRound(mode, t, n, cap, ds, marker);
    if r.Some? then
      FormTieKeepsSimple(t, n, ds[r.value.index].0, ds[r.value.index].1);
      if !r.value.fallback && Tidy(t, n) then
        TidyIsConsistent(t, n);
        FormationRoundKeepsConsistent(mode, t, n, cap, ds, marker);
        TidyIsConsistent(r.value.ties, n);
        r
      else r
    else r
  }

  /** When the weights sum to 0 every weight becomes 1 over the list length; then the roulette walks. */
  method Spin(w: seq<real>, denom: real, marker: real) returns (k: nat, fallback: bool)
    requires |w| > 0 && denom == Sum(w) && 0.0 <= marker < 1.0
    ensures (k, fallback) == Pick(w, marker)
  {
    var weights, total := w, denom;
    fallback := denom == 0.0;
    if fallback {
      weights, total := Ones(|w|), |w| as real;
    }
    WheelStops(w, marker);
    var found;
    found, k := Walk(weights, total, marker);
  }

  /** The weight loop of do_tie_formation: each formable dyad's weight, 0 elsewhere, and their sum. */
  method FormationWeightsOf(mode: Dynamics, t: SetTies, n: nat, cap: nat, ds: seq<Dyad>) returns (w: seq<real>, denom: real)
    requires Over(t, n) && DyadsOver(ds, n)
    ensures Shaped(View(t), n) && w == FormationWeights(mode, View(t), n, cap, ds) && denom == Sum(w)
  {
    ViewShaped(t, n);
    w, denom := [], 0.0;
    for d := 0 to |ds|
      invariant w == FormationWeights(mode, View(t), n, cap, ds)[..d] && denom == Sum(w)
    {
      var (f, g) := ds[d];
      var x := 0.0;
      if g !in t.network[f] && f != g && g !in t.limited[f] && |t.informal[f]| < cap && |t.informal[g]| < cap {
        x := WeightOf(mode, t, n, f, g);
      }
      assert x == FormationWeights(mode, View(t), n, cap, ds)[d];
      Selection.SumAppend(w, x);
      w, denom := w + [x], denom + x;
    }
  }

  /** One round of do_tie_formation. */
  method FormationStep(mode: Dynamics, t: SetTies, n: nat, cap: nat, ds: seq<Dyad>, marker: real) returns (r: SetRound)
    requires Over(t, n) && DyadsOver(ds, n) && ds != [] && 0.0 <= marker < 1.0
    ensures FormationRound(mode, t, n, cap, ds, marker) == Some(r)
  {
    var w, denom := FormationWeightsOf(mode, t, n, cap, ds);
    var k, fallback := Spin(w, denom, marker);
    r := SetRound(FormTie(t, ds[k].0, ds[k].1), k, fallback);
  }

  /** One pass of the weight loop of do_tie_break: the next listed pair's weight and the running maximum. */
  method BreakWeightNext(mode: Dynamics, t: SetTies, n: nat, pairs: seq<Dyad>, d: nat, w: seq<real>, max: real)
    returns (w': seq<real>, max': real)
    requires Over(t, n) && Shaped(View(t), n) && DyadsOver(pairs, n) && d < |pairs|
    requires pairs[d].1 in t.informal[pairs[d].0]
    requires w == BreakWeights(mode, View(t), n, pairs)[..d] && max == CutMax(mode, View(t), n, pairs, d)
    ensures w' == BreakWeights(mode, View(t), n, pairs)[..d + 1] && max' == CutMax(mode, View(t), n, pairs, d + 1)
  {
    var (f, g) := pairs[d];
    var x := WeightOf(mode, t, n, f, g);
    assert x == BreakWeights(mode, View(t), n, pairs)[d];
    w', max' := w + [x], if x > max then x else max;
  }

  /** The weight loop of do_tie_break: each listed pair's weight and their running maximum. */
  method BreakWeightsOf(mode: Dynamics, t: SetTies, n: nat, pairs: seq<Dyad>) returns (w: seq<real>, max: real)
    requires Over(t, n) && ListsInformal(pairs, t, n)
    ensures Shaped(View(t), n)
    ensures w == BreakWeights(mode, View(t), n, pairs) && max == CutMax(mode, View(t), n, pairs, |pairs|)
  {
    ViewShaped(t, n);
    ListedPairs(pairs, t, n);
    w, max := [], Metrics.FloatMin;
    for d := 0 to |pairs|
      invariant w == BreakWeights(mode, View(t), n, pairs)[..d] && max == CutMax(mode, View(t), n, pairs, d)
    {
      w, max := BreakWeightNext(mode, t, n, pairs, d, w, max);
    }
  }

  /** One round of do_tie_break over a listing of the informal pairs. */
  method BreakStep(mode: Dynamics, t: SetTies, n: nat, pairs: seq<Dyad>, marker: real) returns (r: SetRound)
    requires Over(t, n) && ListsInformal(pairs, t, n) && pairs != [] && 0.0 <= marker < 1.0
    ensures BreakRound(mode, t, n, pairs, marker) == Some(r)
  {
    var w, max := BreakWeightsOf(mode, t, n, pairs);
    var p, denom := Selection.InvertedOf(w, max);
    var k, fallback := Spin(p, denom, marker);
    r := SetRound(CutTie(t, pairs[k].0, pairs[k].1), k, fallback);
  }

  /** The informal pairs, focal by focal, each row in ascending order. */
  method ListInformal(t: SetTies, n: nat) returns (pairs: seq<Dyad>)
    requires Over(t, n)
    ensures pairs == PairsBelow(t.informal, n)
  {
    pairs := [];
    for f := 0 to n
      invariant pairs == PairsBelow(t.informal, f)
    {
      for g := 0 to n
        invariant pairs == PairsBelow(t.informal, f) + RowPairs(t.informal, f, g)
      {
        if g in t.informal[f] {
          pairs := pairs + [(f, g)];
        }
      }
    }
  }

  /** One round of do_tie_break: list the informal pairs, shuffle them, cut the pick. */
  method BreakStepOf(mode: Dynamics, t: SetTies, n: nat, draws: seq<nat>, marker: real) returns (r: Option<SetRound>)
    requires Over(t, n) && Simple(t) && 0.0 <= marker < 1.0
    ensures r == NextBreak(mode, t, n, draws, marker)
  {
    var pairs := ListInformal(t, n);
    pairs := Shuffled(pairs, draws);
    ShuffledLists(t, n, draws);
    ListedPairs(pairs, t, n);
    if pairs == [] {
      return None;
    }
    var round := BreakStep(mode, t, n, pairs, marker);
    r := Some(round);
  }

  /**
   * k rounds of do_tie_break from t, round j shuffling with draws[j] and
   * picking with markers[j].  A round that finds no informal pair cuts
   * nothing (the source would loop there for ever).
   */
  function BreakRounds(mode: Dynamics, t: SetTies, n: nat, markers: seq<real>, draws: seq<seq<nat>>, k: nat): (r: SetTies)
    requires Over(t, n) && Simple(t) && Markers(markers) && k <= |markers| && k <= |draws|
    ensures Over(r, n) && Simple(r) && r.formal == t.formal && r.limited == t.limited
    decreases k
  {
    if k == 0 then t
    else
      var prev := BreakRounds(mode, t, n, markers, draws, k - 1);
      var next := NextBreak(mode, prev, n, draws[k - 1], markers[k - 1]);
      if next.Some? then next.value.ties else prev
  }

  /** The ties after some formation rounds, and how many of them fell back on the uniform pick. */
  datatype Formed = Formed(ties: SetTies, fallbacks: nat)

  /**
   * k rounds of do_tie_formation from t over the dyad list ds, round j
   * picking with markers[j].  With an empty list no round can pick (the
   * source would loop there for ever) and nothing changes.
   */
  function FormationRounds(mode: Dynamics, t: SetTies, n: nat, cap: nat, ds: seq<Dyad>, markers: seq<real>, k: nat): (r: Formed)
    requires Over(t, n) && Simple(t) && DyadsOver(ds, n) && Markers(markers) && k <= |markers|
    ensures Over(r.ties, n) && Simple(r.ties) && r.ties.formal == t.formal && r.ties.limited == t.limited
    ensures r.fallbacks <= k
    ensures r.fallbacks == 0 && Tidy(t, n) ==> Tidy(r.ties, n)
    decreases k
  {
    if k == 0 || ds == [] then Formed(t, 0)
    else
      var prev := FormationRounds(mode, t, n, cap, ds, markers, k - 1);
      var next := FormationRound(mode, prev.ties, n, cap, ds, markers[k - 1]).value;
      FormTieKeepsSimple(prev.ties, n, ds[next.index].0, ds[next.index].1);
      if !next.fallback && Tidy(prev.ties, n) then
        TidyIsConsistent(prev.ties, n);
        FormationRoundKeepsConsistent(mode, prev.ties, n, cap, ds, markers[k - 1]);
        TidyIsConsistent(next.ties, n);
        Formed(next.ties, prev.fallbacks)
      else Formed(next.ties, prev.fallbacks + if next.fallback then 1 else 0)
  }

  /**
   * do_tie_break: num rounds, each listing and shuffling the informal
   * pairs afresh and cutting one of them.  stuck reports a round that found
   * no informal pair (the source would loop there for ever); otherwise
   * exactly num informal ties are gone, and the tie invariant is kept.
   */
  method DoTieBreak(mode: Dynamics, t: SetTies, n: nat, num: nat, markers: seq<real>, draws: seq<seq<nat>>)
    returns (r: SetTies, stuck: bool)
    requires Over(t, n) && Simple(t) && Markers(markers) && num <= |markers| && num <= |draws|
    ensures r == BreakRounds(mode, t, n, markers, draws, num)
    ensures stuck ==> forall f :: 0 <= f < n ==> r.informal[f] == {}
    ensures !stuck ==> Total(Sizes(r.informal)) == Total(Sizes(t.informal)) - 2 * num
    ensures Tidy(t, n) ==> Tidy(r, n)
  {
    r, stuck := t, false;
    for k := 0 to num
      invariant r == BreakRounds(mode, t, n, markers, draws, k)
      invariant stuck ==> forall f :: 0 <= f < n ==> r.informal[f] == {}
      invariant !stuck ==> Total(Sizes(r.informal)) == Total(Sizes(t.informal)) - 2 * k
      invariant Tidy(t, n) ==> Tidy(r, n)
    {
      var round := BreakStepOf(mode, r, n, draws[k], markers[k]);
      if round.None? {
        stuck := true;
      } else {
        NextBreakEffect(mode, r, n, draws[k], markers[k]);
        r := round.value.ties;
      }
    }
  }

  /** One formation round takes o to o', counting a fallback. */
  ghost predicate FormsTo(mode: Dynamics, n: nat, cap: nat, ds: seq<Dyad>, marker: real, o: Formed, o': Formed)
  {
    Over(o.ties, n) && DyadsOver(ds, n) && |ds| > 0 && 0.0 <= marker < 1.0
    && var r := FormationRound(mode, o.ties, n, cap, ds, marker).value;
       o' == Formed(r.ties, o.fallbacks + if r.fallback then 1 else 0)
  }

  /** A run of formation rounds, one per marker, is the iterate FormationRounds. */
  lemma {:induction false} FormsToRounds(mode: Dynamics, t: SetTies, n: nat, cap: nat, ds: seq<Dyad>, markers: seq<real>,
                                         trace: seq<Formed>, k: nat)
    requires Over(t, n) && Simple(t) && DyadsOver(ds, n) && |ds| > 0 && Markers(markers) && k <= |markers|
    requires k < |trace| && trace[0] == Formed(t, 0)
    requires forall j :: 0 <= j < k ==> FormsTo(mode, n, cap, ds, markers[j], trace[j], trace[j + 1])
    ensures trace[k] == FormationRounds(mode, t, n, cap, ds, markers, k)
  {
    if k > 0 {
      FormsToRounds(mode, t, n, cap, ds, markers, trace, k - 1);
      assert FormsTo(mode, n, cap, ds, markers[k - 1], trace[k - 1], trace[k]);
    }
  }

  /**
   * do_tie_formation: num rounds over the scenario's dyad list.  An empty
   * list is stuck (the source would loop for ever); otherwise the ties
   * and the fallback count are those of FormationRounds.
   */
  method DoTieFormation(mode: Dynamics, t: SetTies, n: nat, cap: nat, ds: seq<Dyad>, num: nat, markers: seq<real>)
    returns (r: SetTies, stuck: bool, ghost fallbacks: nat)
    requires Over(t, n) && Simple(t) && DyadsOver(ds, n) && Markers(markers) && num <= |markers|
    ensures Formed(r, fallbacks) == FormationRounds(mode, t, n, cap, ds, markers, num)
    ensures stuck <==> |ds| == 0 && num > 0
  {
    stuck := num > 0 && |ds| == 0;
    var o := Formed(t, 0);
    if |ds| > 0 {
      ghost var trace := [o];
      for k := 0 to num
        invariant Over(o.ties, n) && Simple(o.ties)
        invariant |trace| == k + 1 && trace[0] == Formed(t, 0) && trace[k] == o
        invariant forall j :: 0 <= j < k ==> FormsTo(mode, n, cap, ds, markers[j], trace[j], trace[j + 1])
      {
        var o' := FormationAt(mode, n, cap, ds, markers[k], o);
        trace := trace + [o'];
        o := o';
      }
      FormsToRounds(mode, t, n, cap, ds, markers, trace, num);
    }
    r, fallbacks := o.ties, o.fallbacks;
  }

  /** The k-th pass of the formation loop: one more round. */
  method FormationAt(mode: Dynamics, n: nat, cap: nat, ds: seq<Dyad>, marker: real, o: Formed)
    returns (o': Formed)
    requires Over(o.ties, n) && Simple(o.ties) && DyadsOver(ds, n) && |ds| > 0 && 0.0 <= marker < 1.0
    ensures FormsTo(mode, n, cap, ds, marker, o, o') && Over(o'.ties, n) && Simple(o'.ties)
  {
    var round := FormationStep(mode, o.ties, n, cap, ds, marker);
    FormTieKeepsSimple(o.ties, n, ds[round.index].0, ds[round.index].1);
    o' := Formed(round.ties, o.fallbacks + if round.fallback then 1 else 0);
  }
}
