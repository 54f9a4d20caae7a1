// The formal hierarchy that initialize_network builds before anything else:
// agent 0 at level 1, each following block of `span` agents under one agent
// of the level above, filled level by level.  With LINK_LEVEL on, the
// children of each parent are also joined in a ring.
//
// The loop fills the agents in index order, so the parent of agent k >= 1 is
// (k - 1) / span: the hierarchy is the span-ary heap on 0 .. N-1.

module Hierarchy {
  import opened Arith
  import opened Graphs

  function Pow(b: nat, e: nat): (p: nat)
    ensures b >= 1 ==> p >= 1
  {
    if e == 0 then 1 else b * Pow(b, e - 1)
  }

  function Min(a: int, b: int): int { if a < b then a else b }

  /** The superior of agent k >= 1. */
  function Parent(k: nat, span: nat): (p: nat)
    requires k >= 1 && span >= 1
    ensures p < k
  {
    DivAtMost(k - 1, span);
    (k - 1) / span
  }

  /** The agents of the block below p are p * span + 1 .. p * span + span. */
  lemma ParentOf(k: nat, p: nat, span: nat)
    requires span >= 1 && p * span + 1 <= k < p * span + 1 + span
    ensures Parent(k, span) == p
  {
    ModUnique(k - 1, span, p, k - 1 - p * span);
  }

  lemma ParentBlock(k: nat, span: nat)
    requires k >= 1 && span >= 1
    ensures Parent(k, span) * span + 1 <= k < Parent(k, span) * span + 1 + span
  {
    var p, r := (k - 1) / span, (k - 1) % span;
    assert k - 1 == p * span + r && 0 <= r < span;
  }

  /** A tie of the hierarchy: one end is the superior of the other. */
  predicate TreeEdge(span: nat, a: nat, b: nat)
    requires span >= 1
  {
    (b >= 1 && Parent(b, span) == a) || (a >= 1 && Parent(a, span) == b)
  }

  // ---------------------------------------------------------------
  // The LINK_LEVEL ring among the children of one parent
  // ---------------------------------------------------------------

  /** The position after i on a ring of count positions. */
  function Next(i: nat, count: nat): (r: nat)
    requires i < count
    ensures r < count
  {
    if i + 1 == count then 0 else i + 1
  }

  /** Next is the source's (i + 1) % lower_num. */
  lemma NextIsSuccessorMod(i: nat, count: nat)
    requires i < count
    ensures Next(i, count) == (i + 1) % count
  {
    if i + 1 < count {
      ModUnique(i + 1, count, 0, i + 1);
    } else {
      ModUnique(i + 1, count, 1, 0);
    }
  }

  /** Agents a and b are neighbours on the ring over start .. start+count-1, counting the first `upto` links. */
  predicate RingUpTo(start: nat, count: nat, upto: nat, a: nat, b: nat)
  {
    a != b && start <= a < start + count && start <= b < start + count
    && ((a - start < upto && b - start == Next(a - start, count))
        || (b - start < upto && a - start == Next(b - start, count)))
  }

  /** No tie among the agents start .. start+count-1. */
  predicate NoTiesWithin(m: Matrix, start: nat, count: nat)
    requires IsSquare(m, |m|) && start + count <= |m|
  {
    forall a, b :: start <= a < start + count && start <= b < start + count ==> !m[a][b]
  }

  /** net is network with the first `upto` ring links set. */
  predicate RingOver(net: Matrix, network: Matrix, start: nat, count: nat, upto: nat)
    requires IsSquare(network, |network|) && IsSquare(net, |network|)
  {
    forall a, b :: 0 <= a < |network| && 0 <= b < |network| ==>
      net[a][b] == (network[a][b] || RingUpTo(start, count, upto, a, b))
  }

  /** Setting ring link i extends the ring by one link. */
  lemma RingStep(net: Matrix, network: Matrix, start: nat, count: nat, i: nat)
    requires IsSquare(network, |network|) && IsSquare(net, |network|) && start + count <= |network|
    requires i < count && i != Next(i, count) && RingOver(net, network, start, count, i)
    ensures RingOver(Link(net, start + i, start + Next(i, count), true), network, start, count, i + 1)
  {
  }

  /** Before link i the earlier links never touch the pair it joins, except on a ring of two. */
  lemma RingLinkIsNew(net: Matrix, network: Matrix, start: nat, count: nat, i: nat)
    requires IsSquare(network, |network|) && IsSquare(net, |network|) && start + count <= |network|
    requires i < count && (count >= 3 || i == 0) && i != Next(i, count)
    requires RingOver(net, network, start, count, i) && NoTiesWithin(network, start, count)
    ensures !net[start + i][start + Next(i, count)] && !net[start + Next(i, count)][start + i]
  {
  }

  /**
   * The ring loop as written: a link from each position to the next, so with
   * two children the one ring tie is set twice and both counters are raised
   * twice.
   */
  method LinkRingAsWritten(network: Matrix, degree: seq<int>, start: nat, count: nat)
    returns (net: Matrix, deg: seq<int>)
    requires IsSquare(network, |network|) && |degree| == |network| && start + count <= |network|
    ensures IsSquare(net, |network|) && |deg| == |network| && RingOver(net, network, start, count, count)
    ensures forall k :: 0 <= k < |network| ==>
              deg[k] == degree[k] + (if count >= 2 && start <= k < start + count then 2 else 0)
  {
    net, deg := network, degree;
    var n := |network|;
    for i := 0 to count
      invariant IsSquare(net, n) && |deg| == n
      invariant count == 1 ==> i == 0
      invariant RingOver(net, network, start, count, i)
      invariant forall k :: 0 <= k < n ==> deg[k] == degree[k] + RingHits(start, count, i, k)
    {
      var focal, target := start + i, start + Next(i, count);
      if focal == target {
        RingShortComplete(net, network, start, count, i);
        return;
      }
      RingStep(net, network, start, count, i);
      net := Link(net, focal, target, true);
      deg := Bump(deg, focal, target, 1);
    }
  }

  /** How many times the first `upto` ring links raise the counter of agent k. */
  function RingHits(start: nat, count: nat, upto: nat, k: nat): nat
  {
    if k < start || k >= start + count then 0
    else (if k - start < upto then 1 else 0)
         + (if (1 <= k - start <= upto && k - start < count) || (k == start && upto == count) then 1 else 0)
  }

  /**
   * With exactly two children, the as-written ring raises each child's
   * counter by two for the single tie it adds: the counter ends one above
   * the row count.
   */
  lemma RingOfTwoOvercounts(network: Matrix, degree: seq<int>, start: nat, net: Matrix, deg: seq<int>)
    requires IsSquare(network, |network|) && start + 2 <= |network| && DegreesMatch(network, degree)
    requires NoTiesWithin(network, start, 2)
    requires IsSquare(net, |network|) && |deg| == |network| && RingOver(net, network, start, 2, 2)
    requires forall k :: 0 <= k < |network| ==> deg[k] == degree[k] + (if start <= k < start + 2 then 2 else 0)
    ensures deg[start] == Count(net[start]) + 1
    ensures !DegreesMatch(net, deg)
  {
    var row := network[start];
    assert net[start] == row[start + 1 := true] by {
      forall b | 0 <= b < |row| ensures net[start][b] == row[start + 1 := true][b] {
        if b != start + 1 {
          assert !RingUpTo(start, 2, 2, start, b);
        }
      }
    }
    CountUpdate(row, start + 1, true);
  }

  /** Link i of the intended ring adds a new tie, so the raised counters still match. */
  lemma RingLinkCounted(net: Matrix, deg: seq<int>, network: Matrix, start: nat, count: nat, i: nat)
    requires IsSquare(network, |network|) && IsSquare(net, |network|) && start + count <= |network|
    requires i < count && (count >= 3 || i == 0) && i != Next(i, count)
    requires RingOver(net, network, start, count, i) && NoTiesWithin(network, start, count)
    requires DegreesMatch(net, deg)
    ensures RingOver(Link(net, start + i, start + Next(i, count), true), network, start, count, i + 1)
    ensures DegreesMatch(Link(net, start + i, start + Next(i, count), true), Bump(deg, start + i, start + Next(i, count), 1))
  {
    RingLinkIsNew(net, network, start, count, i);
    RingStep(net, network, start, count, i);
    LinkKeepsDegrees(net, deg, start + i, start + Next(i, count), true);
  }

  /** On a ring of two the first link already joins the pair; on a ring of one there is nothing to join. */
  lemma RingShortComplete(net: Matrix, network: Matrix, start: nat, count: nat, upto: nat)
    requires IsSquare(network, |network|) && IsSquare(net, |network|)
    requires (count >= 3 && upto == count) || (count == 2 && upto == 1) || (count <= 1 && upto == 0)
    requires RingOver(net, network, start, count, upto)
    ensures RingOver(net, network, start, count, count)
  {
    assert forall a, b :: RingUpTo(start, count, upto, a, b) == RingUpTo(start, count, count, a, b);
  }

  /** The links of the intended ring: one per tie, so a ring of two gets one link and a single child none. */
  function RingLinkCount(count: nat): nat
  {
    if count < 2 then 0 else if count == 2 then 1 else count
  }

  /** The matrix after the first `upto` intended ring links. */
  function RingLinks(network: Matrix, start: nat, count: nat, upto: nat): (r: Matrix)
    requires IsSquare(network, |network|) && start + count <= |network| && upto <= count
    requires upto > 0 ==> count >= 2
    ensures IsSquare(r, |network|)
  {
    if upto == 0 then network
    else Link(RingLinks(network, start, count, upto - 1), start + upto - 1, start + Next(upto - 1, count), true)
  }

  /** The counters after the first `upto` intended ring links. */
  function RingBumps(degree: seq<int>, start: nat, count: nat, upto: nat): (r: seq<int>)
    requires start + count <= |degree| && upto <= count
    ensures |r| == |degree|
  {
    if upto == 0 then degree
    else Bump(RingBumps(degree, start, count, upto - 1), start + upto - 1, start + Next(upto - 1, count), 1)
  }

  /** Each intended link is a new tie: the links build the ring and the counters keep matching. */
  lemma {:induction false} RingLinksCounted(network: Matrix, degree: seq<int>, start: nat, count: nat, upto: nat)
    requires IsSquare(network, |network|) && start + count <= |network|
    requires DegreesMatch(network, degree) && NoTiesWithin(network, start, count)
    requires count >= 2 && upto <= RingLinkCount(count)
    ensures RingOver(RingLinks(network, start, count, upto), network, start, count, upto)
    ensures DegreesMatch(RingLinks(network, start, count, upto), RingBumps(degree, start, count, upto))
  {
    if upto > 0 {
      var i := upto - 1;
      var before, counters := RingLinks(network, start, count, i), RingBumps(degree, start, count, i);
      assert RingLinks(network, start, count, upto) == Link(before, start + i, start + Next(i, count), true);
      assert RingBumps(degree, start, count, upto) == Bump(counters, start + i, start + Next(i, count), 1);
      RingLinksCounted(network, degree, start, count, i);
      RingLinkCounted(before, counters, network, start, count, i);
    }
  }

  /**
   * The intended ring over a block with no ties inside: exactly the ring
   * ties are added and the counters keep matching the rows.
   */
  lemma IntendedRing(network: Matrix, degree: seq<int>, start: nat, count: nat)
    requires IsSquare(network, |network|) && start + count <= |network|
    requires DegreesMatch(network, degree) && NoTiesWithin(network, start, count)
    ensures RingOver(RingLinks(network, start, count, RingLinkCount(count)), network, start, count, count)
    ensures DegreesMatch(RingLinks(network, start, count, RingLinkCount(count)), RingBumps(degree, start, count, RingLinkCount(count)))
  {
    if count >= 2 {
      RingLinksCounted(network, degree, start, count, RingLinkCount(count));
      RingShortComplete(RingLinks(network, start, count, RingLinkCount(count)), network, start, count, RingLinkCount(count));
    } else {
      RingShortComplete(network, network, start, count, 0);
    }
  }

  /**
   * The ring as evidently intended: one link per ring tie, so with two
   * children the single tie is set once (IntendedRing states what it adds).
   */
  method LinkRing(network: Matrix, degree: seq<int>, start: nat, count: nat)
    returns (net: Matrix, deg: seq<int>)
    requires IsSquare(network, |network|) && start + count <= |network| && |degree| == |network|
    ensures net == RingLinks(network, start, count, RingLinkCount(count))
    ensures deg == RingBumps(degree, start, count, RingLinkCount(count))
  {
    net, deg := network, degree;
    for i := 0 to count
      invariant i <= RingLinkCount(count)
      invariant net == RingLinks(network, start, count, i) && deg == RingBumps(degree, start, count, i)
    {
      var focal, target := start + i, start + Next(i, count);
      if focal == target || i == RingLinkCount(count) {
        break;
      }
      assert RingLinks(network, start, count, i + 1) == Link(net, focal, target, true);
      assert RingBumps(degree, start, count, i + 1) == Bump(deg, focal, target, 1);
      net := Link(net, focal, target, true);
      deg := Bump(deg, focal, target, 1);
    }
  }

  // ---------------------------------------------------------------
  // Levels and the ties of the finished hierarchy
  // ---------------------------------------------------------------

  /** The agents of the block below p, when p * span + 1 <= k < hi * span + 1 for lo <= p < hi. */
  lemma ParentInRange(k: nat, lo: nat, hi: nat, span: nat)
    requires span >= 1 && lo * span + 1 <= k < hi * span + 1
    ensures lo <= Parent(k, span) < hi
  {
    var p := Parent(k, span);
    ParentBlock(k, span);
    if p < lo {
      MulMono(span, p + 1, lo);
    }
    if p >= hi {
      MulMono(span, hi, p);
    }
  }

  /** The level of agent k: 1 for agent 0, one more than its superior's otherwise. */
  function Level(k: nat, span: nat): nat
    requires span >= 1
    decreases k
  {
    if k == 0 then 1 else Level(Parent(k, span), span) + 1
  }

  /** One past the last child of p, cut off at n. */
  function ChildrenEnd(p: nat, span: nat, n: nat): int
  {
    Min(p * span + 1 + span, n)
  }

  /** a and b have the same superior and are neighbours on the ring over its children. */
  predicate RingEdge(span: nat, n: nat, a: nat, b: nat)
    requires span >= 1
  {
    a >= 1 && b >= 1 && Parent(a, span) == Parent(b, span)
    && var start := Parent(a, span) * span + 1;
       var end := ChildrenEnd(Parent(a, span), span, n);
       start <= end && RingUpTo(start, end - start, end - start, a, b)
  }

  /** A tie of the finished hierarchy between agents a and b. */
  predicate HierarchyTie(span: nat, n: nat, linkLevel: bool, a: nat, b: nat)
    requires span >= 1
  {
    TreeEdge(span, a, b) || (linkLevel && RingEdge(span, n, a, b))
  }

  /** net holds exactly the hierarchy ties among the agents below m. */
  predicate BuiltUpTo(net: Matrix, span: nat, n: nat, linkLevel: bool, m: nat)
    requires IsSquare(net, n) && span >= 1
  {
    forall a, b :: 0 <= a < n && 0 <= b < n ==>
      net[a][b] == (a < m && b < m && HierarchyTie(span, n, linkLevel, a, b))
  }

  /** The hierarchy is an undirected simple graph. */
  lemma HierarchyTieSimple(span: nat, n: nat, linkLevel: bool, a: nat, b: nat)
    requires span >= 1
    ensures HierarchyTie(span, n, linkLevel, a, b) == HierarchyTie(span, n, linkLevel, b, a)
    ensures !HierarchyTie(span, n, linkLevel, a, a)
  {
  }

  /**
   * Every agent but agent 0 has exactly one tie to the level above, its
   * superior; every other tie is to a subordinate (one level below) or,
   * with LINK_LEVEL, to a sibling on the same level.
   */
  lemma OneSuperior(span: nat, n: nat, linkLevel: bool, k: nat, j: nat)
    requires span >= 1 && 1 <= k
    ensures (HierarchyTie(span, n, linkLevel, j, k) && Level(j, span) + 1 == Level(k, span)) <==> j == Parent(k, span)
    ensures HierarchyTie(span, n, linkLevel, j, k) && j != Parent(k, span) ==>
              Level(j, span) == Level(k, span) + 1 || (linkLevel && Level(j, span) == Level(k, span))
  {
    if j >= 1 && Parent(j, span) == Parent(k, span) {
      assert Level(j, span) == Level(k, span);
    }
  }

  /** Parent never decreases along the agent order. */
  lemma ParentMono(j: nat, k: nat, span: nat)
    requires span >= 1 && 1 <= j <= k
    ensures Parent(j, span) <= Parent(k, span)
  {
    var p := Parent(k, span);
    ParentBlock(k, span);
    assert (p + 1) * span + 1 == p * span + 1 + span;
    ParentInRange(j, 0, p + 1, span);
  }

  /** Levels never decrease along the agent order: later agents sit no higher. */
  lemma {:induction false} LevelsMonotone(j: nat, k: nat, span: nat)
    requires span >= 1 && j <= k
    ensures Level(j, span) <= Level(k, span)
    decreases k
  {
    if j == 0 {
      if k > 0 {
        LevelsMonotone(0, Parent(k, span), span);
      }
    } else if j < k {
      ParentMono(j, k, span);
      LevelsMonotone(Parent(j, span), Parent(k, span), span);
    }
  }

  /** Agents below an upper band of one level sit one level lower. */
  lemma LevelBand(span: nat, us: nat, ue: nat, level: nat, k: nat)
    requires span >= 1 && us * span + 1 <= k < ue * span + 1
    requires forall u :: us <= u < ue ==> Level(u, span) == level
    ensures Level(k, span) == level + 1
  {
    ParentInRange(k, us, ue, span);
  }

  /** After a band, the new agents carry their levels, one below the band's. */
  lemma LevelsAfterBand(levelOf: seq<int>, span: nat, n: nat, us: nat, ue: nat, first: nat, ls: nat, levelNow: nat)
    requires span >= 1 && levelNow >= 1 && |levelOf| == n && first == us * span + 1 && first <= ls <= ue * span + 1 && ls <= n
    requires forall u :: us <= u < ue ==> Level(u, span) + 1 == levelNow
    requires forall k :: 0 <= k < n ==> levelOf[k] == if k < first then Level(k, span) else if k < ls then levelNow else 0
    ensures forall k :: first <= k < ls ==> Level(k, span) == levelNow
    ensures forall k :: 0 <= k < n ==> levelOf[k] == if k < ls then Level(k, span) else 0
  {
    forall k | first <= k < ls ensures Level(k, span) == levelNow {
      LevelBand(span, us, ue, levelNow - 1, k);
    }
  }

  /** The next band of uppers starts where this band's children start. */
  lemma NextBandStart(us: nat, ue: nat, span: nat, e: nat)
    requires ue == us * span + 1 && ue - us == Pow(span, e)
    ensures ue + Pow(span, e + 1) == ue * span + 1
  {
    assert Pow(span, e + 1) == span * (ue - us);
    assert span * (ue - us) == ue * span - us * span;
  }

  // ---------------------------------------------------------------
  // Linking the subordinates of one upper
  // ---------------------------------------------------------------

  /** No tie has an end at or beyond m. */
  predicate Below(m: Matrix, bound: nat)
    requires IsSquare(m, |m|)
  {
    forall a, b :: 0 <= a < |m| && 0 <= b < |m| && m[a][b] ==> a < bound && b < bound
  }

  /** net is base with upper joined to each of lowerStart .. lower-1. */
  predicate ChildrenOver(net: Matrix, base: Matrix, upper: nat, lowerStart: nat, lower: nat)
    requires IsSquare(base, |base|) && IsSquare(net, |base|)
  {
    forall a, b :: 0 <= a < |base| && 0 <= b < |base| ==>
      net[a][b] == (base[a][b] || (a == upper && lowerStart <= b < lower) || (b == upper && lowerStart <= a < lower))
  }

  /** The matrix after joining upper to lowerStart .. lower-1, one at a time. */
  function ChildLinks(base: Matrix, upper: nat, lowerStart: nat, lower: nat): (r: Matrix)
    requires IsSquare(base, |base|) && upper < |base| && lowerStart <= lower <= |base|
    ensures IsSquare(r, |base|)
    decreases lower - lowerStart
  {
    if lower == lowerStart then base
    else Link(ChildLinks(base, upper, lowerStart, lower - 1), upper, lower - 1, true)
  }

  /** The counters after joining upper to lowerStart .. lower-1. */
  function ChildBumps(degree: seq<int>, upper: nat, lowerStart: nat, lower: nat): (r: seq<int>)
    requires upper < |degree| && lowerStart <= lower <= |degree|
    ensures |r| == |degree|
    decreases lower - lowerStart
  {
    if lower == lowerStart then degree
    else Bump(ChildBumps(degree, upper, lowerStart, lower - 1), upper, lower - 1, 1)
  }

  /** Joining upper to the next subordinate i adds a new tie. */
  lemma ChildLinkCounted(before: Matrix, counters: seq<int>, base: Matrix, upper: nat, lowerStart: nat, i: nat)
    requires IsSquare(base, |base|) && IsSquare(before, |base|) && upper < lowerStart <= i < |base|
    requires Below(base, lowerStart) && ChildrenOver(before, base, upper, lowerStart, i)
    requires DegreesMatch(before, counters)
    ensures ChildrenOver(Link(before, upper, i, true), base, upper, lowerStart, i + 1)
    ensures DegreesMatch(Link(before, upper, i, true), Bump(counters, upper, i, 1))
  {
    assert !before[upper][i] && !before[i][upper];
    LinkKeepsDegrees(before, counters, upper, i, true);
  }

  /** Each subordinate link is a new tie: the counters keep matching and their sum grows by two per link. */
  lemma {:induction false} ChildLinksCounted(base: Matrix, degree: seq<int>, upper: nat, lowerStart: nat, lower: nat)
    requires IsSquare(base, |base|) && upper < lowerStart <= lower <= |base|
    requires DegreesMatch(base, degree) && Below(base, lowerStart)
    ensures ChildrenOver(ChildLinks(base, upper, lowerStart, lower), base, upper, lowerStart, lower)
    ensures DegreesMatch(ChildLinks(base, upper, lowerStart, lower), ChildBumps(degree, upper, lowerStart, lower))
    ensures Total(ChildBumps(degree, upper, lowerStart, lower)) == Total(degree) + 2 * (lower - lowerStart)
    decreases lower - lowerStart
  {
    if lower > lowerStart {
      var i := lower - 1;
      var before, counters := ChildLinks(base, upper, lowerStart, i), ChildBumps(degree, upper, lowerStart, i);
      assert ChildLinks(base, upper, lowerStart, lower) == Link(before, upper, i, true);
      assert ChildBumps(degree, upper, lowerStart, lower) == Bump(counters, upper, i, 1);
      ChildLinksCounted(base, degree, upper, lowerStart, i);
      ChildLinkCounted(before, counters, base, upper, lowerStart, i);
      BumpTotal(counters, upper, i, 1);
    }
  }

  /**
   * The innermost loop: upper is joined to each of its subordinates
   * lowerStart .. lowerEnd-1, both counters are raised, and each
   * subordinate is given the current level.
   */
  method LinkSubordinates(network: Matrix, degree: seq<int>, levelOf: seq<int>, upper: nat,
                          lowerStart: nat, lowerEnd: nat, levelNow: int)
    returns (net: Matrix, deg: seq<int>, levels: seq<int>)
    requires IsSquare(network, |network|) && |degree| == |network| && |levelOf| == |network|
    requires upper < |network| && lowerStart <= lowerEnd <= |network|
    ensures net == ChildLinks(network, upper, lowerStart, lowerEnd)
    ensures deg == ChildBumps(degree, upper, lowerStart, lowerEnd)
    ensures |levels| == |levelOf|
    ensures forall k :: 0 <= k < |levelOf| ==> levels[k] == if lowerStart <= k < lowerEnd then levelNow else levelOf[k]
  {
    net, deg, levels := network, degree, levelOf;
    for lower := lowerStart to lowerEnd
      invariant net == ChildLinks(network, upper, lowerStart, lower)
      invariant deg == ChildBumps(degree, upper, lowerStart, lower)
      invariant |levels| == |levelOf|
      invariant forall k :: 0 <= k < |levelOf| ==> levels[k] == if lowerStart <= k < lower then levelNow else levelOf[k]
    {
      net := Link(net, upper, lower, true);
      deg := Bump(deg, upper, lower, 1);
      levels := levels[lower := levelNow];
    }
  }

  // ---------------------------------------------------------------
  // One block: the subordinates of one upper, then their ring
  // ---------------------------------------------------------------

  /** Within the block of upper's subordinates, the new ties are the links to upper and the ring. */
  lemma BlockTie(span: nat, n: nat, linkLevel: bool, upper: nat, lowerStart: nat, lowerEnd: nat, a: nat, b: nat)
    requires span >= 1 && upper < lowerStart < lowerEnd <= n
    requires lowerStart == upper * span + 1 && lowerEnd == Min(lowerStart + span, n)
    ensures (a < lowerEnd && b < lowerEnd && HierarchyTie(span, n, linkLevel, a, b))
            == ((a < lowerStart && b < lowerStart && HierarchyTie(span, n, linkLevel, a, b))
                || (a == upper && lowerStart <= b < lowerEnd) || (b == upper && lowerStart <= a < lowerEnd)
                || (linkLevel && RingUpTo(lowerStart, lowerEnd - lowerStart, lowerEnd - lowerStart, a, b)))
  {
    if lowerStart <= a < lowerEnd {
      ParentOf(a, upper, span);
    } else if 1 <= a < lowerStart {
      ParentInRange(a, 0, upper, span);
    }
    if lowerStart <= b < lowerEnd {
      ParentOf(b, upper, span);
    } else if 1 <= b < lowerStart {
      ParentInRange(b, 0, upper, span);
    }
  }

  /** base with the subordinate links of upper and, with LINK_LEVEL, their ring holds the hierarchy below lowerEnd. */
  lemma BlockExtends(base: Matrix, c: Matrix, r: Matrix, span: nat, n: nat, linkLevel: bool,
                     upper: nat, lowerStart: nat, lowerEnd: nat)
    requires span >= 1 && IsSquare(base, n) && IsSquare(c, n) && IsSquare(r, n)
    requires upper < lowerStart < lowerEnd <= n
    requires lowerStart == upper * span + 1 && lowerEnd == Min(lowerStart + span, n)
    requires BuiltUpTo(base, span, n, linkLevel, lowerStart)
    requires ChildrenOver(c, base, upper, lowerStart, lowerEnd)
    requires linkLevel ==> RingOver(r, c, lowerStart, lowerEnd - lowerStart, lowerEnd - lowerStart)
    requires !linkLevel ==> r == c
    ensures BuiltUpTo(r, span, n, linkLevel, lowerEnd)
  {
    forall a, b | 0 <= a < n && 0 <= b < n
      ensures r[a][b] == (a < lowerEnd && b < lowerEnd && HierarchyTie(span, n, linkLevel, a, b))
    {
      BlockTie(span, n, linkLevel, upper, lowerStart, lowerEnd, a, b);
    }
  }

  /** The matrix after one upper's block: its subordinate links, then with LINK_LEVEL their ring. */
  function BlockNet(network: Matrix, linkLevel: bool, upper: nat, lowerStart: nat, lowerEnd: nat): (r: Matrix)
    requires IsSquare(network, |network|) && upper < |network| && lowerStart <= lowerEnd <= |network|
    ensures IsSquare(r, |network|)
  {
    var c := ChildLinks(network, upper, lowerStart, lowerEnd);
    if linkLevel then RingLinks(c, lowerStart, lowerEnd - lowerStart, RingLinkCount(lowerEnd - lowerStart)) else c
  }

  /** The counters after one upper's block. */
  function BlockCounters(degree: seq<int>, linkLevel: bool, upper: nat, lowerStart: nat, lowerEnd: nat): (r: seq<int>)
    requires upper < |degree| && lowerStart <= lowerEnd <= |degree|
    ensures |r| == |degree|
  {
    var cd := ChildBumps(degree, upper, lowerStart, lowerEnd);
    if linkLevel then RingBumps(cd, lowerStart, lowerEnd - lowerStart, RingLinkCount(lowerEnd - lowerStart)) else cd
  }

  /**
   * Processing one upper takes the hierarchy from the agents below
   * lowerStart to the agents below lowerEnd, and the counters keep
   * matching the rows.
   */
  lemma BlockStep(base: Matrix, degree: seq<int>, span: nat, n: nat, linkLevel: bool,
                  upper: nat, lowerStart: nat, lowerEnd: nat)
    requires span >= 1 && IsSquare(base, n) && DegreesMatch(base, degree)
    requires upper < lowerStart <= lowerEnd <= n
    requires lowerStart < n ==> lowerStart == upper * span + 1
    requires lowerEnd == Min(lowerStart + span, n)
    requires BuiltUpTo(base, span, n, linkLevel, lowerStart)
    ensures BuiltUpTo(BlockNet(base, linkLevel, upper, lowerStart, lowerEnd), span, n, linkLevel, lowerEnd)
    ensures DegreesMatch(BlockNet(base, linkLevel, upper, lowerStart, lowerEnd),
                         BlockCounters(degree, linkLevel, upper, lowerStart, lowerEnd))
    ensures !linkLevel ==> Total(BlockCounters(degree, linkLevel, upper, lowerStart, lowerEnd)) == Total(degree) + 2 * (lowerEnd - lowerStart)
  {
    var count := lowerEnd - lowerStart;
    var c, cd := ChildLinks(base, upper, lowerStart, lowerEnd), ChildBumps(degree, upper, lowerStart, lowerEnd);
    var r, rd := RingLinks(c, lowerStart, count, RingLinkCount(count)), RingBumps(cd, lowerStart, count, RingLinkCount(count));
    assert BlockNet(base, linkLevel, upper, lowerStart, lowerEnd) == if linkLevel then r else c;
    assert BlockCounters(degree, linkLevel, upper, lowerStart, lowerEnd) == if linkLevel then rd else cd;
    ChildLinksCounted(base, degree, upper, lowerStart, lowerEnd);
    if count == 0 {
      assert c == base && r == c && rd == cd;
    } else if linkLevel {
      assert BuiltUpTo(r, span, n, linkLevel, lowerEnd) && DegreesMatch(r, rd) by {
        assert NoTiesWithin(c, lowerStart, count);
        IntendedRing(c, cd, lowerStart, count);
        BlockExtends(base, c, r, span, n, linkLevel, upper, lowerStart, lowerEnd);
      }
    } else {
      assert BuiltUpTo(c, span, n, linkLevel, lowerEnd) by {
        BlockExtends(base, c, c, span, n, linkLevel, upper, lowerStart, lowerEnd);
      }
    }
  }

  // ---------------------------------------------------------------
  // The level loop and the whole construction
  // ---------------------------------------------------------------

  /**
   * The body of the `for upper` loop: upper takes the block lowerStart ..
   * lowerEnd-1 as subordinates at level levelNow and, with LINK_LEVEL,
   * joins them in a ring.  An empty block (lowerStart == N) is left as the
   * source's `continue` leaves it.
   */
  method LinkBlock(network: Matrix, degree: seq<int>, levelOf: seq<int>, span: nat, n: nat, linkLevel: bool,
                   upper: nat, lowerStart: nat, lowerEnd: nat, levelNow: int)
    returns (net: Matrix, deg: seq<int>, levels: seq<int>)
    requires IsSquare(network, n) && |degree| == n && |levelOf| == n
    requires upper < n && lowerStart <= lowerEnd <= n
    ensures net == BlockNet(network, linkLevel, upper, lowerStart, lowerEnd)
    ensures deg == BlockCounters(degree, linkLevel, upper, lowerStart, lowerEnd)
    ensures |levels| == n
    ensures forall k :: 0 <= k < n ==> levels[k] == if lowerStart <= k < lowerEnd then levelNow else levelOf[k]
  {
    net, deg, levels := LinkSubordinates(network, degree, levelOf, upper, lowerStart, lowerEnd, levelNow);
    if linkLevel {
      var lowerNum := lowerEnd - lowerStart;
      if lowerNum == 0 {
        return;
      }
      net, deg := LinkRing(net, deg, lowerStart, lowerNum);
    }
  }

  /**
   * One pass of the `for upper` loop: every upper of the band us .. ue-1
   * in turn takes the next block of at most span subordinates, which get
   * level levelNow.
   */
  method FillLevel(network: Matrix, degree: seq<int>, levelOf: seq<int>, span: nat, n: nat, linkLevel: bool,
                   us: nat, ue: nat, lowerStart: nat, lowerEnd: nat, levelNow: int)
    returns (net: Matrix, deg: seq<int>, levels: seq<int>, ls: nat, le: nat)
    requires span >= 1 && IsSquare(network, n) && |degree| == n && |levelOf| == n
    requires us < ue && ue == lowerStart < n && ue == us * span + 1 && lowerEnd == Min(lowerStart + span, n)
    requires BuiltUpTo(network, span, n, linkLevel, lowerStart) && DegreesMatch(network, degree)
    ensures IsSquare(net, n) && |deg| == n && |levels| == n
    ensures ls == Min(ue * span + 1, n) && le == Min(ls + span, n)
    ensures BuiltUpTo(net, span, n, linkLevel, ls) && DegreesMatch(net, deg)
    ensures !linkLevel ==> Total(deg) == Total(degree) + 2 * (ls - lowerStart)
    ensures forall k :: 0 <= k < n ==> levels[k] == if lowerStart <= k < ls then levelNow else levelOf[k]
  {
    net, deg, levels, ls, le := network, degree, levelOf, lowerStart, lowerEnd;
    for upper := us to ue
      invariant IsSquare(net, n) && |deg| == n && |levels| == n
      invariant lowerStart <= ls <= n
      invariant ls == Min(upper * span + 1, n) && le == Min(ls + span, n)
      invariant BuiltUpTo(net, span, n, linkLevel, ls) && DegreesMatch(net, deg)
      invariant !linkLevel ==> Total(deg) == Total(degree) + 2 * (ls - lowerStart)
      invariant forall k :: 0 <= k < n ==> levels[k] == if lowerStart <= k < ls then levelNow else levelOf[k]
    {
      NextBlock(upper, span, n, ls, le);
      BlockStep(net, deg, span, n, linkLevel, upper, ls, le);
      net, deg, levels := LinkBlock(net, deg, levels, span, n, linkLevel, upper, ls, le, levelNow);
      ls := le;
      le := Min(ls + span, n);
    }
  }

  /** The block of the next upper starts where this upper's block ends. */
  lemma NextBlock(upper: nat, span: nat, n: nat, ls: nat, le: nat)
    requires span >= 1 && ls == Min(upper * span + 1, n) && le == Min(ls + span, n)
    ensures le == Min((upper + 1) * span + 1, n)
  {
    assert (upper + 1) * span + 1 == upper * span + 1 + span;
  }

  /** The counters all start at zero and match the empty matrix. */
  lemma ZerosMatchEmpty(n: nat)
    ensures DegreesMatch(Empty(n), seq(n, _ => 0)) && Total(seq(n, _ => 0)) == 0
  {
    forall v | 0 <= v < n ensures Count(Empty(n)[v]) == 0 {
      CountZero(Empty(n)[v]);
    }
    ZerosTotal(seq(n, _ => 0));
  }

  lemma {:induction false} ZerosTotal(d: seq<int>)
    requires forall k :: 0 <= k < |d| ==> d[k] == 0
    ensures Total(d) == 0
    decreases |d|
  {
    if d != [] {
      ZerosTotal(d[..|d| - 1]);
    }
  }

  /**
   * The `loop` of initialize_network: each pass moves one level down,
   * gives every upper of the current band its block of subordinates, and
   * stops once the last agent is placed; the next band is the blocks just
   * filled, span^(level-1) agents wide.
   */
  method DescendLevels(network: Matrix, degree: seq<int>, levelOf: seq<int>, span: nat, n: nat, linkLevel: bool)
    returns (net: Matrix, deg: seq<int>, levels: seq<int>, levelNow: nat)
    requires span >= 1 && span + 1 <= n
    requires IsSquare(network, n) && BuiltUpTo(network, span, n, linkLevel, 1) && DegreesMatch(network, degree)
    requires Total(degree) == 0
    requires |levelOf| == n && forall k :: 0 <= k < n ==> levelOf[k] == if k == 0 then 1 else 0
    ensures IsSquare(net, n) && BuiltUpTo(net, span, n, linkLevel, n) && DegreesMatch(net, deg)
    ensures !linkLevel ==> Total(deg) == 2 * (n - 1)
    ensures |levels| == n && forall k :: 0 <= k < n ==> levels[k] == Level(k, span)
    ensures levelNow == Level(n - 1, span)
  {
    net, deg, levels := network, degree, levelOf;
    levelNow := 1;
    var upperStart: nat, upperEnd: nat := 0, 1;
    var lowerStart: nat := upperEnd;
    var lowerEnd: nat := lowerStart + span;
    while true
      invariant IsSquare(net, n) && |deg| == n && |levels| == n
      invariant levelNow >= 1
      invariant upperStart < upperEnd == lowerStart < n && upperEnd == upperStart * span + 1
      invariant upperEnd - upperStart == Pow(span, levelNow - 1)
      invariant lowerEnd == Min(lowerStart + span, n)
      invariant BuiltUpTo(net, span, n, linkLevel, lowerStart) && DegreesMatch(net, deg)
      invariant !linkLevel ==> Total(deg) == 2 * (lowerStart - 1)
      invariant forall k :: 0 <= k < n ==> levels[k] == if k < lowerStart then Level(k, span) else 0
      invariant forall u :: upperStart <= u < upperEnd ==> Level(u, span) == levelNow
      decreases n - lowerStart
    {
      levelNow := levelNow + 1;
      var first := lowerStart;
      assert upperEnd * span + 1 > first by {
        MulMono(upperEnd, 1, span);
      }
      net, deg, levels, lowerStart, lowerEnd :=
        FillLevel(net, deg, levels, span, n, linkLevel, upperStart, upperEnd, lowerStart, lowerEnd, levelNow);
      LevelsAfterBand(levels, span, n, upperStart, upperEnd, first, lowerStart, levelNow);
      if lowerStart == n {
        break;
      }
      NextBandStart(upperStart, upperEnd, span, levelNow - 2);
      upperStart := upperEnd;
      upperEnd := upperStart + Pow(span, levelNow - 1);
    }
  }

  /**
   * initialize_network's hierarchy: agent 0 at level 1, then band by band
   * each upper of the current level takes the next span agents as
   * subordinates one level lower, until every agent is placed.  The result
   * holds exactly the hierarchy ties (and, with LINK_LEVEL, the sibling
   * rings), the counters match the rows, every agent's level is one more
   * than its superior's, and level_range is the depth below agent 0.
   */
  method BuildHierarchy(n: nat, span: nat, linkLevel: bool)
    returns (network: Matrix, degree: seq<int>, levelOf: seq<int>, levelRange: int)
    requires span >= 1 && span + 1 <= n
    ensures IsSquare(network, n) && |degree| == n && |levelOf| == n
    ensures forall a, b :: 0 <= a < n && 0 <= b < n ==> network[a][b] == HierarchyTie(span, n, linkLevel, a, b)
    ensures DegreesMatch(network, degree)
    ensures !linkLevel ==> Total(degree) == 2 * (n - 1)
    ensures forall k :: 0 <= k < n ==> levelOf[k] == Level(k, span)
    ensures levelRange == Level(n - 1, span) - 1
  {
    network, degree := Empty(n), seq(n, _ => 0);
    ZerosMatchEmpty(n);
    levelOf := seq(n, _ => 0)[0 := 1];
    var levelNow;
    network, degree, levelOf, levelNow := DescendLevels(network, degree, levelOf, span, n, linkLevel);
    levelRange := levelNow - levelOf[0];
  }
}
