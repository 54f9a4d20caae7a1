// The experiment parameters of the flat-belief variant: the constants
// derived from N, M_OF_BUNDLE, M_IN_BUNDLE and the proportions, and the
// enumeration of parameter-index combinations that initialize_once_cells
// stores into two write-once cells.

module Settings {
  import opened Wrappers
  import opened Arith
  import Graphs

  // ---------------------------------------------------------------
  // Derived constants
  // ---------------------------------------------------------------

  /** The first-order constants the derived ones are computed from. */
  datatype Constants = Constants(n: nat, mOfBundle: nat, mInBundle: nat, informalMaxNum: nat,
                                 informalInitialProp: real, informalRewiringProp: real, pAddition: real)

  /** M: the bits of one belief. */
  function M(c: Constants): nat
  {
    c.mOfBundle * c.mInBundle
  }

  /** M_N: the bits of all N beliefs. */
  function MN(c: Constants): nat
  {
    M(c) * c.n
  }

  /** N_DYAD: the unordered pairs of distinct agents, N(N - 1)/2 in usize arithmetic. */
  function NDyad(c: Constants): nat
    requires c.n >= 1
  {
    Graphs.PairCount(c.n)
  }

  /** Rust's `as usize` on a float: truncation toward zero, with everything below zero sent to 0. */
  function AsUsize(x: real): (r: nat)
    ensures x >= 0.0 ==> r as real <= x < r as real + 1.0
    ensures x <= 0.0 ==> r == 0
  {
    if x <= 0.0 then 0 else x.Floor
  }

  /** INFORMAL_INITIAL_NUM: half the informal capacity of N agents, scaled by the initial proportion. */
  function InformalInitialNum(c: Constants): nat
  {
    AsUsize((c.informalMaxNum * c.n) as real / 2.0 * c.informalInitialProp)
  }

  /** INFORMAL_REWIRING_NUM: the initial informal ties scaled by the rewiring proportion. */
  function InformalRewiringNum(c: Constants): nat
  {
    AsUsize(InformalInitialNum(c) as real * c.informalRewiringProp)
  }

  /** NUM_ADDITION: the dyads scaled by P_ADDITION. */
  function NumAddition(c: Constants): nat
    requires c.n >= 1
  {
    AsUsize(NDyad(c) as real * c.pAddition)
  }

  /** Truncating a count scaled by a proportion in [0, 1] never exceeds the count. */
  lemma ScaledAtMost(k: nat, p: real)
    requires 0.0 <= p <= 1.0
    ensures AsUsize(k as real * p) <= k
  {
    assert k as real * p <= k as real * 1.0;
  }

  /** With a rewiring proportion of at most 1, no more ties are rewired than were made informal. */
  lemma RewiringWithinInitial(c: Constants)
    requires 0.0 <= c.informalRewiringProp <= 1.0
    ensures InformalRewiringNum(c) <= InformalInitialNum(c)
  {
    ScaledAtMost(InformalInitialNum(c), c.informalRewiringProp);
  }

  /** With P_ADDITION at most 1, no more links are added than there are dyads. */
  lemma AdditionsWithinDyads(c: Constants)
    requires c.n >= 1 && 0.0 <= c.pAddition <= 1.0
    ensures NumAddition(c) <= NDyad(c)
  {
    ScaledAtMost(NDyad(c), c.pAddition);
  }

  /** N_DYAD is the length of the scenario's dyad list, and M_N the number of belief bits of N agents. */
  lemma DyadCount(c: Constants)
    requires c.n >= 1
    ensures NDyad(c) == |Graphs.AllDyads(c.n)|
    ensures MN(c) == c.n * M(c)
  {
    Graphs.AllDyadsShape(c.n);
  }

  // ---------------------------------------------------------------
  // Parameter-index combinations
  // ---------------------------------------------------------------

  /** The lengths of the parameter lists and TIME: RESULT_SHAPE. */
  datatype Shape = Shape(socialDynamics: nat, span: nat, enforcement: nat, turbulence: nat, turnover: nat, time: nat)

  /** (social dynamics, span, enforcement, turbulence, turnover) indices. */
  type Combo = (nat, nat, nat, nat, nat)

  /** A combination with a time index appended. */
  type TimedCombo = (nat, nat, nat, nat, nat, nat)

  /** NUM_SOCIAL_DYNAMICS * LENGTH_SPAN * LENGTH_ENFORCEMENT * LENGTH_TURBULENCE * LENGTH_TURNOVER. */
  function Size(s: Shape): nat
  {
    s.socialDynamics * (s.span * (s.enforcement * (s.turbulence * s.turnover)))
  }

  predicate InShape(x: Combo, s: Shape)
  {
    x.0 < s.socialDynamics && x.1 < s.span && x.2 < s.enforcement && x.3 < s.turbulence && x.4 < s.turnover
  }

  predicate TimedInShape(x: TimedCombo, s: Shape)
  {
    x.0 < s.socialDynamics && x.1 < s.span && x.2 < s.enforcement && x.3 < s.turbulence && x.4 < s.turnover
    && x.5 < s.time
  }

  /** Strict lexicographic order, first index most significant. */
  predicate Lex(x: Combo, y: Combo)
  {
    x.0 < y.0 || (x.0 == y.0 && (x.1 < y.1 || (x.1 == y.1 && (x.2 < y.2 || (x.2 == y.2 && (x.3 < y.3
    || (x.3 == y.3 && x.4 < y.4)))))))
  }

  predicate Sorted(cs: seq<Combo>)
  {
    forall p, q :: 0 <= p < q < |cs| ==> Lex(cs[p], cs[q])
  }

  /** The innermost loop: turnover indices below k after the leading four. */
  function Turnovers(a: nat, b: nat, c: nat, d: nat, k: nat): seq<Combo>
  {
    seq(k, e => (a, b, c, d, e))
  }

  /** Turbulence indices below k, each with all its turnover indices. */
  function Turbulences(a: nat, b: nat, c: nat, k: nat, s: Shape): seq<Combo>
  {
    if k == 0 then [] else Turbulences(a, b, c, k - 1, s) + Turnovers(a, b, c, k - 1, s.turnover)
  }

  /** Enforcement indices below k, each with all its turbulence indices. */
  function Enforcements(a: nat, b: nat, k: nat, s: Shape): seq<Combo>
  {
    if k == 0 then [] else Enforcements(a, b, k - 1, s) + Turbulences(a, b, k - 1, s.turbulence, s)
  }

  /** Span indices below k, each with all its enforcement indices. */
  function Spans(a: nat, k: nat, s: Shape): seq<Combo>
  {
    if k == 0 then [] else Spans(a, k - 1, s) + Enforcements(a, k - 1, s.enforcement, s)
  }

  /** Social-dynamics indices below k, each with all its span indices. */
  function Dynamics(k: nat, s: Shape): seq<Combo>
  {
    if k == 0 then [] else Dynamics(k - 1, s) + Spans(k - 1, s.span, s)
  }

  /** PARAMS_INDEX_COMBINATIONS: the five nested loops, last index fastest. */
  function Combinations(s: Shape): seq<Combo>
  {
    Dynamics(s.socialDynamics, s)
  }

  /** One combination followed by each time index below time. */
  function Times(x: Combo, time: nat): seq<TimedCombo>
  {
    seq(time, t => (x.0, x.1, x.2, x.3, x.4, t))
  }

  /** PARAMS_INDEX_COMBINATIONS_WITH_TIME: every combination in turn, each with all its time indices. */
  function WithTime(cs: seq<Combo>, time: nat): seq<TimedCombo>
  {
    if cs == [] then [] else WithTime(cs[..|cs| - 1], time) + Times(cs[|cs| - 1], time)
  }

  // What the enumeration promises: Size(s) entries, each within the shape,
  // strictly increasing in lexicographic order (so each tuple exactly once,
  // the last index fastest), and TIME timed entries per combination.

  /** Entries whose first three indices are a, b, c, whose fourth is below k, and whose fifth is in range. */
  predicate Under3(cs: seq<Combo>, a: nat, b: nat, c: nat, k: nat, s: Shape)
  {
    forall p :: 0 <= p < |cs| ==> cs[p].0 == a && cs[p].1 == b && cs[p].2 == c && cs[p].3 < k && cs[p].4 < s.turnover
  }

  predicate Under2(cs: seq<Combo>, a: nat, b: nat, k: nat, s: Shape)
  {
    forall p :: 0 <= p < |cs| ==> cs[p].0 == a && cs[p].1 == b && cs[p].2 < k && cs[p].3 < s.turbulence
                                  && cs[p].4 < s.turnover
  }

  predicate Under1(cs: seq<Combo>, a: nat, k: nat, s: Shape)
  {
    forall p :: 0 <= p < |cs| ==> cs[p].0 == a && cs[p].1 < k && cs[p].2 < s.enforcement && cs[p].3 < s.turbulence
                                  && cs[p].4 < s.turnover
  }

  predicate Under0(cs: seq<Combo>, k: nat, s: Shape)
  {
    forall p :: 0 <= p < |cs| ==> cs[p].0 < k && cs[p].1 < s.span && cs[p].2 < s.enforcement
                                  && cs[p].3 < s.turbulence && cs[p].4 < s.turnover
  }

  /** Two sorted lists, every entry of the first before every entry of the second, concatenate to a sorted list. */
  lemma SortedConcat(x: seq<Combo>, y: seq<Combo>)
    requires Sorted(x) && Sorted(y)
    requires forall p, q :: 0 <= p < |x| && 0 <= q < |y| ==> Lex(x[p], y[q])
    ensures Sorted(x + y)
  {
    forall p, q | 0 <= p < q < |x + y| ensures Lex((x + y)[p], (x + y)[q]) {
      if q < |x| {
        assert Lex(x[p], x[q]);
      } else if p >= |x| {
        assert Lex(y[p - |x|], y[q - |x|]);
      } else {
        assert Lex(x[p], y[q - |x|]);
      }
    }
  }

  lemma {:induction false} TurbulencesShape(a: nat, b: nat, c: nat, k: nat, s: Shape)
    ensures |Turbulences(a, b, c, k, s)| == k * s.turnover
    ensures Under3(Turbulences(a, b, c, k, s), a, b, c, k, s) && Sorted(Turbulences(a, b, c, k, s))
  {
    if k > 0 {
      var x, y := Turbulences(a, b, c, k - 1, s), Turnovers(a, b, c, k - 1, s.turnover);
      TurbulencesShape(a, b, c, k - 1, s);
      MulPred(k, s.turnover);
      SortedConcat(x, y);
    }
  }

  lemma {:induction false} EnforcementsShape(a: nat, b: nat, k: nat, s: Shape)
    ensures |Enforcements(a, b, k, s)| == k * (s.turbulence * s.turnover)
    ensures Under2(Enforcements(a, b, k, s), a, b, k, s) && Sorted(Enforcements(a, b, k, s))
  {
    if k > 0 {
      var x, y := Enforcements(a, b, k - 1, s), Turbulences(a, b, k - 1, s.turbulence, s);
      EnforcementsShape(a, b, k - 1, s);
      TurbulencesShape(a, b, k - 1, s.turbulence, s);
      MulPred(k, s.turbulence * s.turnover);
      SortedConcat(x, y);
    }
  }

  lemma {:induction false} SpansShape(a: nat, k: nat, s: Shape)
    ensures |Spans(a, k, s)| == k * (s.enforcement * (s.turbulence * s.turnover))
    ensures Under1(Spans(a, k, s), a, k, s) && Sorted(Spans(a, k, s))
  {
    if k > 0 {
      var x, y := Spans(a, k - 1, s), Enforcements(a, k - 1, s.enforcement, s);
      SpansShape(a, k - 1, s);
      EnforcementsShape(a, k - 1, s.enforcement, s);
      MulPred(k, s.enforcement * (s.turbulence * s.turnover));
      SortedConcat(x, y);
    }
  }

  lemma {:induction false} DynamicsShape(k: nat, s: Shape)
    ensures |Dynamics(k, s)| == k * (s.span * (s.enforcement * (s.turbulence * s.turnover)))
    ensures Under0(Dynamics(k, s), k, s) && Sorted(Dynamics(k, s))
  {
    if k > 0 {
      var x, y := Dynamics(k - 1, s), Spans(k - 1, s.span, s);
      DynamicsShape(k - 1, s);
      SpansShape(k - 1, s.span, s);
      MulPred(k, s.span * (s.enforcement * (s.turbulence * s.turnover)));
      SortedConcat(x, y);
    }
  }

  /**
   * PARAMS_INDEX_COMBINATIONS has the product of the five lengths as its
   * length, every entry lies within RESULT_SHAPE, and the entries strictly
   * increase in lexicographic order, the last index varying fastest.
   */
  lemma CombinationsShape(s: Shape)
    ensures |Combinations(s)| == Size(s)
    ensures forall p :: 0 <= p < |Combinations(s)| ==> InShape(Combinations(s)[p], s)
    ensures Sorted(Combinations(s))
  {
    DynamicsShape(s.socialDynamics, s);
  }

  lemma {:induction false} TurbulencesCover(a: nat, b: nat, c: nat, k: nat, s: Shape, x: Combo)
    requires x.0 == a && x.1 == b && x.2 == c && x.3 < k && x.4 < s.turnover
    ensures x in Turbulences(a, b, c, k, s)
  {
    if x.3 == k - 1 {
      assert x == Turnovers(a, b, c, k - 1, s.turnover)[x.4];
    } else {
      TurbulencesCover(a, b, c, k - 1, s, x);
    }
  }

  lemma {:induction false} EnforcementsCover(a: nat, b: nat, k: nat, s: Shape, x: Combo)
    requires x.0 == a && x.1 == b && x.2 < k && x.3 < s.turbulence && x.4 < s.turnover
    ensures x in Enforcements(a, b, k, s)
  {
    assert Enforcements(a, b, k, s) == Enforcements(a, b, k - 1, s) + Turbulences(a, b, k - 1, s.turbulence, s);
    if x.2 == k - 1 {
      TurbulencesCover(a, b, k - 1, s.turbulence, s, x);
      assert x in Turbulences(a, b, k - 1, s.turbulence, s);
    } else {
      EnforcementsCover(a, b, k - 1, s, x);
    }
  }

  lemma {:induction false} SpansCover(a: nat, k: nat, s: Shape, x: Combo)
    requires x.0 == a && x.1 < k && x.2 < s.enforcement && x.3 < s.turbulence && x.4 < s.turnover
    ensures x in Spans(a, k, s)
  {
    assert Spans(a, k, s) == Spans(a, k - 1, s) + Enforcements(a, k - 1, s.enforcement, s);
    if x.1 == k - 1 {
      EnforcementsCover(a, k - 1, s.enforcement, s, x);
      assert x in Enforcements(a, k - 1, s.enforcement, s);
    } else {
      SpansCover(a, k - 1, s, x);
    }
  }

  lemma {:induction false} DynamicsCover(k: nat, s: Shape, x: Combo)
    requires x.0 < k && x.1 < s.span && x.2 < s.enforcement && x.3 < s.turbulence && x.4 < s.turnover
    ensures x in Dynamics(k, s)
  {
    assert Dynamics(k, s) == Dynamics(k - 1, s) + Spans(k - 1, s.span, s);
    if x.0 == k - 1 {
      SpansCover(k - 1, s.span, s, x);
      assert x in Spans(k - 1, s.span, s);
    } else {
      DynamicsCover(k - 1, s, x);
    }
  }

  /** Every tuple within RESULT_SHAPE is enumerated (and, being sorted strictly, exactly once). */
  lemma CombinationsCover(s: Shape, x: Combo)
    requires InShape(x, s)
    ensures x in Combinations(s)
  {
    DynamicsCover(s.socialDynamics, s, x);
  }

  /** TIME entries per combination: the list is TIME times as long. */
  lemma {:induction false} WithTimeLength(cs: seq<Combo>, time: nat)
    ensures |WithTime(cs, time)| == |cs| * time
  {
    if cs != [] {
      WithTimeLength(cs[..|cs| - 1], time);
      MulPred(|cs|, time);
    }
  }

  /** Entry k * TIME + t is combination k with t appended. */
  lemma {:induction false} WithTimeEntry(cs: seq<Combo>, time: nat, k: nat, t: nat)
    requires k < |cs| && t < time
    ensures k * time + t < |WithTime(cs, time)|
    ensures WithTime(cs, time)[k * time + t] == (cs[k].0, cs[k].1, cs[k].2, cs[k].3, cs[k].4, t)
  {
    var init := cs[..|cs| - 1];
    WithTimeLength(cs, time);
    WithTimeLength(init, time);
    MulMono(time, k + 1, |cs|);
    if k < |init| {
      WithTimeEntry(init, time, k, t);
      MulMono(time, k + 1, |init|);
    } else {
      assert k * time == |WithTime(init, time)|;
    }
  }

  /** Every timed entry lies within RESULT_SHAPE when the combinations do. */
  lemma {:induction false} WithTimeInShape(cs: seq<Combo>, s: Shape)
    requires forall p :: 0 <= p < |cs| ==> InShape(cs[p], s)
    ensures forall p :: 0 <= p < |WithTime(cs, s.time)| ==> TimedInShape(WithTime(cs, s.time)[p], s)
  {
    if cs != [] {
      WithTimeInShape(cs[..|cs| - 1], s);
    }
  }

  // The loops, one method per nesting level.

  /** The time loop: appends the combination with each time index. */
  method PushTimes(x: Combo, time: nat, ts: seq<TimedCombo>) returns (ts': seq<TimedCombo>)
    ensures ts' == ts + Times(x, time)
  {
    ts' := ts;
    for t := 0 to time
      invariant ts' == ts + Times(x, t)
    {
      ts' := ts' + [(x.0, x.1, x.2, x.3, x.4, t)];
    }
  }

  /** The turnover loop: each combination pushed, then its time indices. */
  method PushTurnovers(a: nat, b: nat, c: nat, d: nat, s: Shape, cs: seq<Combo>, ts: seq<TimedCombo>)
    returns (cs': seq<Combo>, ts': seq<TimedCombo>)
    requires ts == WithTime(cs, s.time)
    ensures cs' == cs + Turnovers(a, b, c, d, s.turnover) && ts' == WithTime(cs', s.time)
  {
    cs', ts' := cs, ts;
    for e := 0 to s.turnover
      invariant cs' == cs + Turnovers(a, b, c, d, e) && ts' == WithTime(cs', s.time)
    {
      var x := (a, b, c, d, e);
      ts' := PushTimes(x, s.time, ts');
      assert (cs' + [x])[..|cs'|] == cs';
      cs' := cs' + [x];
    }
  }

  method PushTurbulences(a: nat, b: nat, c: nat, s: Shape, cs: seq<Combo>, ts: seq<TimedCombo>)
    returns (cs': seq<Combo>, ts': seq<TimedCombo>)
    requires ts == WithTime(cs, s.time)
    ensures cs' == cs + Turbulences(a, b, c, s.turbulence, s) && ts' == WithTime(cs', s.time)
  {
    cs', ts' := cs, ts;
    for d := 0 to s.turbulence
      invariant cs' == cs + Turbulences(a, b, c, d, s) && ts' == WithTime(cs', s.time)
    {
      cs', ts' := PushTurnovers(a, b, c, d, s, cs', ts');
      assert Turbulences(a, b, c, d + 1, s) == Turbulences(a, b, c, d, s) + Turnovers(a, b, c, d, s.turnover);
    }
  }

  method PushEnforcements(a: nat, b: nat, s: Shape, cs: seq<Combo>, ts: seq<TimedCombo>)
    returns (cs': seq<Combo>, ts': seq<TimedCombo>)
    requires ts == WithTime(cs, s.time)
    ensures cs' == cs + Enforcements(a, b, s.enforcement, s) && ts' == WithTime(cs', s.time)
  {
    cs', ts' := cs, ts;
    for c := 0 to s.enforcement
      invariant cs' == cs + Enforcements(a, b, c, s) && ts' == WithTime(cs', s.time)
    {
      cs', ts' := PushTurbulences(a, b, c, s, cs', ts');
      assert Enforcements(a, b, c + 1, s) == Enforcements(a, b, c, s) + Turbulences(a, b, c, s.turbulence, s);
    }
  }

  method PushSpans(a: nat, s: Shape, cs: seq<Combo>, ts: seq<TimedCombo>)
    returns (cs': seq<Combo>, ts': seq<TimedCombo>)
    requires ts == WithTime(cs, s.time)
    ensures cs' == cs + Spans(a, s.span, s) && ts' == WithTime(cs', s.time)
  {
    cs', ts' := cs, ts;
    for b := 0 to s.span
      invariant cs' == cs + Spans(a, b, s) && ts' == WithTime(cs', s.time)
    {
      cs', ts' := PushSpan(a, b, s, cs, cs', ts');
    }
  }

  /** One pass of the span loop: the enforcement loop for span index b. */
  method PushSpan(a: nat, b: nat, s: Shape, cs0: seq<Combo>, cs: seq<Combo>, ts: seq<TimedCombo>)
    returns (cs': seq<Combo>, ts': seq<TimedCombo>)
    requires cs == cs0 + Spans(a, b, s) && ts == WithTime(cs, s.time)
    ensures cs' == cs0 + Spans(a, b + 1, s) && ts' == WithTime(cs', s.time)
  {
    cs', ts' := PushEnforcements(a, b, s, cs, ts);
    assert Spans(a, b + 1, s) == Spans(a, b, s) + Enforcements(a, b, s.enforcement, s);
  }

  /** The outer loop of initialize_once_cells: both lists built side by side. */
  method Enumerate(s: Shape) returns (cs: seq<Combo>, ts: seq<TimedCombo>)
    ensures cs == Combinations(s) && ts == WithTime(cs, s.time)
  {
    cs, ts := [], [];
    for a := 0 to s.socialDynamics
      invariant cs == Dynamics(a, s) && ts == WithTime(cs, s.time)
    {
      cs, ts := PushSpans(a, s, cs, ts);
    }
  }

  /** Why initialize_once_cells panics: a cell it sets was already set. */
  datatype Failure = CombinationsAlreadySet | CombinationsWithTimeAlreadySet

  /** The two write-once cells. */
  class OnceCells {
    var combinations: Option<seq<Combo>>
    var combinationsWithTime: Option<seq<TimedCombo>>

    constructor ()
      ensures combinations == None && combinationsWithTime == None
    {
      combinations, combinationsWithTime := None, None;
    }

    /**
     * initialize_once_cells: builds both lists, then sets each cell and
     * unwraps the result, so a cell already set makes the call fail (the
     * panic) and leaves that cell as it was.
     */
    method InitializeOnceCells(s: Shape) returns (r: Result<(), Failure>)
      modifies this
      ensures old(combinations).Some? ==> r == Err(CombinationsAlreadySet) && combinations == old(combinations)
                                          && combinationsWithTime == old(combinationsWithTime)
      ensures old(combinations).None? ==> combinations == Some(Combinations(s))
      ensures old(combinations).None? && old(combinationsWithTime).Some? ==>
                r == Err(CombinationsWithTimeAlreadySet) && combinationsWithTime == old(combinationsWithTime)
      ensures old(combinations).None? && old(combinationsWithTime).None? ==>
                r == Ok(()) && combinationsWithTime == Some(WithTime(Combinations(s), s.time))
    {
      var cs, ts := Enumerate(s);
      if combinations.Some? {
        return Err(CombinationsAlreadySet);
      }
      combinations := Some(cs);
      if combinationsWithTime.Some? {
        return Err(CombinationsWithTimeAlreadySet);
      }
      combinationsWithTime := Some(ts);
      r := Ok(());
    }
  }
}
