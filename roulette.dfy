// Roulette-wheel selection as the rewiring routines perform it: a marker is
// drawn in [0, 1), the weights are walked in list order, each non-zero weight
// adds its share weight / denominator to a running total, and the first
// position whose running total reaches the marker is chosen.  Weights are
// exact reals here (the source uses f64).

module Roulette {
  import opened Wrappers

  /** Sum of the weights, accumulated from the front as the source does. */
  function Sum(w: seq<real>): real
  {
    if w == [] then 0.0 else Sum(w[..|w| - 1]) + w[|w| - 1]
  }

  /** The running total after the walk has passed the first d positions. */
  function CumShare(w: seq<real>, denom: real, d: nat): real
    requires denom != 0.0 && d <= |w|
  {
    if d == 0 then 0.0
    else CumShare(w, denom, d - 1) + (if w[d - 1] != 0.0 then w[d - 1] / denom else 0.0)
  }

  /** Position d stops the walk: a non-zero weight whose running total reaches the marker. */
  predicate Stops(w: seq<real>, denom: real, marker: real, d: nat)
    requires denom != 0.0 && d < |w|
  {
    w[d] != 0.0 && CumShare(w, denom, d + 1) >= marker
  }

  /** The walk started at position from: the first stopping position, if any. */
  function SelectFrom(w: seq<real>, denom: real, marker: real, from: nat): (r: Option<nat>)
    requires denom != 0.0 && from <= |w|
    ensures r.Some? ==> from <= r.value < |w| && Stops(w, denom, marker, r.value)
    ensures r.Some? ==> forall k :: from <= k < r.value ==> !Stops(w, denom, marker, k)
    ensures r.None? ==> forall k :: from <= k < |w| ==> !Stops(w, denom, marker, k)
    decreases |w| - from
  {
    if from == |w| then None
    else if Stops(w, denom, marker, from) then Some(from)
    else SelectFrom(w, denom, marker, from + 1)
  }

  function Select(w: seq<real>, denom: real, marker: real): Option<nat>
    requires denom != 0.0
  {
    SelectFrom(w, denom, marker, 0)
  }

  /** The running total is the prefix sum divided by the denominator. */
  lemma {:induction false} CumShareIsPrefixRatio(w: seq<real>, denom: real, d: nat)
    requires denom != 0.0 && d <= |w|
    ensures CumShare(w, denom, d) == Sum(w[..d]) / denom
  {
    if d > 0 {
      CumShareIsPrefixRatio(w, denom, d - 1);
      assert w[..d][..d - 1] == w[..d - 1];
      var s := Sum(w[..d - 1]);
      assert Sum(w[..d]) == s + w[d - 1];
      assert s / denom + w[d - 1] / denom == (s + w[d - 1]) / denom;
    }
  }

  /** Zero weights at the end of the list do not move the running total. */
  lemma {:induction false} TrailingZeros(w: seq<real>, denom: real, d: nat)
    requires denom != 0.0 && d <= |w|
    requires forall k :: d <= k < |w| ==> w[k] == 0.0
    ensures CumShare(w, denom, d) == CumShare(w, denom, |w|)
    decreases |w| - d
  {
    if d < |w| {
      TrailingZeros(w, denom, d + 1);
    }
  }

  /** Some weight is non-zero, and the last such position has running total 1. */
  lemma {:induction false} LastNonzeroStops(w: seq<real>, denom: real, marker: real, d: nat)
    requires Sum(w) == denom != 0.0 && marker <= 1.0
    requires d <= |w| && forall k :: d <= k < |w| ==> w[k] == 0.0
    ensures exists k :: 0 <= k < d && Stops(w, denom, marker, k)
    decreases d
  {
    if d == 0 {
      assert w[..|w|] == w;
      CumShareIsPrefixRatio(w, denom, |w|);
      TrailingZeros(w, denom, 0);
      assert false;
    } else if w[d - 1] == 0.0 {
      LastNonzeroStops(w, denom, marker, d - 1);
    } else {
      TrailingZeros(w, denom, d);
      CumShareIsPrefixRatio(w, denom, |w|);
      assert w[..|w|] == w;
      assert Stops(w, denom, marker, d - 1);
    }
  }

  /**
   * With exact arithmetic the walk always stops when the denominator is the
   * (non-zero) sum of the weights and the marker is at most 1: the chosen
   * position carries a non-zero weight.
   */
  lemma SelectFound(w: seq<real>, denom: real, marker: real)
    requires Sum(w) == denom != 0.0 && marker <= 1.0
    ensures Select(w, denom, marker).Some?
    ensures w[Select(w, denom, marker).value] != 0.0
  {
    LastNonzeroStops(w, denom, marker, |w|);
  }

  /** All weights 1 with denominator 1 (the fallback of the source): the walk stops at once. */
  lemma UniformStopsFirst(w: seq<real>, marker: real)
    requires |w| > 0 && forall k :: 0 <= k < |w| ==> w[k] == 1.0
    requires marker <= 1.0
    ensures Select(w, 1.0, marker) == Some(0)
  {
    assert Stops(w, 1.0, marker, 0);
  }

  /**
   * The walk as the source writes it: positions in order, a running total,
   * and a stop at the first position that reaches the marker.
   */
  method Walk(w: seq<real>, denom: real, marker: real) returns (found: bool, d: nat)
    requires denom != 0.0
    ensures found <==> Select(w, denom, marker).Some?
    ensures found ==> d == Select(w, denom, marker).value && w[d] != 0.0
  {
    var cum := 0.0;
    d := 0;
    found := false;
    while d < |w|
      invariant d <= |w|
      invariant cum == CumShare(w, denom, d)
      invariant Select(w, denom, marker) == SelectFrom(w, denom, marker, d)
    {
      if w[d] != 0.0 {
        cum := cum + w[d] / denom;
        if cum >= marker {
          found := true;
          return;
        }
      }
      d := d + 1;
    }
  }
}
