// Beliefs and reality in the older flat-belief scenario (test2): one row of
// M = M_OF_BUNDLE * M_IN_BUNDLE bits, bundle b holding the bits
// b * M_IN_BUNDLE up to (b + 1) * M_IN_BUNDLE.  An agent's score is either
// all-or-nothing per bundle or, when bundles have one element, the number
// of agreeing bits; both agree with the bundled score of module Beliefs.

module FlatBeliefs {
  import opened Arith
  import Beliefs

  /** An agent's beliefs, or reality, as one row of bits. */
  type Bits = seq<bool>

  /** A row cut into mOf bundles of mIn bits: the layout module Beliefs works on. */
  function Bundled(s: Bits, mOf: nat, mIn: nat): (r: Beliefs.Bundles)
    requires |s| == mOf * mIn
    ensures Beliefs.Shaped(r, mOf, mIn)
    ensures forall b, e :: 0 <= b < mOf && 0 <= e < mIn ==> b * mIn + e < |s| && r[b][e] == s[b * mIn + e]
  {
    BundleBounds(mOf, mIn);
    seq(mOf, b requires 0 <= b < mOf => s[b * mIn .. b * mIn + mIn])
  }

  lemma BundleBounds(mOf: nat, mIn: nat)
    ensures forall b :: 0 <= b < mOf ==> b * mIn + mIn <= mOf * mIn
  {
    forall b | 0 <= b < mOf ensures b * mIn + mIn <= mOf * mIn {
      MulMono(mIn, b + 1, mOf);
    }
  }

  /** Every bit of a row lies in exactly one bundle, at its quotient and remainder by mIn. */
  lemma Position(k: nat, mOf: nat, mIn: nat)
    requires k < mOf * mIn
    ensures mIn > 0 && k / mIn < mOf && k % mIn < mIn && (k / mIn) * mIn + k % mIn == k
  {
  }

  /** Cutting into bundles loses nothing: two rows with the same bundles are equal. */
  lemma BundledInjective(x: Bits, y: Bits, mOf: nat, mIn: nat)
    requires |x| == |y| == mOf * mIn
    ensures Bundled(x, mOf, mIn) == Bundled(y, mOf, mIn) <==> x == y
  {
    if Bundled(x, mOf, mIn) == Bundled(y, mOf, mIn) {
      forall k | 0 <= k < |x| ensures x[k] == y[k] {
        Position(k, mOf, mIn);
        var b, e := k / mIn, k % mIn;
        assert Bundled(x, mOf, mIn)[b][e] == Bundled(y, mOf, mIn)[b][e];
      }
    }
  }

  // ---------------------------------------------------------------
  // get_performance: all-or-nothing per bundle
  // ---------------------------------------------------------------

  /** Whether two rows agree on every bit from lo up to hi: the inner loop of get_performance, left at the first mismatch. */
  method BundleAgrees(reality: Bits, belief: Bits, lo: nat, hi: nat) returns (all: bool)
    requires lo <= hi <= |reality| == |belief|
    ensures all <==> reality[lo..hi] == belief[lo..hi]
  {
    all := true;
    var m := lo;
    while m < hi
      invariant lo <= m <= hi
      invariant all <==> forall j :: lo <= j < m ==> reality[j] == belief[j]
      invariant all
    {
      if belief[m] != reality[m] {
        all := false;
        assert reality[lo..hi][m - lo] != belief[lo..hi][m - lo];
        return;
      }
      m := m + 1;
    }
    assert forall j :: 0 <= j < hi - lo ==> reality[lo..hi][j] == belief[lo..hi][j];
  }

  /** get_performance: M_IN_BUNDLE for every bundle on which the belief matches reality exactly. */
  method GetPerformance(reality: Bits, belief: Bits, mOf: nat, mIn: nat) returns (score: nat)
    requires |reality| == |belief| == mOf * mIn
    ensures score == Beliefs.Performance(Bundled(reality, mOf, mIn), Bundled(belief, mOf, mIn), mIn)
  {
    ghost var r, f := Bundled(reality, mOf, mIn), Bundled(belief, mOf, mIn);
    score := 0;
    for b := 0 to mOf
      invariant score == mIn * Beliefs.MatchingBundles(r[..b], f[..b])
    {
      var all := BundleMatches(reality, belief, mOf, mIn, b);
      MatchingNext(r, f, b);
      if all {
        MulSucc(mIn, Beliefs.MatchingBundles(r[..b], f[..b]));
        score := score + mIn;
      }
    }
    assert r[..mOf] == r && f[..mOf] == f;
  }

  /** Whether bundle b of the belief matches the same bundle of reality in every element. */
  method BundleMatches(reality: Bits, belief: Bits, mOf: nat, mIn: nat, b: nat) returns (all: bool)
    requires |reality| == |belief| == mOf * mIn && b < mOf
    ensures all <==> Bundled(reality, mOf, mIn)[b] == Bundled(belief, mOf, mIn)[b]
  {
    BundleSlice(reality, mOf, mIn, b);
    BundleSlice(belief, mOf, mIn, b);
    var lo := b * mIn;
    all := BundleAgrees(reality, belief, lo, lo + mIn);
  }

  /** Bundle b is the slice of the row from b * mIn. */
  lemma BundleSlice(s: Bits, mOf: nat, mIn: nat, b: nat)
    requires |s| == mOf * mIn && b < mOf
    ensures b * mIn + mIn <= |s| && Bundled(s, mOf, mIn)[b] == s[b * mIn .. b * mIn + mIn]
  {
    BundleBounds(mOf, mIn);
  }

  /** One more bundle adds one to the matched count exactly when it matches. */
  lemma MatchingNext(r: Beliefs.Bundles, f: Beliefs.Bundles, b: nat)
    requires b < |r| == |f|
    ensures Beliefs.MatchingBundles(r[..b + 1], f[..b + 1])
            == Beliefs.MatchingBundles(r[..b], f[..b]) + if r[b] == f[b] then 1 else 0
  {
    assert r[..b + 1][..b] == r[..b] && f[..b + 1][..b] == f[..b];
  }

  // ---------------------------------------------------------------
  // get_performance_s1: one point per agreeing bit
  // ---------------------------------------------------------------

  /** The number of positions below k where the two rows agree. */
  function Agreements(reality: Bits, belief: Bits, k: nat): (c: nat)
    requires k <= |reality| == |belief|
    ensures c <= k
    ensures c == k <==> reality[..k] == belief[..k]
  {
    if k == 0 then 0
    else
      var c := Agreements(reality, belief, k - 1) + (if reality[k - 1] == belief[k - 1] then 1 else 0);
      assert reality[..k] == reality[..k - 1] + [reality[k - 1]] && belief[..k] == belief[..k - 1] + [belief[k - 1]];
      c
  }

  /** get_performance_s1: the count of bits on which the belief agrees with reality. */
  method GetPerformanceS1(reality: Bits, belief: Bits) returns (score: nat)
    requires |reality| == |belief|
    ensures score == Agreements(reality, belief, |reality|)
  {
    score := 0;
    for m := 0 to |reality|
      invariant score == Agreements(reality, belief, m)
    {
      if belief[m] == reality[m] {
        score := score + 1;
      }
    }
  }

  /** With one-bit bundles, counting agreeing bits and counting matched bundles coincide. */
  lemma {:induction false} AgreementsAreBundles(reality: Bits, belief: Bits, k: nat)
    requires k <= |reality| == |belief|
    ensures Agreements(reality, belief, k)
            == Beliefs.MatchingBundles(Bundled(reality, |reality|, 1)[..k], Bundled(belief, |belief|, 1)[..k])
  {
    var r, f := Bundled(reality, |reality|, 1), Bundled(belief, |belief|, 1);
    if k > 0 {
      AgreementsAreBundles(reality, belief, k - 1);
      assert r[..k][..k - 1] == r[..k - 1] && f[..k][..k - 1] == f[..k - 1];
      assert r[k - 1] == [reality[k - 1]] && f[k - 1] == [belief[k - 1]];
    }
  }

  // ---------------------------------------------------------------
  // set_performance_single
  // ---------------------------------------------------------------

  /** set_performance_single: the per-bit count when bundles have one bit, the per-bundle score otherwise. */
  function Score(reality: Bits, belief: Bits, mOf: nat, mIn: nat): nat
    requires |reality| == |belief| == mOf * mIn
  {
    if mIn == 1 then Agreements(reality, belief, |reality|)
    else Beliefs.Performance(Bundled(reality, mOf, mIn), Bundled(belief, mOf, mIn), mIn)
  }

  /**
   * Whichever branch set_performance_single takes, the score is the
   * per-bundle score of module Beliefs; so it is a multiple of M_IN_BUNDLE,
   * at most M, and equal to M exactly when the belief is reality.
   */
  lemma ScoreRange(reality: Bits, belief: Bits, mOf: nat, mIn: nat)
    requires |reality| == |belief| == mOf * mIn
    ensures Score(reality, belief, mOf, mIn) == Beliefs.Performance(Bundled(reality, mOf, mIn), Bundled(belief, mOf, mIn), mIn)
    ensures mIn > 0 ==> Score(reality, belief, mOf, mIn) % mIn == 0
    ensures Score(reality, belief, mOf, mIn) <= mOf * mIn
    ensures mIn > 0 ==> (Score(reality, belief, mOf, mIn) == mOf * mIn <==> reality == belief)
  {
    var r, f := Bundled(reality, mOf, mIn), Bundled(belief, mOf, mIn);
    if mIn == 1 {
      AgreementsAreBundles(reality, belief, |reality|);
      assert r[..|reality|] == r && f[..|belief|] == f;
    }
    Beliefs.PerformanceRange(r, f, mOf, mIn);
    BundledInjective(reality, belief, mOf, mIn);
  }

  /** set_performance: every agent's score. */
  function Scores(reality: Bits, belief: seq<Bits>, mOf: nat, mIn: nat): (s: seq<nat>)
    requires |reality| == mOf * mIn && forall a :: 0 <= a < |belief| ==> |belief[a]| == mOf * mIn
    ensures |s| == |belief|
  {
    seq(|belief|, a requires 0 <= a < |belief| => Score(reality, belief[a], mOf, mIn))
  }

  /** set_performance_single for one agent. */
  method SetPerformanceSingle(reality: Bits, belief: Bits, mOf: nat, mIn: nat) returns (score: nat)
    requires |reality| == |belief| == mOf * mIn
    ensures score == Score(reality, belief, mOf, mIn)
  {
    if mIn == 1 {
      score := GetPerformanceS1(reality, belief);
    } else {
      score := GetPerformance(reality, belief, mOf, mIn);
    }
  }

  /** set_performance: the scores of all agents, recomputed one by one. */
  method SetPerformance(reality: Bits, belief: seq<Bits>, mOf: nat, mIn: nat) returns (performance: seq<nat>)
    requires |reality| == mOf * mIn && forall a :: 0 <= a < |belief| ==> |belief[a]| == mOf * mIn
    ensures performance == Scores(reality, belief, mOf, mIn)
  {
    performance := [];
    for a := 0 to |belief|
      invariant performance == Scores(reality, belief, mOf, mIn)[..a]
    {
      var s := SetPerformanceSingle(reality, belief[a], mOf, mIn);
      performance := performance + [s];
    }
  }

  // ---------------------------------------------------------------
  // do_turbulence
  // ---------------------------------------------------------------

  /** Each bit of reality whose draw falls under the rate is flipped. */
  function Turbulent(reality: Bits, draws: seq<real>, rate: real): (r: Bits)
    requires |draws| == |reality|
    ensures |r| == |reality|
  {
    seq(|reality|, m requires 0 <= m < |reality| => if draws[m] < rate then !reality[m] else reality[m])
  }

  /** Only the bits drawn under the rate change; applying the same draws twice restores reality. */
  lemma TurbulenceFlips(reality: Bits, draws: seq<real>, rate: real)
    requires |draws| == |reality|
    ensures forall m :: 0 <= m < |reality| ==> (Turbulent(reality, draws, rate)[m] != reality[m] <==> draws[m] < rate)
    ensures Turbulent(Turbulent(reality, draws, rate), draws, rate) == reality
    ensures rate <= 0.0 && (forall m :: 0 <= m < |draws| ==> draws[m] >= 0.0) ==> Turbulent(reality, draws, rate) == reality
  {
  }

  /** do_turbulence: one draw per bit of reality, the bit flipped when the draw is under the rate. */
  method DoTurbulence(reality: Bits, draws: seq<real>, rate: real) returns (r: Bits)
    requires |draws| == |reality|
    ensures r == Turbulent(reality, draws, rate)
  {
    r := reality;
    for m := 0 to |reality|
      invariant |r| == |reality|
      invariant forall j :: 0 <= j < |reality| ==> r[j] == if j < m then Turbulent(reality, draws, rate)[j] else reality[j]
    {
      if draws[m] < rate {
        r := r[m := !r[m]];
      }
    }
  }
}
