// Beliefs and reality are bit matrices of M_OF_BUNDLE bundles with
// M_IN_BUNDLE elements each.  An agent's performance scores its belief
// against reality bundle by bundle.

module Beliefs {
  import opened Arith

  /** A bit matrix indexed [bundle][element]. */
  type Bundles = seq<seq<bool>>

  predicate Shaped(b: Bundles, mOf: nat, mIn: nat)
  {
    |b| == mOf && forall i :: 0 <= i < mOf ==> |b[i]| == mIn
  }

  /** Number of bits in a belief matrix: M = M_OF_BUNDLE * M_IN_BUNDLE. */
  function Bits(mOf: nat, mIn: nat): nat
  {
    mOf * mIn
  }

  // ---------------------------------------------------------------
  // Intended score: M_IN_BUNDLE for each bundle matched exactly.
  // ---------------------------------------------------------------

  /** Number of bundles on which belief and reality agree in every element. */
  function MatchingBundles(reality: Bundles, belief: Bundles): (c: nat)
    requires |reality| == |belief|
    ensures c <= |reality|
    ensures c == |reality| <==> reality == belief
  {
    if reality == [] then 0
    else
      var k := |reality| - 1;
      var c := MatchingBundles(reality[..k], belief[..k]) + (if reality[k] == belief[k] then 1 else 0);
      assert reality == reality[..k] + [reality[k]] && belief == belief[..k] + [belief[k]];
      c
  }

  /** The per-bundle, all-or-nothing score. */
  function Performance(reality: Bundles, belief: Bundles, mIn: nat): nat
    requires |reality| == |belief|
  {
    mIn * MatchingBundles(reality, belief)
  }

  /**
   * The score is a multiple of M_IN_BUNDLE, lies in [0, M], and reaches M
   * exactly when belief equals reality (for non-empty bundles).
   */
  lemma PerformanceRange(reality: Bundles, belief: Bundles, mOf: nat, mIn: nat)
    requires Shaped(reality, mOf, mIn) && Shaped(belief, mOf, mIn)
    ensures Performance(reality, belief, mIn) % (if mIn == 0 then 1 else mIn) == 0
    ensures Performance(reality, belief, mIn) <= Bits(mOf, mIn)
    ensures mIn > 0 ==> (Performance(reality, belief, mIn) == Bits(mOf, mIn) <==> reality == belief)
  {
    var c := MatchingBundles(reality, belief);
    MulMono(mIn, c, mOf);
    if mIn > 0 {
      MultipleMod(c, mIn);
      assert mIn * c == c * mIn;
      if c < mOf {
        MulStrict(mIn, c, mOf);
      }
    }
  }

  // ---------------------------------------------------------------
  // The primary variant's loop as written: within a bundle, each element
  // of the matching prefix adds M_IN_BUNDLE.
  // ---------------------------------------------------------------

  /** Length of the longest common prefix of two bundles. */
  function MatchingPrefix(r: seq<bool>, b: seq<bool>): (k: nat)
    requires |r| == |b|
    ensures k <= |r|
    ensures forall e :: 0 <= e < k ==> r[e] == b[e]
    ensures k < |r| ==> r[k] != b[k]
  {
    if r == [] then 0
    else if r[0] != b[0] then 0
    else 1 + MatchingPrefix(r[1..], b[1..])
  }

  /** Sum over bundles of the matching-prefix lengths. */
  function PrefixTotal(reality: Bundles, belief: Bundles): nat
    requires |reality| == |belief|
    requires forall i :: 0 <= i < |reality| ==> |reality[i]| == |belief[i]|
  {
    if reality == [] then 0
    else
      var k := |reality| - 1;
      PrefixTotal(reality[..k], belief[..k]) + MatchingPrefix(reality[k], belief[k])
  }

  function PerformanceAsWritten(reality: Bundles, belief: Bundles, mIn: nat): nat
    requires |reality| == |belief|
    requires forall i :: 0 <= i < |reality| ==> |reality[i]| == |belief[i]|
  {
    mIn * PrefixTotal(reality, belief)
  }

  /** A bundle's matching prefix is the whole bundle exactly when the bundles agree. */
  lemma WholePrefix(r: seq<bool>, b: seq<bool>)
    requires |r| == |b|
    ensures MatchingPrefix(r, b) == |r| <==> r == b
  {
    var p := MatchingPrefix(r, b);
    if p < |r| {
      assert r[p] != b[p];
    }
  }

  /** Two lists of the same non-zero length are equal exactly when their fronts and last entries are. */
  lemma EqualByLast<T>(x: seq<T>, y: seq<T>)
    requires |x| == |y| > 0
    ensures x == y <==> x[..|x| - 1] == y[..|y| - 1] && x[|x| - 1] == y[|y| - 1]
  {
    var k := |x| - 1;
    assert x == x[..k] + [x[k]] && y == y[..k] + [y[k]];
  }

  lemma {:induction false} PrefixTotalRange(reality: Bundles, belief: Bundles, mOf: nat, mIn: nat)
    requires Shaped(reality, mOf, mIn) && Shaped(belief, mOf, mIn)
    ensures PrefixTotal(reality, belief) <= mOf * mIn
    ensures PrefixTotal(reality, belief) == mOf * mIn <==> reality == belief
  {
    if mOf > 0 {
      var k := mOf - 1;
      var front, back := reality[..k], belief[..k];
      assert Shaped(front, k, mIn) && Shaped(back, k, mIn);
      PrefixTotalRange(front, back, k, mIn);
      WholePrefix(reality[k], belief[k]);
      MulPred(mOf, mIn);
      EqualByLast(reality, belief);
    }
  }

  /**
   * The score as written lies in [0, M_IN_BUNDLE * M] and reaches
   * M_IN_BUNDLE * M exactly when belief equals reality.
   */
  lemma PerformanceAsWrittenRange(reality: Bundles, belief: Bundles, mOf: nat, mIn: nat)
    requires Shaped(reality, mOf, mIn) && Shaped(belief, mOf, mIn)
    ensures PerformanceAsWritten(reality, belief, mIn) <= mIn * Bits(mOf, mIn)
    ensures mIn > 0 ==> (PerformanceAsWritten(reality, belief, mIn) == mIn * Bits(mOf, mIn) <==> reality == belief)
  {
    PrefixTotalRange(reality, belief, mOf, mIn);
    var t := PrefixTotal(reality, belief);
    MulMono(mIn, t, mOf * mIn);
    if mIn > 0 && t < mOf * mIn {
      MulStrict(mIn, t, mOf * mIn);
    }
  }

  /**
   * The two scores part ways: one bundle of two elements whose first
   * element matches scores M_IN_BUNDLE as written but 0 as intended, and a
   * perfect belief scores M_IN_BUNDLE * M, above the intended maximum M.
   */
  lemma PerformanceAsWrittenOvercounts()
    ensures PerformanceAsWritten([[true, true]], [[true, false]], 2) == 2
    ensures Performance([[true, true]], [[true, false]], 2) == 0
    ensures PerformanceAsWritten([[true, true]], [[true, true]], 2) == 4 > Bits(1, 2)
  {
    assert MatchingPrefix([true, true], [true, false]) == 1 by {
      assert [true, true][1..] == [true] && [true, false][1..] == [false];
    }
    assert [[true, true]][..0] == [];
    assert [[true, false]][..0] == [];
    assert MatchingPrefix([true, true], [true, true]) == 2 by {
      assert [true, true][1..] == [true];
      assert [true][1..] == [];
    }
  }

  /** With one element per bundle the prefix is the whole bundle or nothing: the two scores agree. */
  lemma {:induction false} SingleElementScoresAgree(reality: Bundles, belief: Bundles, mOf: nat)
    requires Shaped(reality, mOf, 1) && Shaped(belief, mOf, 1)
    ensures PerformanceAsWritten(reality, belief, 1) == Performance(reality, belief, 1)
  {
    if mOf > 0 {
      var k := mOf - 1;
      SingleElementScoresAgree(reality[..k], belief[..k], k);
      assert reality[k] == [reality[k][0]] && belief[k] == [belief[k][0]];
      assert reality[k][1..] == [] && belief[k][1..] == [];
    }
  }
}
