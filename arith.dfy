// Small facts about multiplication and remainder that the solver does not
// find on its own.

module Arith {

  lemma MulMono(a: nat, b: nat, c: nat)
    requires b <= c
    ensures a * b <= a * c
  {
    assert a * c == a * b + a * (c - b);
  }

  lemma MulStrict(a: nat, b: nat, c: nat)
    requires a > 0 && b < c
    ensures a * b < a * c
  {
    assert a * c == a * b + a * (c - b);
    MulMono(a, 1, c - b);
  }

  /** One more term of a product. */
  lemma MulSucc(a: nat, t: nat)
    ensures a * (t + 1) == a * t + a
  {
  }

  /** One term fewer of a product. */
  lemma MulPred(a: nat, b: nat)
    requires a > 0
    ensures a * b == (a - 1) * b + b
  {
  }

  /** A non-zero multiple of b is at least b away from zero. */
  lemma MultipleBound(d: int, b: int)
    requires b > 0
    ensures d != 0 ==> d * b >= b || d * b <= -b
  {
    if d > 0 {
      MulMono(b, 1, d);
    } else if d < 0 {
      MulMono(b, 1, -d);
      assert b * -d == -(d * b);
    }
  }

  /** Dividing by a positive number never increases a natural number. */
  lemma DivAtMost(a: nat, b: nat)
    requires b >= 1
    ensures a / b <= a
  {
    MulMono(a / b, 1, b);
  }

  lemma ModUnique(y: int, b: int, q: int, r: int)
    requires b > 0 && 0 <= r < b && y == q * b + r
    ensures y % b == r && y / b == q
  {
    var d := y / b - q;
    var s := y % b;
    assert y == (y / b) * b + s && 0 <= s < b;
    assert d * b == r - s by {
      assert (y / b) * b == (d + q) * b == d * b + q * b;
    }
    MultipleBound(d, b);
  }

  lemma MultipleMod(a: nat, b: nat)
    requires b > 0
    ensures (a * b) % b == 0
  {
    ModUnique(a * b, b, a, 0);
  }

  lemma RatioInUnitInterval(a: int, b: int)
    requires 1 <= a <= b
    ensures 0.0 < a as real / b as real <= 1.0
  {
  }

  /** A ratio of naturals with a <= b lies in [0, 1] and is 1 only when a == b. */
  lemma RatioAtMostOne(a: int, b: int)
    requires 0 <= a <= b && b > 0
    ensures 0.0 <= a as real / b as real <= 1.0
    ensures a as real / b as real == 1.0 <==> a == b
  {
    var q := a as real / b as real;
    assert q * b as real == a as real;
  }
}
