/**
 * The part of Unity's Mathf used by the scripts, over `real` instead of
 * `float`. Each helper keeps the branch order of the engine's definition.
 */
module Mathf {

  /** Mathf.Max: the larger of the two arguments. */
  function Max(a: real, b: real): (r: real)
    ensures r >= a && r >= b
    ensures r == a || r == b
  {
    if a > b then a else b
  }

  /** Mathf.Min: the smaller of the two arguments. */
  function Min(a: real, b: real): (r: real)
    ensures r <= a && r <= b
    ensures r == a || r == b
  {
    if a < b then a else b
  }

  function Abs(a: real): (r: real)
    ensures r >= 0.0
    ensures r == a || r == -a
  {
    if a < 0.0 then -a else a
  }

  /** Mathf.Clamp: the value pushed into [lo, hi]; untouched when already inside. */
  function Clamp(v: real, lo: real, hi: real): (r: real)
    ensures lo <= hi ==> lo <= r <= hi
    ensures lo <= v <= hi ==> r == v
    ensures v < lo ==> r == lo
    ensures lo <= hi && v > hi ==> r == hi
  {
    if v < lo then lo else if v > hi then hi else v
  }

  /** Mathf.Clamp01: the value pushed into [0, 1]. */
  function Clamp01(v: real): (r: real)
    ensures 0.0 <= r <= 1.0
    ensures 0.0 <= v <= 1.0 ==> r == v
    ensures v <= 0.0 ==> r == 0.0
    ensures v >= 1.0 ==> r == 1.0
  {
    Clamp(v, 0.0, 1.0)
  }

  /** Mathf.Lerp: interpolation from a to b with the parameter clamped to [0, 1]. */
  function Lerp(a: real, b: real, t: real): (r: real)
    ensures a <= b ==> a <= r <= b
    ensures t >= 1.0 ==> r == b
    ensures t <= 0.0 ==> r == a
  {
    var u := Clamp01(t);
    assert a <= b ==> 0.0 <= (b - a) * u <= b - a by {
      if a <= b {
        MulNonneg(b - a, u);
        MulMono(b - a, u, 1.0);
      }
    }
    a + (b - a) * u
  }

  /** Clamping into an interval symmetric about zero commutes with negation. */
  lemma ClampSymmetric(v: real, h: real)
    requires h >= 0.0
    ensures Clamp(-v, -h, h) == -Clamp(v, -h, h)
  {
  }

  /** Clamp01 never reverses the order of its arguments. */
  lemma Clamp01Monotone(a: real, b: real)
    requires a <= b
    ensures Clamp01(a) <= Clamp01(b)
  {
  }

  /** Lerp from a to a larger b grows with the parameter. */
  lemma LerpMonotone(a: real, b: real, t1: real, t2: real)
    requires a <= b && t1 <= t2
    ensures Lerp(a, b, t1) <= Lerp(a, b, t2)
  {
    var d, u1, u2 := b - a, Clamp01(t1), Clamp01(t2);
    Clamp01Monotone(t1, t2);
    MulMono(d, u1, u2);
    assert Lerp(a, b, t1) == a + d * u1;
    assert Lerp(a, b, t2) == a + d * u2;
  }

  /** Dividing by a positive number keeps the order. */
  lemma DivMonoNumerator(a1: real, a2: real, d: real)
    requires a1 <= a2 && d > 0.0
    ensures a1 / d <= a2 / d
  {
    assert a2 / d - a1 / d == (a2 - a1) / d;
    DivNonneg(a2 - a1, d);
  }

  /**
   * The square of a number. It carries no postcondition on purpose: its sign
   * facts live in SquareSign, so that proofs which only rewrite squares do
   * not have to reason about inequalities between products.
   */
  function Sq(a: real): real
  {
    a * a
  }

  // Order facts about products that the solver's linear reasoning misses.

  lemma MulNonneg(a: real, b: real)
    requires a >= 0.0 && b >= 0.0
    ensures a * b >= 0.0
  {
  }

  lemma MulPos(a: real, b: real)
    requires a > 0.0 && b > 0.0
    ensures a * b > 0.0
  {
  }

  lemma MulMono(x: real, a: real, b: real)
    requires x >= 0.0 && a <= b
    ensures x * a <= x * b
  {
    MulNonneg(x, b - a);
  }

  lemma MulStrictMono(x: real, a: real, b: real)
    requires x > 0.0 && a < b
    ensures x * a < x * b
  {
    MulPos(x, b - a);
  }

  lemma SquareSign(a: real)
    ensures Sq(a) >= 0.0
    ensures a != 0.0 ==> Sq(a) > 0.0
  {
    assert a > 0.0 ==> Sq(a) / a == a;
    assert a < 0.0 ==> Sq(a) / (-a) == -a;
  }

  lemma DiffOfSquares(a: real, b: real)
    ensures Sq(b) - Sq(a) == (b - a) * (b + a)
  {
  }

  lemma SquareMono(a: real, b: real)
    requires 0.0 <= a <= b
    ensures Sq(a) <= Sq(b)
  {
    DiffOfSquares(a, b);
    MulNonneg(b - a, b + a);
  }

  lemma SquareStrictMono(a: real, b: real)
    requires 0.0 <= a < b
    ensures Sq(a) < Sq(b)
  {
    assert (Sq(b) - Sq(a)) / (b + a) == b - a;
  }

  /** Two nonnegative square roots of the same number are equal. */
  lemma SquareRootUnique(a: real, b: real)
    requires a >= 0.0 && b >= 0.0 && Sq(a) == Sq(b)
    ensures a == b
  {
    if a < b {
      SquareStrictMono(a, b);
    } else if b < a {
      SquareStrictMono(b, a);
    }
  }

  lemma SqMul(a: real, b: real)
    ensures Sq(a * b) == Sq(a) * Sq(b)
  {
  }

  lemma SqInv(m: real)
    requires m != 0.0
    ensures Sq(1.0 / m) * Sq(m) == 1.0
  {
    SqMul(1.0 / m, m);
    assert (1.0 / m) * m == 1.0;
  }

  /** Dividing a square by the square of its root gives one. */
  lemma SqInvTimes(q: real, m: real)
    requires m != 0.0 && q == Sq(m)
    ensures Sq(1.0 / m) * q == 1.0
  {
    SqInv(m);
  }

  lemma Distrib3(a: real, b: real, c: real, q: real)
    ensures a * q + b * q + c * q == q * (a + b + c)
  {
  }

  lemma SqAbs(a: real)
    ensures Sq(Abs(a)) == Sq(a)
  {
    assert Sq(-a) == Sq(a);
  }

  lemma DivNonneg(a: real, d: real)
    requires a >= 0.0 && d > 0.0
    ensures a / d >= 0.0
  {
  }

  /** A fraction no larger than its positive denominator is at most one. */
  lemma DivBoundedByOne(a: real, d: real)
    requires d > 0.0 && a <= d
    ensures a / d <= 1.0
  {
  }

  /** A fraction no smaller than its positive denominator is at least one. */
  lemma DivAtLeastOne(a: real, d: real)
    requires d > 0.0 && a >= d
    ensures a / d >= 1.0
  {
    var q := a / d;
    assert q * d == a;
    if q < 1.0 {
      MulStrictMono(d, q, 1.0);
      assert false;
    }
  }

  /** Dividing a nonnegative numerator by a larger denominator gives a smaller value. */
  lemma DivAntitone(a: real, d1: real, d2: real)
    requires a >= 0.0 && 0.0 < d1 <= d2
    ensures a / d2 <= a / d1
  {
    var q1 := a / d1;
    var q2 := a / d2;
    assert q1 * d1 == a;
    assert q2 * d2 == a;
    if q2 > q1 {
      MulPos(q2 - q1, d1);
      assert false;
    }
  }

  /** A nonnegative ratio scaled by a nonnegative factor shrinks as the denominator grows. */
  lemma ScaledRatioAntitone(a: real, d1: real, d2: real, k: real)
    requires a >= 0.0 && 0.0 < d1 <= d2 && k >= 0.0
    ensures 0.0 <= a / d2 * k <= a / d1 * k
  {
    DivAntitone(a, d1, d2);
    DivNonneg(a, d2);
    MulNonneg(a / d2, k);
    MulMono(k, a / d2, a / d1);
    assert k * (a / d2) == a / d2 * k;
    assert k * (a / d1) == a / d1 * k;
  }
}
