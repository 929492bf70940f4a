/**
 * Vector3 over `real`. Only the operations whose results are exact are
 * defined here; a magnitude (a square root) is never computed but passed in
 * by the host and related to the vector through `IsMagnitude`.
 */
module Vectors {

  import opened Mathf

  datatype Vec3 = Vec3(x: real, y: real, z: real)

  const Zero: Vec3 := Vec3(0.0, 0.0, 0.0)

  function Add(a: Vec3, b: Vec3): Vec3
  {
    Vec3(a.x + b.x, a.y + b.y, a.z + b.z)
  }

  function Sub(a: Vec3, b: Vec3): Vec3
  {
    Vec3(a.x - b.x, a.y - b.y, a.z - b.z)
  }

  function Neg(a: Vec3): Vec3
  {
    Vec3(-a.x, -a.y, -a.z)
  }

  function Scale(v: Vec3, k: real): Vec3
  {
    Vec3(v.x * k, v.y * k, v.z * k)
  }

  /** Vector3.sqrMagnitude. */
  function SqrMag(v: Vec3): real
  {
    Sq(v.x) + Sq(v.y) + Sq(v.z)
  }

  lemma SqrMagNonneg(v: Vec3)
    ensures SqrMag(v) >= 0.0
  {
    SquareSign(v.x);
    SquareSign(v.y);
    SquareSign(v.z);
  }

  lemma ZeroMagnitude()
    ensures SqrMag(Zero) == Sq(0.0)
    ensures IsMagnitude(Zero, Abs(0.0))
  {
  }

  /** `m` is the Euclidean length of `v`: what Vector3.magnitude would return, without rounding. */
  predicate IsMagnitude(v: Vec3, m: real)
  {
    m >= 0.0 && Sq(m) == SqrMag(v)
  }

  /** Vector3.normalized, given the vector's magnitude; the zero vector has no direction. */
  function Normalized(v: Vec3, m: real): Vec3
  {
    if m > 0.0 then Scale(v, 1.0 / m) else Zero
  }

  lemma ScaleSqrMag(v: Vec3, k: real)
    ensures SqrMag(Scale(v, k)) == Sq(k) * SqrMag(v)
  {
    SqMul(v.x, k);
    SqMul(v.y, k);
    SqMul(v.z, k);
    Distrib3(Sq(v.x), Sq(v.y), Sq(v.z), Sq(k));
  }

  /** Scaling by k a vector whose squared length q satisfies k^2 * q = 1 gives a unit vector. */
  lemma ScaleToUnit(v: Vec3, k: real, q: real)
    requires SqrMag(v) == q && Sq(k) * q == 1.0
    ensures SqrMag(Scale(v, k)) == 1.0
  {
    ScaleSqrMag(v, k);
  }

  /** Dividing a vector by its nonzero magnitude gives a unit vector. */
  lemma NormalizedIsUnit(v: Vec3, m: real)
    requires IsMagnitude(v, m) && m > 0.0
    ensures SqrMag(Normalized(v, m)) == 1.0
  {
    SqInvTimes(SqrMag(v), m);
    ScaleToUnit(v, 1.0 / m, SqrMag(v));
  }

  /** Scaling a unit vector by k gives a vector of length |k|. */
  lemma ScaleUnit(u: Vec3, k: real)
    requires SqrMag(u) == 1.0
    ensures SqrMag(Scale(u, k)) == Sq(k)
  {
    ScaleSqrMag(u, k);
    var q := SqrMag(u);
    assert Sq(k) * q == Sq(k);
  }

  /** |k| is the magnitude of a vector whose squared length is k^2. */
  lemma AbsIsMagnitude(v: Vec3, k: real)
    requires SqrMag(v) == Sq(k)
    ensures IsMagnitude(v, Abs(k))
  {
    SqAbs(k);
  }

  /** The direction of v scaled by a has length |a|. */
  lemma ScaledDirectionLength(v: Vec3, m: real, a: real)
    requires IsMagnitude(v, m) && m > 0.0
    ensures SqrMag(Scale(Normalized(v, m), a)) == Sq(a)
    ensures IsMagnitude(Scale(Normalized(v, m), a), Abs(a))
  {
    NormalizedIsUnit(v, m);
    ScaleUnit(Normalized(v, m), a);
    AbsIsMagnitude(Scale(Normalized(v, m), a), a);
  }

  /** Opposite vectors scaled alike cancel. */
  lemma OppositeDirectionsCancel(v: Vec3, m: real, a: real)
    ensures Add(Scale(Normalized(v, m), a), Scale(Normalized(Neg(v), m), a)) == Zero
  {
    if m > 0.0 {
      ScaleNeg(v, 1.0 / m);
      ScaleNeg(Scale(v, 1.0 / m), a);
      AddNeg(Scale(Scale(v, 1.0 / m), a));
    }
  }

  /** A nonnegative multiple of the direction of v is a nonnegative multiple of v. */
  lemma NonnegMultiple(v: Vec3, m: real, a: real)
    requires m > 0.0 && a >= 0.0
    ensures exists k: real :: k >= 0.0 && Scale(Normalized(v, m), a) == Scale(v, k)
  {
    MulNonneg(1.0 / m, a);
    ScaleScale(v, 1.0 / m, a);
  }

  lemma ScaleNeg(v: Vec3, k: real)
    ensures Scale(Neg(v), k) == Neg(Scale(v, k))
  {
  }

  lemma ScaleScale(v: Vec3, a: real, b: real)
    ensures Scale(Scale(v, a), b) == Scale(v, a * b)
  {
  }

  lemma AddNeg(v: Vec3)
    ensures Add(v, Neg(v)) == Zero
  {
  }

  /** A vector has one magnitude: two nonnegative square roots of the same square agree. */
  lemma MagnitudeUnique(v: Vec3, a: real, b: real)
    requires IsMagnitude(v, a) && IsMagnitude(v, b)
    ensures a == b
  {
    SquareRootUnique(a, b);
  }

  lemma NegSqrMag(v: Vec3)
    ensures SqrMag(Neg(v)) == SqrMag(v)
  {
  }
}
