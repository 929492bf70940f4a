/**
 * SpaceGravitySource: a point mass that pulls bodies within its radius of
 * influence, and the global registry of enabled sources.
 *
 * A source is identified by a `SourceId` (the engine's object identity); the
 * registry holds identities, and the scene maps the identities of live
 * objects to their parameters. An identity missing from the scene stands for
 * a destroyed object.
 */
module GravitySource {

  import opened Mathf
  import opened Vectors

  type SourceId = nat

  /** The inspector settings that shape the pull; everything about a source but where it is. */
  datatype Field = Field(
    gravitationalConstant: real,
    sourceMass: real,
    radiusOfInfluence: real,
    minDistance: real,
    softening: real,
    /** Cap on the magnitude; a value <= 0 means no cap. */
    maxAcceleration: real,
    /** AnimationCurve.Evaluate of the falloff curve, left uninterpreted. */
    falloff: real -> real)

  datatype Source = Source(
    position: Vec3,
    field: Field,
    isBlackHole: bool,
    eventHorizonRadius: real)

  /** Lower bound on the radius used to normalise the distance for the falloff curve. */
  const MinInfluenceRadius: real := 0.001

  // ---------------------------------------------------------------------------
  // Registry (SpaceGravitySource.Instances)
  // ---------------------------------------------------------------------------

  predicate NoDuplicates(reg: seq<SourceId>)
  {
    forall i, j :: 0 <= i < j < |reg| ==> reg[i] != reg[j]
  }

  /** OnEnable: append the source unless the list already holds it. */
  function Register(reg: seq<SourceId>, id: SourceId): (r: seq<SourceId>)
    ensures id in r
    ensures forall x :: x in r <==> x in reg || x == id
    ensures id in reg ==> r == reg
    ensures id !in reg ==> r == reg + [id]
    ensures NoDuplicates(reg) ==> NoDuplicates(r)
  {
    if id in reg then reg else reg + [id]
  }

  /** OnDisable: List.Remove, which drops the first occurrence if there is one. */
  function Unregister(reg: seq<SourceId>, id: SourceId): (r: seq<SourceId>)
    ensures id !in reg ==> r == reg
  {
    if |reg| == 0 then reg
    else if reg[0] == id then reg[1..]
    else [reg[0]] + Unregister(reg[1..], id)
  }

  /** List.Remove takes out exactly one copy of the source, if there is one, and keeps everything else. */
  lemma {:induction false} UnregisterMultiset(reg: seq<SourceId>, id: SourceId)
    ensures multiset(Unregister(reg, id)) == multiset(reg) - multiset{id}
  {
    if |reg| > 0 {
      assert reg == [reg[0]] + reg[1..];
      if reg[0] != id {
        UnregisterMultiset(reg[1..], id);
      }
    }
  }

  lemma NoDuplicatesCons(a: SourceId, s: seq<SourceId>)
    requires a !in s && NoDuplicates(s)
    ensures NoDuplicates([a] + s)
  {
    var t := [a] + s;
    forall i, j | 0 <= i < j < |t|
      ensures t[i] != t[j]
    {
      if i == 0 {
        assert t[j] == s[j - 1];
      } else {
        assert t[i] == s[i - 1] && t[j] == s[j - 1];
      }
    }
  }

  /** Disabling keeps the registry free of duplicates and leaves no trace of the source. */
  lemma {:induction false} UnregisterRemoves(reg: seq<SourceId>, id: SourceId)
    requires NoDuplicates(reg)
    ensures NoDuplicates(Unregister(reg, id))
    ensures id !in Unregister(reg, id)
  {
    if |reg| == 0 {
    } else if reg[0] == id {
      assert reg == [reg[0]] + reg[1..];
    } else {
      var tail := reg[1..];
      assert NoDuplicates(tail) by {
        forall i, j | 0 <= i < j < |tail|
          ensures tail[i] != tail[j]
        {
          assert tail[i] == reg[i + 1] && tail[j] == reg[j + 1];
        }
      }
      assert reg[0] !in tail by {
        forall k | 0 <= k < |tail|
          ensures tail[k] != reg[0]
        {
          assert tail[k] == reg[k + 1];
        }
      }
      var rest := Unregister(tail, id);
      UnregisterRemoves(tail, id);
      UnregisterMultiset(tail, id);
      assert reg[0] !in multiset(rest);
      NoDuplicatesCons(reg[0], rest);
    }
  }

  /** Enabling a source that was not registered and then disabling it leaves the registry as it was. */
  lemma {:induction false} EnableDisableRoundTrip(reg: seq<SourceId>, id: SourceId)
    requires id !in reg
    ensures Unregister(Register(reg, id), id) == reg
  {
    if |reg| == 0 {
    } else {
      var tail := reg[1..];
      var grown := reg + [id];
      assert grown[0] == reg[0] && grown[1..] == tail + [id];
      EnableDisableRoundTrip(tail, id);
      assert Unregister(grown, id) == [reg[0]] + Unregister(tail + [id], id);
      assert reg == [reg[0]] + tail;
    }
  }

  // ---------------------------------------------------------------------------
  // GetAccelerationAtPoint
  // ---------------------------------------------------------------------------

  /**
   * Square of the effective distance: the distance raised to minDistance,
   * then Plummer-softened when softening is positive. Working with the square
   * avoids the square root the engine takes and squares again.
   */
  function EffectiveDistanceSq(f: Field, r: real): real
  {
    var rEff := Max(f.minDistance, r);
    if f.softening > 0.0 then Sq(rEff) + Sq(f.softening) else Sq(rEff)
  }

  /** The effective distance is never below the true one, nor below minDistance or the softening length. */
  lemma EffectiveDistanceBounds(f: Field, r: real)
    requires r > 0.0
    ensures EffectiveDistanceSq(f, r) >= Sq(r) > 0.0
    ensures f.minDistance >= 0.0 ==> EffectiveDistanceSq(f, r) >= Sq(f.minDistance)
    ensures f.softening > 0.0 ==> EffectiveDistanceSq(f, r) > Sq(f.softening)
  {
    EffectiveDistancePositive(f, r);
    if f.minDistance >= 0.0 {
      SquareMono(f.minDistance, Max(f.minDistance, r));
    }
    if f.softening > 0.0 {
      EffectiveDistanceAboveSoftening(f, r);
    }
  }

  lemma EffectiveDistancePositive(f: Field, r: real)
    requires r > 0.0
    ensures EffectiveDistanceSq(f, r) >= Sq(r) > 0.0
  {
    SquareSign(r);
    SquareMono(r, Max(f.minDistance, r));
    SquareSign(f.softening);
  }

  lemma EffectiveDistanceAboveSoftening(f: Field, r: real)
    requires r > 0.0 && f.softening > 0.0
    ensures EffectiveDistanceSq(f, r) > Sq(f.softening) > 0.0
  {
    var rEff := Max(f.minDistance, r);
    assert EffectiveDistanceSq(f, r) == Sq(rEff) + Sq(f.softening);
    SquareSign(rEff);
    SquareSign(f.softening);
  }

  /** The distance normalised by the radius of influence, as fed to the falloff curve. */
  function NormalizedDistance(f: Field, r: real): (t: real)
    ensures 0.0 <= t <= 1.0
    ensures 0.0 < r <= f.radiusOfInfluence ==> t == r / Max(MinInfluenceRadius, f.radiusOfInfluence)
  {
    var denom := Max(MinInfluenceRadius, f.radiusOfInfluence);
    assert 0.0 < r <= f.radiusOfInfluence ==> 0.0 <= r / denom <= 1.0 by {
      if 0.0 < r <= f.radiusOfInfluence {
        DivBoundedByOne(r, denom);
        DivNonneg(r, denom);
      }
    }
    Clamp01(r / denom)
  }

  /** The falloff multiplier, clamped so that it never reverses the pull. */
  function FalloffFactor(f: Field, r: real): (k: real)
    ensures k >= 0.0
    ensures k >= f.falloff(NormalizedDistance(f, r))
    ensures k == f.falloff(NormalizedDistance(f, r)) || k == 0.0
  {
    Max(0.0, f.falloff(NormalizedDistance(f, r)))
  }

  /** G*M / rEff^2 times the clamped falloff: the pull before the cap. */
  function UncappedMagnitude(f: Field, r: real): real
    requires r > 0.0
  {
    EffectiveDistancePositive(f, r);
    f.gravitationalConstant * f.sourceMass / EffectiveDistanceSq(f, r) * FalloffFactor(f, r)
  }

  /** A positive maxAcceleration bounds the magnitude; zero or less means no cap. */
  function Capped(f: Field, a: real): (c: real)
    ensures f.maxAcceleration > 0.0 ==> c <= f.maxAcceleration && c <= a
    ensures f.maxAcceleration > 0.0 && a <= f.maxAcceleration ==> c == a
    ensures f.maxAcceleration > 0.0 && a > f.maxAcceleration ==> c == f.maxAcceleration
    ensures f.maxAcceleration <= 0.0 ==> c == a
  {
    if f.maxAcceleration > 0.0 then Min(a, f.maxAcceleration) else a
  }

  /**
   * Signed magnitude of the pull at distance `r` from the centre; the engine
   * multiplies the unit vector toward the centre by it.
   */
  function AccelerationMagnitude(f: Field, r: real): real
  {
    if r <= 0.0 || r > f.radiusOfInfluence then 0.0 else Capped(f, UncappedMagnitude(f, r))
  }

  lemma MagnitudeOutside(f: Field, r: real)
    requires r <= 0.0 || r > f.radiusOfInfluence
    ensures AccelerationMagnitude(f, r) == 0.0
  {
  }

  /** An attracting mass (G*M >= 0) gives a nonnegative uncapped pull. */
  lemma UncappedNonneg(f: Field, r: real)
    requires r > 0.0 && f.gravitationalConstant * f.sourceMass >= 0.0
    ensures UncappedMagnitude(f, r) >= 0.0
  {
    var gm := f.gravitationalConstant * f.sourceMass;
    var d := EffectiveDistanceSq(f, r);
    EffectiveDistancePositive(f, r);
    DivNonneg(gm, d);
    MulNonneg(gm / d, FalloffFactor(f, r));
  }

  /**
   * No pull at the centre or beyond the radius (so none at all when the
   * radius is not positive); a positive cap bounds the pull; an attracting
   * mass never pushes.
   */
  lemma MagnitudeBounds(f: Field, r: real)
    ensures r <= 0.0 || r > f.radiusOfInfluence ==> AccelerationMagnitude(f, r) == 0.0
    ensures f.radiusOfInfluence <= 0.0 ==> AccelerationMagnitude(f, r) == 0.0
    ensures f.maxAcceleration > 0.0 ==> AccelerationMagnitude(f, r) <= f.maxAcceleration
    ensures f.gravitationalConstant * f.sourceMass >= 0.0 ==> AccelerationMagnitude(f, r) >= 0.0
  {
    if 0.0 < r <= f.radiusOfInfluence && f.gravitationalConstant * f.sourceMass >= 0.0 {
      UncappedNonneg(f, r);
    }
  }

  /** GetAccelerationAtPoint, given `r`, the host's value for the distance from `point` to the centre. */
  function Acceleration(s: Source, point: Vec3, r: real): Vec3
  {
    if r <= 0.0 || r > s.field.radiusOfInfluence then Zero
    else Scale(Normalized(Sub(s.position, point), r), AccelerationMagnitude(s.field, r))
  }

  /** IsInsideEventHorizon, given the distance from the point to the centre. */
  function IsInsideEventHorizon(s: Source, r: real): (inside: bool)
    ensures !s.isBlackHole ==> !inside
    ensures s.isBlackHole && r <= 0.0 ==> inside
    ensures s.isBlackHole ==> (inside <==> r <= Max(0.0, s.eventHorizonRadius))
  {
    if !s.isBlackHole then false
    else r <= Max(0.0, s.eventHorizonRadius)
  }

  /** A point inside the horizon stays inside when it moves closer to the centre. */
  lemma HorizonMonotone(s: Source, r1: real, r2: real)
    requires r1 <= r2 && IsInsideEventHorizon(s, r2)
    ensures IsInsideEventHorizon(s, r1)
  {
  }

  /** A black hole whose eventHorizonRadius is zero or less swallows only its exact centre. */
  lemma DegenerateHorizon(s: Source, r: real)
    requires s.isBlackHole && s.eventHorizonRadius <= 0.0
    ensures IsInsideEventHorizon(s, r) <==> r <= 0.0
  {
  }

  /** Within its horizon, a black hole with a positive eventHorizonRadius no larger than its reach still pulls. */
  lemma HorizonInsideReach(s: Source, r: real)
    requires s.isBlackHole && 0.0 < s.eventHorizonRadius <= s.field.radiusOfInfluence
    requires 0.0 < r && IsInsideEventHorizon(s, r)
    ensures 0.0 < r <= s.field.radiusOfInfluence
    ensures AccelerationMagnitude(s.field, r) == Capped(s.field, UncappedMagnitude(s.field, r))
  {
  }

  // ---------------------------------------------------------------------------
  // Properties of the field
  // ---------------------------------------------------------------------------

  /** Inside the radius the result is the direction to the centre scaled by the signed magnitude. */
  lemma AccelerationInside(s: Source, point: Vec3, r: real)
    requires 0.0 < r <= s.field.radiusOfInfluence
    ensures Acceleration(s, point, r) == Scale(Normalized(Sub(s.position, point), r), AccelerationMagnitude(s.field, r))
  {
  }

  /** At the centre and beyond the radius the result is the zero vector. */
  lemma AccelerationOutside(s: Source, point: Vec3, r: real)
    requires r <= 0.0 || r > s.field.radiusOfInfluence
    ensures Acceleration(s, point, r) == Zero
  {
  }

  /** The length of the returned vector is |aMag| when `r` is the true distance. */
  lemma AccelerationLength(s: Source, point: Vec3, r: real)
    requires IsMagnitude(Sub(s.position, point), r)
    ensures SqrMag(Acceleration(s, point, r)) == Sq(AccelerationMagnitude(s.field, r))
    ensures IsMagnitude(Acceleration(s, point, r), Abs(AccelerationMagnitude(s.field, r)))
  {
    if r <= 0.0 || r > s.field.radiusOfInfluence {
      AccelerationLengthOutside(s, point, r);
    } else {
      AccelerationLengthInside(s, point, r);
    }
  }

  lemma AccelerationLengthOutside(s: Source, point: Vec3, r: real)
    requires r <= 0.0 || r > s.field.radiusOfInfluence
    ensures SqrMag(Acceleration(s, point, r)) == Sq(AccelerationMagnitude(s.field, r))
    ensures IsMagnitude(Acceleration(s, point, r), Abs(AccelerationMagnitude(s.field, r)))
  {
    AccelerationOutside(s, point, r);
    MagnitudeOutside(s.field, r);
    ZeroMagnitude();
  }

  lemma AccelerationLengthInside(s: Source, point: Vec3, r: real)
    requires IsMagnitude(Sub(s.position, point), r)
    requires 0.0 < r <= s.field.radiusOfInfluence
    ensures SqrMag(Acceleration(s, point, r)) == Sq(AccelerationMagnitude(s.field, r))
    ensures IsMagnitude(Acceleration(s, point, r), Abs(AccelerationMagnitude(s.field, r)))
  {
    AccelerationInside(s, point, r);
    ScaledDirectionLength(Sub(s.position, point), r, AccelerationMagnitude(s.field, r));
  }

  /** With G*M >= 0 the pull is a nonnegative multiple of (centre - point): it points at the source. */
  lemma AttractsTowardCenter(s: Source, point: Vec3, r: real)
    requires s.field.gravitationalConstant * s.field.sourceMass >= 0.0
    ensures exists k: real :: k >= 0.0 && Acceleration(s, point, r) == Scale(Sub(s.position, point), k)
  {
    var toCenter := Sub(s.position, point);
    if r <= 0.0 || r > s.field.radiusOfInfluence {
      AccelerationOutside(s, point, r);
      assert Zero == Scale(toCenter, 0.0);
    } else {
      var a := AccelerationMagnitude(s.field, r);
      MagnitudeBounds(s.field, r);
      AccelerationInside(s, point, r);
      NonnegMultiple(toCenter, r, a);
    }
  }

  /**
   * Without softening and cap, at or beyond minDistance and inside the
   * radius, the magnitude is Newton's G*M/r^2 times the clamped falloff at
   * t = r / max(1e-3, radiusOfInfluence).
   */
  lemma NewtonianRegime(f: Field, r: real)
    requires f.softening <= 0.0 && f.maxAcceleration <= 0.0
    requires f.minDistance <= r && 0.0 < r <= f.radiusOfInfluence
    ensures Sq(r) > 0.0
      && AccelerationMagnitude(f, r)
         == f.gravitationalConstant * f.sourceMass / Sq(r)
            * Max(0.0, f.falloff(r / Max(MinInfluenceRadius, f.radiusOfInfluence)))
  {
    SquareSign(r);
    assert Max(f.minDistance, r) == r;
  }

  /** Closer than minDistance (no softening, no cap) the pull uses minDistance^2 in place of r^2. */
  lemma PlateauInsideMinDistance(f: Field, r: real)
    requires f.softening <= 0.0 && f.maxAcceleration <= 0.0
    requires 0.0 < r <= f.minDistance && r <= f.radiusOfInfluence
    ensures Sq(f.minDistance) > 0.0
      && AccelerationMagnitude(f, r)
         == f.gravitationalConstant * f.sourceMass / Sq(f.minDistance) * FalloffFactor(f, r)
  {
    SquareSign(f.minDistance);
    assert Max(f.minDistance, r) == f.minDistance;
  }

  /** Inside the radius the magnitude is the uncapped pull, or less when the cap applies. */
  lemma MagnitudeInside(f: Field, r: real)
    requires 0.0 < r <= f.radiusOfInfluence
    ensures AccelerationMagnitude(f, r) <= UncappedMagnitude(f, r)
    ensures f.maxAcceleration <= 0.0 ==> AccelerationMagnitude(f, r) == UncappedMagnitude(f, r)
  {
  }

  /** Softening bounds the pull of a source with G*M >= 0 at every distance, even without a cap. */
  lemma SofteningBoundsPull(f: Field, r: real)
    requires f.softening > 0.0 && f.gravitationalConstant * f.sourceMass >= 0.0
    ensures Sq(f.softening) > 0.0
      && AccelerationMagnitude(f, r)
         <= f.gravitationalConstant * f.sourceMass / Sq(f.softening) * FalloffFactor(f, r)
  {
    SquareSign(f.softening);
    var gm := f.gravitationalConstant * f.sourceMass;
    var e := Sq(f.softening);
    if 0.0 < r <= f.radiusOfInfluence {
      MagnitudeInside(f, r);
      UncappedBelowSoftening(f, r);
    } else {
      MagnitudeOutside(f, r);
      ScaledRatioAntitone(gm, e, e, FalloffFactor(f, r));
    }
  }

  lemma UncappedBelowSoftening(f: Field, r: real)
    requires r > 0.0 && f.softening > 0.0 && f.gravitationalConstant * f.sourceMass >= 0.0
    ensures Sq(f.softening) > 0.0
      && UncappedMagnitude(f, r)
         <= f.gravitationalConstant * f.sourceMass / Sq(f.softening) * FalloffFactor(f, r)
  {
    EffectiveDistanceAboveSoftening(f, r);
    ScaledRatioAntitone(f.gravitationalConstant * f.sourceMass, Sq(f.softening), EffectiveDistanceSq(f, r), FalloffFactor(f, r));
  }

  /** Two sources with the same settings, placed symmetrically about a point, cancel there. */
  lemma SymmetricPairCancels(f: Field, point: Vec3, offset: Vec3, r: real, hole: bool, horizon: real)
    ensures Add(Acceleration(Source(Add(point, offset), f, hole, horizon), point, r),
                Acceleration(Source(Sub(point, offset), f, hole, horizon), point, r)) == Zero
  {
    if 0.0 < r <= f.radiusOfInfluence {
      SymmetricPairCancelsInside(f, point, offset, r, hole, horizon);
    } else {
      SymmetricPairCancelsOutside(f, point, offset, r, hole, horizon);
    }
  }

  lemma SymmetricPairCancelsOutside(f: Field, point: Vec3, offset: Vec3, r: real, hole: bool, horizon: real)
    requires r <= 0.0 || r > f.radiusOfInfluence
    ensures Add(Acceleration(Source(Add(point, offset), f, hole, horizon), point, r),
                Acceleration(Source(Sub(point, offset), f, hole, horizon), point, r)) == Zero
  {
    AccelerationOutside(Source(Add(point, offset), f, hole, horizon), point, r);
    AccelerationOutside(Source(Sub(point, offset), f, hole, horizon), point, r);
    assert Add(Zero, Zero) == Zero;
  }

  lemma SymmetricPairCancelsInside(f: Field, point: Vec3, offset: Vec3, r: real, hole: bool, horizon: real)
    requires 0.0 < r <= f.radiusOfInfluence
    ensures Add(Acceleration(Source(Add(point, offset), f, hole, horizon), point, r),
                Acceleration(Source(Sub(point, offset), f, hole, horizon), point, r)) == Zero
  {
    var near := Source(Add(point, offset), f, hole, horizon);
    var far := Source(Sub(point, offset), f, hole, horizon);
    var a := AccelerationMagnitude(f, r);
    assert Sub(near.position, point) == offset;
    assert Sub(far.position, point) == Neg(offset);
    AccelerationInside(near, point, r);
    AccelerationInside(far, point, r);
    OppositeDirectionsCancel(offset, r, a);
  }

  /** A flat-falloff source with M = 1e6, G = 0.01, no softening and no cap pulls with 0.01 at r = 1000. */
  lemma ScenarioFarField(f: Field)
    requires f.gravitationalConstant == 0.01 && f.sourceMass == 1000000.0
    requires f.radiusOfInfluence == 5000.0 && f.minDistance == 25.0
    requires f.softening == 0.0 && f.maxAcceleration == 0.0
    requires forall t :: f.falloff(t) == 1.0
    ensures AccelerationMagnitude(f, 1000.0) == 0.01
  {
    NewtonianRegime(f, 1000.0);
  }

  /** The same source at r = 10 < minDistance gives 0.01 * 1e6 / 25^2 = 16, and 5 under a cap of 5. */
  lemma ScenarioNearField(f: Field)
    requires f.gravitationalConstant == 0.01 && f.sourceMass == 1000000.0
    requires f.radiusOfInfluence == 5000.0 && f.minDistance == 25.0
    requires f.softening == 0.0 && f.maxAcceleration == 0.0
    requires forall t :: f.falloff(t) == 1.0
    ensures AccelerationMagnitude(f, 10.0) == 16.0
    ensures AccelerationMagnitude(f.(maxAcceleration := 5.0), 10.0) == 5.0
  {
    PlateauInsideMinDistance(f, 10.0);
  }
}
