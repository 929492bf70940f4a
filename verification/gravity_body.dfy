/**
 * SpaceGravityBody: the component on a ship that sums the pull of the
 * registered sources every physics tick, remembers the strongest one (the
 * dominant source), and latches into a lost state on entering that source's
 * event horizon or touching it.
 *
 * The engine's Vector3.magnitude is the parameter `norm`; every distance and
 * every length below is read through it, as the script reads them.
 */
module GravityBody {

  import opened Wrappers
  import opened Mathf
  import opened Vectors
  import opened GravitySource

  /** The live sources by identity; a registered identity missing here is a destroyed object. */
  type Scene = map<SourceId, Source>

  datatype Settings = Settings(
    gravityScale: real,
    /** Keep only this many nearest candidates per tick; zero or less keeps them all. */
    maxSourcesPerStep: int,
    respectGravityShield: bool,
    shieldMultiplier: real,
    loseOnCollisionWithDominantSource: bool,
    loseOnEnterEventHorizon: bool,
    /** A SpaceshipController sits on the same object. */
    hasShip: bool,
    /** The onLose event is assigned; otherwise losing destroys the object. */
    hasOnLose: bool)

  datatype Body = Body(
    isDead: bool,
    dominant: Option<SourceId>,
    /** SpaceshipController.enabled of the ship on this object. */
    shipEnabled: bool,
    /** How many times onLose has been invoked. */
    loseEvents: nat,
    destroyed: bool)

  /** The state after Awake: alive, no dominant source yet. */
  function Spawned(shipEnabled: bool): (b: Body)
    ensures !b.isDead && b.dominant == None && b.loseEvents == 0 && !b.destroyed
  {
    Body(false, None, shipEnabled, 0, false)
  }

  // ---------------------------------------------------------------------------
  // Broad phase: which registered sources may pull
  // ---------------------------------------------------------------------------

  /** The broad-phase test: squared distance within the squared radius of influence. */
  predicate WithinReach(s: Source, pos: Vec3)
  {
    SqrMag(Sub(pos, s.position)) <= Sq(s.field.radiusOfInfluence)
  }

  /** The registered sources, in registry order, that are alive and pass the broad-phase test. */
  function Candidates(reg: seq<SourceId>, scene: Scene, pos: Vec3): (c: seq<SourceId>)
    ensures forall id :: id in c <==> id in reg && Eligible(scene, pos, id)
    ensures |c| <= |reg|
    ensures multiset(c) <= multiset(reg)
  {
    if |reg| == 0 then []
    else
      var rest := Candidates(reg[..|reg| - 1], scene, pos);
      var id := reg[|reg| - 1];
      assert reg == reg[..|reg| - 1] + [id];
      if Eligible(scene, pos, id) then rest + [id] else rest
  }

  /** Alive and within reach: the broad phase keeps this registry entry. */
  predicate Eligible(scene: Scene, pos: Vec3, id: SourceId)
  {
    id in scene && WithinReach(scene[id], pos)
  }

  /** The registry positions the broad phase keeps, in rising order. */
  function CandidatePositions(reg: seq<SourceId>, scene: Scene, pos: Vec3): (ps: seq<nat>)
    ensures forall k :: 0 <= k < |ps| ==> ps[k] < |reg|
    ensures forall k, l :: 0 <= k < l < |ps| ==> ps[k] < ps[l]
  {
    if |reg| == 0 then []
    else
      var rest := CandidatePositions(reg[..|reg| - 1], scene, pos);
      if Eligible(scene, pos, reg[|reg| - 1]) then rest + [|reg| - 1] else rest
  }

  /** A position is kept exactly when its registry entry is eligible. */
  lemma {:induction false} CandidatePositionsExact(reg: seq<SourceId>, scene: Scene, pos: Vec3)
    ensures forall i :: 0 <= i < |reg| ==> (i in CandidatePositions(reg, scene, pos) <==> Eligible(scene, pos, reg[i]))
  {
    if |reg| > 0 {
      var n := |reg| - 1;
      var init := reg[..n];
      CandidatePositionsExact(init, scene, pos);
      var rest := CandidatePositions(init, scene, pos);
      assert n !in rest;
      forall i | 0 <= i < n
        ensures i in CandidatePositions(reg, scene, pos) <==> Eligible(scene, pos, reg[i])
      {
        assert init[i] == reg[i];
      }
    }
  }

  /** There are as many kept positions as candidates. */
  lemma {:induction false} CandidatePositionsCount(reg: seq<SourceId>, scene: Scene, pos: Vec3)
    ensures |CandidatePositions(reg, scene, pos)| == |Candidates(reg, scene, pos)|
  {
    if |reg| > 0 {
      CandidatePositionsCount(reg[..|reg| - 1], scene, pos);
    }
  }

  /**
   * Where each candidate sits in the registry: the k-th candidate is the
   * registry entry at the k-th kept position. With the rising positions and
   * CandidatePositionsExact, Candidates is the registry with the ineligible
   * entries struck out, order kept.
   */
  lemma {:induction false} CandidatesAtPositions(reg: seq<SourceId>, scene: Scene, pos: Vec3)
    ensures var ps := CandidatePositions(reg, scene, pos);
      |ps| == |Candidates(reg, scene, pos)|
      && forall k :: 0 <= k < |ps| ==> Candidates(reg, scene, pos)[k] == reg[ps[k]]
  {
    CandidatePositionsCount(reg, scene, pos);
    if |reg| > 0 {
      var n := |reg| - 1;
      var init := reg[..n];
      CandidatesAtPositions(init, scene, pos);
      var ps := CandidatePositions(reg, scene, pos);
      var rest := CandidatePositions(init, scene, pos);
      var c := Candidates(reg, scene, pos);
      var crest := Candidates(init, scene, pos);
      forall k | 0 <= k < |ps|
        ensures c[k] == reg[ps[k]]
      {
        if k < |rest| {
          assert c[k] == crest[k] && ps[k] == rest[k];
          assert init[rest[k]] == reg[rest[k]];
        }
      }
    }
  }

  /** Two candidates keep the relative order of their registry entries. */
  lemma CandidatesInRegistryOrder(reg: seq<SourceId>, scene: Scene, pos: Vec3, i: int, j: int)
    requires 0 <= i < j < |Candidates(reg, scene, pos)|
    ensures exists p, q :: 0 <= p < q < |reg| && reg[p] == Candidates(reg, scene, pos)[i]
                                              && reg[q] == Candidates(reg, scene, pos)[j]
  {
    var ps := CandidatePositions(reg, scene, pos);
    CandidatesAtPositions(reg, scene, pos);
    assert reg[ps[i]] == Candidates(reg, scene, pos)[i];
    assert reg[ps[j]] == Candidates(reg, scene, pos)[j];
  }

  /** Filtering keeps a duplicate-free registry duplicate-free. */
  lemma {:induction false} CandidatesNoDuplicates(reg: seq<SourceId>, scene: Scene, pos: Vec3)
    requires NoDuplicates(reg)
    ensures NoDuplicates(Candidates(reg, scene, pos))
  {
    if |reg| > 0 {
      var init := reg[..|reg| - 1];
      var id := reg[|reg| - 1];
      assert NoDuplicates(init) by {
        forall i, j | 0 <= i < j < |init|
          ensures init[i] != init[j]
        {
          assert init[i] == reg[i] && init[j] == reg[j];
        }
      }
      CandidatesNoDuplicates(init, scene, pos);
      var rest := Candidates(init, scene, pos);
      if id in scene && WithinReach(scene[id], pos) {
        assert id !in init by {
          forall k | 0 <= k < |init|
            ensures init[k] != id
          {
            assert init[k] == reg[k];
          }
        }
        var c := rest + [id];
        forall i, j | 0 <= i < j < |c|
          ensures c[i] != c[j]
        {
          if j == |rest| {
            assert c[i] == rest[i];
          } else {
            assert c[i] == rest[i] && c[j] == rest[j];
          }
        }
      }
    }
  }

  // ---------------------------------------------------------------------------
  // The nearest-N cap (List.Sort by squared distance, then RemoveRange)
  // ---------------------------------------------------------------------------

  /** The sort key: squared distance from the body to the source. */
  function DistanceKey(scene: Scene, pos: Vec3): SourceId -> real
  {
    id => if id in scene then SqrMag(Sub(pos, scene[id].position)) else 0.0
  }

  predicate SortedByKey(s: seq<SourceId>, key: SourceId -> real)
  {
    forall i, j :: 0 <= i < j < |s| ==> key(s[i]) <= key(s[j])
  }

  lemma SortedTail(s: seq<SourceId>, key: SourceId -> real)
    requires SortedByKey(s, key) && |s| > 0
    ensures SortedByKey(s[1..], key)
  {
    var tail := s[1..];
    forall i, j | 0 <= i < j < |tail|
      ensures key(tail[i]) <= key(tail[j])
    {
      assert tail[i] == s[i + 1] && tail[j] == s[j + 1];
    }
  }

  /** The head of a sorted sequence has the least key of all its elements. */
  lemma SortedHeadIsLeast(s: seq<SourceId>, key: SourceId -> real)
    requires SortedByKey(s, key) && |s| > 0
    ensures forall e | e in multiset(s) :: key(s[0]) <= key(e)
  {
    forall e | e in multiset(s)
      ensures key(s[0]) <= key(e)
    {
      var k :| 0 <= k < |s| && s[k] == e;
    }
  }

  /** Putting an element no larger than any other in front keeps a sequence sorted. */
  lemma ConsSorted(a: SourceId, rest: seq<SourceId>, key: SourceId -> real)
    requires SortedByKey(rest, key)
    requires forall e | e in multiset(rest) :: key(a) <= key(e)
    ensures SortedByKey([a] + rest, key)
  {
    var r := [a] + rest;
    forall i, j | 0 <= i < j < |r|
      ensures key(r[i]) <= key(r[j])
    {
      assert r[j] == rest[j - 1];
      assert rest[j - 1] in multiset(rest);
      if i > 0 {
        assert r[i] == rest[i - 1];
      }
    }
  }

  /** The head of a sorted list still bounds its tail once x, with a key no smaller, is added. */
  lemma HeadBoundsInsert(x: SourceId, s: seq<SourceId>, rest: seq<SourceId>, key: SourceId -> real)
    requires |s| > 0 && key(s[0]) <= key(x)
    requires forall e | e in multiset(s) :: key(s[0]) <= key(e)
    requires multiset(rest) == multiset(s[1..]) + multiset{x}
    ensures forall e | e in multiset(rest) :: key(s[0]) <= key(e)
  {
    assert s == [s[0]] + s[1..];
    forall e | e in multiset(rest)
      ensures key(s[0]) <= key(e)
    {
      if e != x {
        assert e in multiset(s);
      }
    }
  }

  function InsertByKey(x: SourceId, s: seq<SourceId>, key: SourceId -> real): (r: seq<SourceId>)
    requires SortedByKey(s, key)
    ensures SortedByKey(r, key)
    ensures multiset(r) == multiset(s) + multiset{x}
    ensures |r| == |s| + 1
  {
    if |s| == 0 then [x]
    else if key(x) <= key(s[0]) then
      SortedHeadIsLeast(s, key);
      ConsSorted(x, s, key);
      [x] + s
    else
      SortedTail(s, key);
      SortedHeadIsLeast(s, key);
      var rest := InsertByKey(x, s[1..], key);
      assert s == [s[0]] + s[1..];
      HeadBoundsInsert(x, s, rest, key);
      ConsSorted(s[0], rest, key);
      [s[0]] + rest
  }

  /** A sort by the key (a stable insertion sort standing for the engine's unstable one). */
  function SortByKey(s: seq<SourceId>, key: SourceId -> real): (r: seq<SourceId>)
    ensures SortedByKey(r, key)
    ensures multiset(r) == multiset(s)
    ensures |r| == |s|
  {
    if |s| == 0 then []
    else
      assert s == [s[0]] + s[1..];
      InsertByKey(s[0], SortByKey(s[1..], key), key)
  }

  /** The candidates that take part in this tick. */
  function Kept(cfg: Settings, cands: seq<SourceId>, key: SourceId -> real): (k: seq<SourceId>)
    ensures cfg.maxSourcesPerStep > 0 && |cands| > cfg.maxSourcesPerStep ==> |k| == cfg.maxSourcesPerStep
    ensures !(cfg.maxSourcesPerStep > 0 && |cands| > cfg.maxSourcesPerStep) ==> k == cands
    ensures multiset(k) <= multiset(cands)
  {
    if cfg.maxSourcesPerStep > 0 && |cands| > cfg.maxSourcesPerStep then
      var sorted := SortByKey(cands, key);
      assert sorted == sorted[..cfg.maxSourcesPerStep] + sorted[cfg.maxSourcesPerStep..];
      sorted[..cfg.maxSourcesPerStep]
    else cands
  }

  /** The candidates RemoveRange drops: everything past the first maxSourcesPerStep after sorting. */
  function Dropped(cfg: Settings, cands: seq<SourceId>, key: SourceId -> real): seq<SourceId>
  {
    if cfg.maxSourcesPerStep > 0 && |cands| > cfg.maxSourcesPerStep then
      SortByKey(cands, key)[cfg.maxSourcesPerStep..]
    else []
  }

  /** The cap splits the candidates into the kept and the dropped, losing and adding none. */
  lemma KeptDroppedSplit(cfg: Settings, cands: seq<SourceId>, key: SourceId -> real)
    ensures multiset(Kept(cfg, cands, key)) + multiset(Dropped(cfg, cands, key)) == multiset(cands)
  {
    var n := cfg.maxSourcesPerStep;
    if n > 0 && |cands| > n {
      var sorted := SortByKey(cands, key);
      assert sorted == sorted[..n] + sorted[n..];
    }
  }

  /**
   * No kept source is farther than any dropped one. Which of several
   * equidistant sources is kept is not stated.
   */
  lemma NearestKept(cfg: Settings, cands: seq<SourceId>, key: SourceId -> real)
    ensures forall i, j :: 0 <= i < |Kept(cfg, cands, key)| && 0 <= j < |Dropped(cfg, cands, key)|
              ==> key(Kept(cfg, cands, key)[i]) <= key(Dropped(cfg, cands, key)[j])
  {
    var n := cfg.maxSourcesPerStep;
    if n > 0 && |cands| > n {
      var sorted := SortByKey(cands, key);
      var kept := Kept(cfg, cands, key);
      var dropped := Dropped(cfg, cands, key);
      assert kept == sorted[..n] && dropped == sorted[n..];
      forall i, j | 0 <= i < |kept| && 0 <= j < |dropped|
        ensures key(kept[i]) <= key(dropped[j])
      {
        assert kept[i] == sorted[i] && dropped[j] == sorted[n + j];
        assert i < n + j;
      }
    }
  }

  // ---------------------------------------------------------------------------
  // Summation and the dominant source
  // ---------------------------------------------------------------------------

  /** GetAccelerationAtPoint of a live source, the distance read through `norm`. */
  function Pull(scene: Scene, pos: Vec3, norm: Vec3 -> real, id: SourceId): Vec3
  {
    if id in scene then
      var s := scene[id];
      Acceleration(s, pos, norm(Sub(s.position, pos)))
    else Zero
  }

  function Pulls(scene: Scene, pos: Vec3, norm: Vec3 -> real, kept: seq<SourceId>): (p: seq<Vec3>)
    ensures |p| == |kept|
    ensures forall i :: 0 <= i < |kept| ==> p[i] == Pull(scene, pos, norm, kept[i])
  {
    seq(|kept|, i requires 0 <= i < |kept| => Pull(scene, pos, norm, kept[i]))
  }

  /** The magnitudes the script compares: `a.magnitude` of each kept pull. */
  function Strengths(scene: Scene, pos: Vec3, norm: Vec3 -> real, kept: seq<SourceId>): (m: seq<real>)
    ensures |m| == |kept|
    ensures forall i :: 0 <= i < |kept| ==> m[i] == norm(Pull(scene, pos, norm, kept[i]))
  {
    seq(|kept|, i requires 0 <= i < |kept| => norm(Pull(scene, pos, norm, kept[i])))
  }

  /** Vector sum in list order. */
  function SumVec(v: seq<Vec3>): Vec3
  {
    if |v| == 0 then Zero else Add(SumVec(v[..|v| - 1]), v[|v| - 1])
  }

  /**
   * Index `i` holds the dominant strength: strictly positive, no smaller
   * than any other, and strictly larger than every one before it (the loop
   * only replaces the best on a strict increase).
   */
  predicate IsDominantIndex(m: seq<real>, i: int)
  {
    && 0 <= i < |m|
    && m[i] > 0.0
    && (forall j :: 0 <= j < |m| ==> m[j] <= m[i])
    && (forall j :: 0 <= j < i ==> m[j] < m[i])
  }

  /** What the `dominant` out-parameter may be, for given kept sources and strengths. */
  predicate DominantOf(kept: seq<SourceId>, m: seq<real>, d: Option<SourceId>)
    requires |m| == |kept|
  {
    && (d == None <==> forall j :: 0 <= j < |m| ==> m[j] <= 0.0)
    && (d.Some? ==> exists i :: 0 <= i < |m| && IsDominantIndex(m, i) && kept[i] == d.value)
  }

  /** There is only one dominant index, so the choice of source is determined. */
  lemma DominantIndexUnique(m: seq<real>, i: int, j: int)
    requires IsDominantIndex(m, i) && IsDominantIndex(m, j)
    ensures i == j
  {
  }

  /** The overall multiplier: gravityScale, attenuated while the ship's shield is up. */
  function Multiplier(cfg: Settings, shieldActive: bool): (mult: real)
    ensures !(cfg.respectGravityShield && cfg.hasShip && shieldActive) ==> mult == cfg.gravityScale
    ensures cfg.respectGravityShield && cfg.hasShip && shieldActive
            ==> mult == cfg.gravityScale * Clamp01(cfg.shieldMultiplier)
    ensures cfg.shieldMultiplier >= 1.0 ==> mult == cfg.gravityScale
    ensures cfg.respectGravityShield && cfg.hasShip && shieldActive && cfg.shieldMultiplier <= 0.0 ==> mult == 0.0
  {
    if cfg.respectGravityShield && cfg.hasShip && shieldActive then
      cfg.gravityScale * Clamp01(cfg.shieldMultiplier)
    else cfg.gravityScale
  }

  /** A raised shield never strengthens gravity: the multiplier stays within [0, gravityScale]. */
  lemma ShieldAttenuates(cfg: Settings, shieldActive: bool)
    requires cfg.gravityScale >= 0.0
    ensures 0.0 <= Multiplier(cfg, shieldActive) <= cfg.gravityScale
  {
    var c := Clamp01(cfg.shieldMultiplier);
    MulNonneg(cfg.gravityScale, c);
    MulMono(cfg.gravityScale, c, 1.0);
  }

  /** The sources that take part in this tick: the filtered candidates, capped to the nearest N. */
  function Participants(cfg: Settings, reg: seq<SourceId>, scene: Scene, pos: Vec3): (k: seq<SourceId>)
    ensures forall id :: id in k ==> id in reg && id in scene && WithinReach(scene[id], pos)
  {
    var cands := Candidates(reg, scene, pos);
    var k := Kept(cfg, cands, DistanceKey(scene, pos));
    assert forall id :: id in k ==> id in cands by {
      forall id | id in k
        ensures id in cands
      {
        assert id in multiset(k);
      }
    }
    k
  }

  /** The loop of ComputeTotalGravityAcceleration: running vector sum and strict-increase arg-max. */
  method SumAndDominant(kept: seq<SourceId>, pulls: seq<Vec3>, m: seq<real>)
    returns (sum: Vec3, dominant: Option<SourceId>)
    requires |pulls| == |kept| && |m| == |kept|
    ensures sum == SumVec(pulls)
    ensures DominantOf(kept, m, dominant)
  {
    sum := Zero;
    var maxAcc := 0.0;
    dominant := None;
    var best := 0;
    var i := 0;
    while i < |kept|
      invariant 0 <= i <= |kept|
      invariant sum == SumVec(pulls[..i])
      invariant dominant == None ==> maxAcc == 0.0 && forall j :: 0 <= j < i ==> m[j] <= 0.0
      invariant dominant.Some? ==> 0 <= best < i && kept[best] == dominant.value && m[best] == maxAcc > 0.0
      invariant forall j :: 0 <= j < i ==> m[j] <= maxAcc
      invariant dominant.Some? ==> forall j :: 0 <= j < best ==> m[j] < maxAcc
    {
      assert pulls[..i + 1][..i] == pulls[..i];
      sum := Add(sum, pulls[i]);
      if m[i] > maxAcc {
        maxAcc := m[i];
        dominant := Some(kept[i]);
        best := i;
      }
      i := i + 1;
    }
    assert pulls[..i] == pulls;
    if dominant.Some? {
      assert IsDominantIndex(m, best);
    }
  }

  /**
   * ComputeTotalGravityAcceleration: the sum of the participants' pulls
   * times the multiplier, and the dominant participant.
   */
  method ComputeTotalGravityAcceleration(cfg: Settings, reg: seq<SourceId>, scene: Scene, pos: Vec3,
                                         shieldActive: bool, norm: Vec3 -> real)
    returns (acc: Vec3, dominant: Option<SourceId>)
    ensures var kept := Participants(cfg, reg, scene, pos);
      && acc == Scale(SumVec(Pulls(scene, pos, norm, kept)), Multiplier(cfg, shieldActive))
      && DominantOf(kept, Strengths(scene, pos, norm, kept), dominant)
    ensures dominant.Some? ==> dominant.value in scene && dominant.value in reg
  {
    var kept := Participants(cfg, reg, scene, pos);
    var pulls := Pulls(scene, pos, norm, kept);
    var m := Strengths(scene, pos, norm, kept);
    if |reg| == 0 {
      assert Scale(SumVec(pulls), Multiplier(cfg, shieldActive)) == Zero;
      return Zero, None;
    }
    var sum;
    sum, dominant := SumAndDominant(kept, pulls, m);
    acc := Scale(sum, Multiplier(cfg, shieldActive));
  }

  /** A source whose radius of influence is not positive may pass the broad phase but never dominates. */
  lemma NonPositiveRadiusNeverDominant(scene: Scene, pos: Vec3, norm: Vec3 -> real, kept: seq<SourceId>, i: int)
    requires norm(Zero) == 0.0
    requires 0 <= i < |kept| && kept[i] in scene
    requires scene[kept[i]].field.radiusOfInfluence <= 0.0
    ensures Pull(scene, pos, norm, kept[i]) == Zero
    ensures !IsDominantIndex(Strengths(scene, pos, norm, kept), i)
  {
    var s := scene[kept[i]];
    AccelerationOutside(s, pos, norm(Sub(s.position, pos)));
  }

  /** When `norm` is exact, a participant's strength is the absolute value of its field's magnitude. */
  lemma StrengthIsFieldMagnitude(scene: Scene, pos: Vec3, norm: Vec3 -> real, id: SourceId)
    requires id in scene
    requires IsMagnitude(Sub(scene[id].position, pos), norm(Sub(scene[id].position, pos)))
    requires IsMagnitude(Pull(scene, pos, norm, id), norm(Pull(scene, pos, norm, id)))
    ensures norm(Pull(scene, pos, norm, id))
            == Abs(AccelerationMagnitude(scene[id].field, norm(Sub(scene[id].position, pos))))
  {
    var s := scene[id];
    var r := norm(Sub(s.position, pos));
    AccelerationLength(s, pos, r);
    MagnitudeUnique(Acceleration(s, pos, r), norm(Pull(scene, pos, norm, id)),
                    Abs(AccelerationMagnitude(s.field, r)));
  }

  // ---------------------------------------------------------------------------
  // Losing
  // ---------------------------------------------------------------------------

  /** TriggerLose: a one-shot latch; the ship is disabled and onLose fires (or the object is destroyed). */
  function TriggerLose(cfg: Settings, b: Body): (r: Body)
    ensures r.isDead
    ensures b.isDead ==> r == b
    ensures !b.isDead ==> r.dominant == b.dominant
    ensures !b.isDead && cfg.hasShip ==> !r.shipEnabled
    ensures !cfg.hasShip ==> r.shipEnabled == b.shipEnabled
    ensures !b.isDead && cfg.hasOnLose ==> r.loseEvents == b.loseEvents + 1 && r.destroyed == b.destroyed
    ensures !b.isDead && !cfg.hasOnLose ==> r.loseEvents == b.loseEvents && r.destroyed
  {
    if b.isDead then b
    else
      var b1 := b.(isDead := true);
      var b2 := if cfg.hasShip then b1.(shipEnabled := false) else b1;
      if cfg.hasOnLose then b2.(loseEvents := b2.loseEvents + 1) else b2.(destroyed := true)
  }

  /** Losing twice is losing once: the second call changes nothing. */
  lemma TriggerLoseIdempotent(cfg: Settings, b: Body)
    ensures TriggerLose(cfg, TriggerLose(cfg, b)) == TriggerLose(cfg, b)
    ensures TriggerLose(cfg, b).loseEvents <= b.loseEvents + 1
  {
  }

  /**
   * The rest of a live body's FixedUpdate once the gravity is known: remember
   * the dominant source, push with the acceleration when it is nonzero, and
   * lose inside the event horizon of a dominant black hole.
   */
  function AfterGravity(cfg: Settings, b: Body, acc: Vec3, dominant: Option<SourceId>, scene: Scene, pos: Vec3,
                        norm: Vec3 -> real): (res: (Body, Option<Vec3>))
    requires dominant.Some? ==> dominant.value in scene
    ensures res.0.dominant == dominant
    ensures res.1.Some? <==> SqrMag(acc) > 0.0
    ensures res.1.Some? ==> res.1.value == acc
    ensures res.0.isDead <==>
      b.isDead
      || (cfg.loseOnEnterEventHorizon && dominant.Some? && scene[dominant.value].isBlackHole
          && IsInsideEventHorizon(scene[dominant.value], norm(Sub(pos, scene[dominant.value].position))))
    ensures !res.0.isDead ==> res.0 == b.(dominant := dominant)
    ensures res.0.isDead && !b.isDead ==> res.0 == TriggerLose(cfg, b.(dominant := dominant))
  {
    var r := b.(dominant := dominant);
    var force := if SqrMag(acc) > 0.0 then Some(acc) else None;
    if cfg.loseOnEnterEventHorizon && dominant.Some?
       && scene[dominant.value].isBlackHole
       && IsInsideEventHorizon(scene[dominant.value], norm(Sub(pos, scene[dominant.value].position)))
    then (TriggerLose(cfg, r), force)
    else (r, force)
  }

  /**
   * FixedUpdate: nothing once lost; otherwise compute, remember the dominant
   * source, push the body (`force`) when the acceleration is nonzero, and lose
   * inside the event horizon of a dominant black hole.
   */
  method FixedUpdate(cfg: Settings, b: Body, reg: seq<SourceId>, scene: Scene, pos: Vec3,
                     shieldActive: bool, norm: Vec3 -> real)
    returns (r: Body, force: Option<Vec3>)
    ensures b.isDead ==> r == b && force == None
    ensures !b.isDead ==>
      var kept := Participants(cfg, reg, scene, pos);
      DominantOf(kept, Strengths(scene, pos, norm, kept), r.dominant)
    ensures !b.isDead ==>
      var acc := Scale(SumVec(Pulls(scene, pos, norm, Participants(cfg, reg, scene, pos))),
                       Multiplier(cfg, shieldActive));
      (force.Some? <==> SqrMag(acc) > 0.0) && (force.Some? ==> force.value == acc)
    ensures !b.isDead && !r.isDead ==> r == b.(dominant := r.dominant)
    ensures !b.isDead && r.isDead ==> r == TriggerLose(cfg, b.(dominant := r.dominant))
    ensures !b.isDead ==>
      (r.isDead <==> cfg.loseOnEnterEventHorizon && r.dominant.Some? && r.dominant.value in scene
                     && scene[r.dominant.value].isBlackHole
                     && IsInsideEventHorizon(scene[r.dominant.value],
                                             norm(Sub(pos, scene[r.dominant.value].position))))
  {
    if b.isDead {
      return b, None;
    }
    var acc, dominant := ComputeTotalGravityAcceleration(cfg, reg, scene, pos, shieldActive, norm);
    var res := AfterGravity(cfg, b, acc, dominant, scene, pos, norm);
    r, force := res.0, res.1;
  }

  /**
   * OnCollisionEnter and OnTriggerEnter: touching the current dominant source
   * loses, when that rule is on. `hit` is the source found on the collider's
   * parents, if any.
   */
  function OnSourceContact(cfg: Settings, b: Body, hit: Option<SourceId>): (r: Body)
    ensures r.isDead <==> b.isDead || (cfg.loseOnCollisionWithDominantSource && hit.Some? && hit == b.dominant)
    ensures b.isDead ==> r == b
    ensures !r.isDead ==> r == b
  {
    if b.isDead || !cfg.loseOnCollisionWithDominantSource then b
    else if hit.Some? && hit == b.dominant then TriggerLose(cfg, b)
    else b
  }

  /** Once lost, nothing the body receives changes it again. */
  lemma DeadIsFrozen(cfg: Settings, b: Body, hit: Option<SourceId>)
    requires b.isDead
    ensures OnSourceContact(cfg, b, hit) == b
    ensures TriggerLose(cfg, b) == b
  {
  }

  /** Touching a source other than the dominant one (or nothing) never loses. */
  lemma OnlyDominantContactLoses(cfg: Settings, b: Body, hit: Option<SourceId>)
    requires !b.isDead && (hit.None? || hit != b.dominant)
    ensures OnSourceContact(cfg, b, hit) == b
  {
  }
}
