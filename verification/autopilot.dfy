/**
 * SpaceshipAIController: a waypoint follower that fills in the ship's
 * ControlState each physics tick. The route is a sequence of waypoints, some
 * of which may be missing (destroyed or never assigned); the ship-local
 * direction is the engine's InverseTransformDirection, passed in as `toLocal`,
 * and distances are read through `norm` (Vector3.magnitude).
 */
module Autopilot {

  import opened Wrappers
  import opened Mathf
  import opened Vectors
  import opened LoseScreen
  import Spaceship

  datatype Waypoint = Missing | At(position: Vec3)

  datatype PilotConfig = PilotConfig(
    waypointRadius: real,
    loopWaypoints: bool,
    steerGain: real,
    rollAlignGain: real,
    throttleDistance: real,
    minThrottle: real,
    loseOnFinish: bool,
    loseMessage: string)

  datatype Pilot = Pilot(
    currentWaypointIndex: nat,
    finishTriggered: bool,
    /** How many times onRouteFinished has been invoked. */
    routeFinishedEvents: nat)

  /** The route position stays on a real waypoint. */
  predicate IndexInRange(p: Pilot, count: nat)
  {
    count > 0 ==> p.currentWaypointIndex < count
  }

  /**
   * HandleRouteFinished: in non-looping mode only the first call acts; it
   * fires onRouteFinished and, when losing on finish with a manager present,
   * asks that manager to show the lose screen with the configured message.
   * The manager is the scene's one GameOverManager, passed in and handed back.
   */
  function HandleRouteFinished(cfg: PilotConfig, p: Pilot, manager: Option<LoseManager>)
    : (res: (Pilot, Option<LoseManager>))
    ensures res.0.finishTriggered
    ensures p.finishTriggered && !cfg.loopWaypoints ==> res == (p, manager)
    ensures !(p.finishTriggered && !cfg.loopWaypoints) ==> res.0.routeFinishedEvents == p.routeFinishedEvents + 1
    ensures !(p.finishTriggered && !cfg.loopWaypoints) && cfg.loseOnFinish
            ==> res.1 == RequestLose(manager, cfg.loseMessage)
    ensures !cfg.loseOnFinish ==> res.1 == manager
    ensures res.1 == manager || res.1 == RequestLose(manager, cfg.loseMessage)
    ensures res.0.currentWaypointIndex == p.currentWaypointIndex
  {
    if p.finishTriggered && !cfg.loopWaypoints then (p, manager)
    else
      var m := if cfg.loseOnFinish && manager.Some? then RequestLose(manager, cfg.loseMessage) else manager;
      (p.(routeFinishedEvents := p.routeFinishedEvents + 1, finishTriggered := true), m)
  }

  /**
   * AdvanceWaypoint: step to the next waypoint; past the last one, handle the
   * route end and wrap to the first (looping) or stay on the last.
   */
  function AdvanceWaypoint(cfg: PilotConfig, p: Pilot, count: nat, manager: Option<LoseManager>)
    : (res: (Pilot, Option<LoseManager>))
    requires IndexInRange(p, count)
    ensures IndexInRange(res.0, count)
    ensures count == 0 ==> res == (p, manager)
    ensures count > 0 && p.currentWaypointIndex + 1 < count
            ==> res == (p.(currentWaypointIndex := p.currentWaypointIndex + 1), manager)
    ensures count > 0 && p.currentWaypointIndex + 1 >= count && cfg.loopWaypoints
            ==> res.0.currentWaypointIndex == 0
    ensures count > 0 && p.currentWaypointIndex + 1 >= count && !cfg.loopWaypoints
            ==> res.0.currentWaypointIndex == count - 1
    ensures count > 0 && p.currentWaypointIndex + 1 >= count
            ==> var h := HandleRouteFinished(cfg, p, manager);
                res == (h.0.(currentWaypointIndex := res.0.currentWaypointIndex), h.1)
    ensures res.1 == manager || res.1 == RequestLose(manager, cfg.loseMessage)
  {
    if count == 0 then (p, manager)
    else
      var next := p.currentWaypointIndex + 1;
      if next >= count then
        var q := HandleRouteFinished(cfg, p, manager);
        (q.0.(currentWaypointIndex := if cfg.loopWaypoints then 0 else count - 1), q.1)
      else (p.(currentWaypointIndex := next), manager)
  }

  /** Successive advances along a route of `count` waypoints. */
  function AdvanceTimes(cfg: PilotConfig, p: Pilot, count: nat, manager: Option<LoseManager>, steps: nat)
    : (res: (Pilot, Option<LoseManager>))
    requires IndexInRange(p, count)
    ensures IndexInRange(res.0, count)
    decreases steps
  {
    if steps == 0 then (p, manager)
    else
      var a := AdvanceWaypoint(cfg, p, count, manager);
      AdvanceTimes(cfg, a.0, count, a.1, steps - 1)
  }

  /** Without looping, onRouteFinished fires at most once however far the pilot advances. */
  lemma {:induction false} FinishFiresOnce(cfg: PilotConfig, p: Pilot, count: nat, manager: Option<LoseManager>,
                                           steps: nat)
    requires !cfg.loopWaypoints && IndexInRange(p, count)
    requires p.routeFinishedEvents <= 1 && (p.routeFinishedEvents == 1 <==> p.finishTriggered)
    ensures AdvanceTimes(cfg, p, count, manager, steps).0.routeFinishedEvents <= 1
    ensures AdvanceTimes(cfg, p, count, manager, steps).0.routeFinishedEvents == 1
            <==> AdvanceTimes(cfg, p, count, manager, steps).0.finishTriggered
    decreases steps
  {
    if steps > 0 {
      var a := AdvanceWaypoint(cfg, p, count, manager);
      FinishFiresOnce(cfg, a.0, count, a.1, steps - 1);
    }
  }

  /** With looping, every lap fires onRouteFinished again. */
  lemma LoopFiresEveryLap(cfg: PilotConfig, p: Pilot, count: nat, manager: Option<LoseManager>)
    requires cfg.loopWaypoints && count > 0 && p.currentWaypointIndex == count - 1
    ensures AdvanceWaypoint(cfg, p, count, manager).0.routeFinishedEvents == p.routeFinishedEvents + 1
    ensures AdvanceWaypoint(cfg, p, count, manager).0.currentWaypointIndex == 0
  {
  }

  /** The thrust of the autopilot's command: from minThrottle near the target up to full at throttleDistance. */
  function Throttle(cfg: PilotConfig, distance: real): (t: real)
    ensures cfg.minThrottle <= 1.0 ==> cfg.minThrottle <= t <= 1.0
    ensures distance <= 0.0 ==> t == cfg.minThrottle
  {
    assert distance <= 0.0 ==> distance / Max(1.0, cfg.throttleDistance) <= 0.0 by {
      if distance <= 0.0 {
        DivMonoNumerator(distance, 0.0, Max(1.0, cfg.throttleDistance));
      }
    }
    Lerp(cfg.minThrottle, 1.0, Clamp01(distance / Max(1.0, cfg.throttleDistance)))
  }

  /** At or beyond max(1, throttleDistance) the autopilot flies at full thrust. */
  lemma FullThrottleFarAway(cfg: PilotConfig, distance: real)
    requires distance >= Max(1.0, cfg.throttleDistance)
    ensures Throttle(cfg, distance) == 1.0
  {
    DivAtLeastOne(distance, Max(1.0, cfg.throttleDistance));
  }

  /** The farther the target, the more thrust: the throttle never drops as the distance grows. */
  lemma ThrottleMonotone(cfg: PilotConfig, d1: real, d2: real)
    requires d1 <= d2 && cfg.minThrottle <= 1.0
    ensures Throttle(cfg, d1) <= Throttle(cfg, d2)
  {
    var D := Max(1.0, cfg.throttleDistance);
    DivMonoNumerator(d1, d2, D);
    LerpMonotone(cfg.minThrottle, 1.0, d1 / D, d2 / D);
  }

  /** One steering axis: the offset `v` times `gain`, clamped to [-1, 1]. */
  function Axis(v: real, gain: real): (a: real)
    ensures -1.0 <= a <= 1.0
    ensures gain > 0.0 && v > 0.0 ==> a > 0.0
    ensures gain > 0.0 && v < 0.0 ==> a < 0.0
    ensures v == 0.0 ==> a == 0.0
  {
    assert gain > 0.0 && v != 0.0 ==> (v > 0.0 <==> v * gain > 0.0) by {
      if gain > 0.0 && v > 0.0 { MulPos(v, gain); }
      if gain > 0.0 && v < 0.0 { MulPos(-v, gain); assert (-v) * gain == -(v * gain); }
    }
    Clamp(v * gain, -1.0, 1.0)
  }

  /** An axis is odd in its offset: the opposite offset gives the opposite command. */
  lemma AxisOdd(v: real, gain: real)
    ensures Axis(-v, gain) == -Axis(v, gain)
  {
    assert (-v) * gain == -(v * gain);
    ClampSymmetric(v * gain, 1.0);
  }

  /** The command the autopilot sends for a target in ship-local direction `localDir` at `distance`. */
  function Steer(cfg: PilotConfig, distance: real, localDir: Vec3): (c: Spaceship.ControlState)
    ensures -1.0 <= c.pitch <= 1.0 && -1.0 <= c.yaw <= 1.0 && -1.0 <= c.roll <= 1.0
    ensures c.strafeHorizontal == 0.0 && c.strafeVertical == 0.0
    ensures !c.boost && !c.brake && !c.shield
    ensures c.thrust == Throttle(cfg, distance)
    ensures cfg.steerGain > 0.0 && localDir.y > 0.0 ==> c.pitch < 0.0
    ensures cfg.steerGain > 0.0 && localDir.y < 0.0 ==> c.pitch > 0.0
    ensures cfg.steerGain > 0.0 && localDir.x > 0.0 ==> c.yaw > 0.0
    ensures cfg.steerGain > 0.0 && localDir.x < 0.0 ==> c.yaw < 0.0
    ensures cfg.rollAlignGain > 0.0 && localDir.x > 0.0 ==> c.roll < 0.0
    ensures cfg.rollAlignGain > 0.0 && localDir.x < 0.0 ==> c.roll > 0.0
    ensures localDir.y == 0.0 ==> c.pitch == 0.0
    ensures localDir.x == 0.0 ==> c.yaw == 0.0 && c.roll == 0.0
  {
    Spaceship.ControlState(
      Throttle(cfg, distance),
      Axis(-localDir.y, cfg.steerGain),
      Axis(localDir.x, cfg.steerGain),
      Axis(-localDir.x, cfg.rollAlignGain),
      0.0, 0.0, false, false, false)
  }

  /** A target mirrored left to right turns the other way: yaw and roll change sign, the rest is the same. */
  lemma SteerMirror(cfg: PilotConfig, distance: real, localDir: Vec3)
    ensures var c := Steer(cfg, distance, localDir);
      var m := Steer(cfg, distance, localDir.(x := -localDir.x));
      m == c.(yaw := -c.yaw, roll := -c.roll)
  {
    AxisOdd(localDir.x, cfg.steerGain);
    AxisOdd(-localDir.x, cfg.rollAlignGain);
    assert -(-localDir.x) == localDir.x;
  }

  /** With minThrottle in [0, 1] the command is already in range, so ApplyControl stores it unchanged. */
  lemma SteerIsClamped(cfg: PilotConfig, distance: real, localDir: Vec3)
    requires 0.0 <= cfg.minThrottle <= 1.0
    ensures Spaceship.ClampedInput(Steer(cfg, distance, localDir))
  {
  }

  /**
   * FixedUpdate: nothing without a ship or a route; a missing waypoint or one
   * within waypointRadius advances the route and sends no command this tick;
   * otherwise steer toward the current waypoint.
   */
  function FixedUpdate(cfg: PilotConfig, p: Pilot, manager: Option<LoseManager>, hasShip: bool,
                       waypoints: seq<Waypoint>, pos: Vec3, norm: Vec3 -> real, toLocal: Vec3 -> Vec3)
    : (res: (Pilot, Option<LoseManager>, Option<Spaceship.ControlState>))
    requires IndexInRange(p, |waypoints|)
    ensures IndexInRange(res.0, |waypoints|)
    ensures !hasShip || |waypoints| == 0 ==> res == (p, manager, None)
    ensures hasShip && |waypoints| > 0 && waypoints[p.currentWaypointIndex].Missing?
            ==> var a := AdvanceWaypoint(cfg, p, |waypoints|, manager);
                res == (a.0, a.1, None)
    ensures res.2.Some? <==> hasShip && |waypoints| > 0 && waypoints[p.currentWaypointIndex].At?
                             && norm(Sub(waypoints[p.currentWaypointIndex].position, pos)) > cfg.waypointRadius
    ensures res.2.Some? ==> res.0 == p && res.1 == manager
    ensures res.2.Some? ==> waypoints[p.currentWaypointIndex].At?
    ensures res.2.Some? ==>
              var toTarget := Sub(waypoints[p.currentWaypointIndex].position, pos);
              var d := norm(toTarget);
              res.2.value == Steer(cfg, d, toLocal(Normalized(toTarget, d)))
    ensures res.2.None? && hasShip && |waypoints| > 0
            ==> (res.0, res.1) == AdvanceWaypoint(cfg, p, |waypoints|, manager)
  {
    if !hasShip || |waypoints| == 0 then (p, manager, None)
    else
      match waypoints[p.currentWaypointIndex]
      case Missing =>
        var a := AdvanceWaypoint(cfg, p, |waypoints|, manager);
        (a.0, a.1, None)
      case At(target) =>
        var toTarget := Sub(target, pos);
        var distance := norm(toTarget);
        if distance <= cfg.waypointRadius then
          var a := AdvanceWaypoint(cfg, p, |waypoints|, manager);
          (a.0, a.1, None)
        else (p, manager, Some(Steer(cfg, distance, toLocal(Normalized(toTarget, distance)))))
  }

  /** A waypoint at least max(1, throttleDistance) away, outside waypointRadius, is approached at full thrust. */
  lemma FarWaypointFullThrottle(cfg: PilotConfig, p: Pilot, manager: Option<LoseManager>,
                                waypoints: seq<Waypoint>, pos: Vec3, norm: Vec3 -> real, toLocal: Vec3 -> Vec3)
    requires IndexInRange(p, |waypoints|) && |waypoints| > 0 && waypoints[p.currentWaypointIndex].At?
    requires var d := norm(Sub(waypoints[p.currentWaypointIndex].position, pos));
      d > cfg.waypointRadius && d >= Max(1.0, cfg.throttleDistance)
    ensures var cmd := FixedUpdate(cfg, p, manager, true, waypoints, pos, norm, toLocal).2;
      cmd.Some? && cmd.value.thrust == 1.0
  {
    FullThrottleFarAway(cfg, norm(Sub(waypoints[p.currentWaypointIndex].position, pos)));
  }

  /** With a positive steerGain the command yaws toward the side the target lies on in ship-local axes. */
  lemma CommandTurnsTowardTarget(cfg: PilotConfig, p: Pilot, manager: Option<LoseManager>,
                                 waypoints: seq<Waypoint>, pos: Vec3, norm: Vec3 -> real, toLocal: Vec3 -> Vec3)
    requires IndexInRange(p, |waypoints|) && cfg.steerGain > 0.0
    ensures var cmd := FixedUpdate(cfg, p, manager, true, waypoints, pos, norm, toLocal).2;
      cmd.Some? ==>
        var toTarget := Sub(waypoints[p.currentWaypointIndex].position, pos);
        var x := toLocal(Normalized(toTarget, norm(toTarget))).x;
        (x > 0.0 ==> cmd.value.yaw > 0.0) && (x < 0.0 ==> cmd.value.yaw < 0.0) && (x == 0.0 ==> cmd.value.yaw == 0.0)
  {
  }

  /** Every command the autopilot sends keeps the thrust in [minThrottle, 1] and uses no strafe, boost, brake or shield. */
  lemma CommandsAreBounded(cfg: PilotConfig, p: Pilot, manager: Option<LoseManager>, hasShip: bool,
                           waypoints: seq<Waypoint>, pos: Vec3, norm: Vec3 -> real, toLocal: Vec3 -> Vec3)
    requires IndexInRange(p, |waypoints|) && 0.0 <= cfg.minThrottle <= 1.0
    ensures var cmd := FixedUpdate(cfg, p, manager, hasShip, waypoints, pos, norm, toLocal).2;
      cmd.Some? ==> cfg.minThrottle <= cmd.value.thrust <= 1.0 && Spaceship.ClampedInput(cmd.value)
  {
  }
}
