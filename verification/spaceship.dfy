/**
 * SpaceshipController: the control inputs, the energy budget, the boost and
 * gravity-shield timers, and the per-tick velocity rules (boosted thrust,
 * braking, speed cap). Time.time and Time.deltaTime are the parameters `now`
 * and `dt`; the rigidbody's velocity and its magnitude are passed in, and
 * forces are returned instead of applied.
 */
module Spaceship {

  import opened Mathf
  import opened Vectors
  import opened Wrappers

  /** SpaceshipController.ControlState, the command a player or an autopilot sends. */
  datatype ControlState = ControlState(
    thrust: real,
    pitch: real,
    yaw: real,
    roll: real,
    strafeHorizontal: real,
    strafeVertical: real,
    boost: bool,
    brake: bool,
    shield: bool)

  /** The inspector settings the modelled rules read. */
  datatype Config = Config(
    thrustForce: real,
    maxSpeed: real,
    boostMultiplier: real,
    boostDuration: real,
    boostCooldown: real,
    brakingAccel: real,
    brakeTimeTarget: real,
    stopSpeedEpsilon: real,
    retroBoostAccel: real,
    hasGravityShield: bool,
    shieldDuration: real,
    shieldCooldown: real,
    shieldEnergyConsumption: real,
    maxEnergy: real,
    energyRegenRate: real,
    isPlayerControlled: bool)

  datatype Ship = Ship(
    /** The last command as received (CurrentControl). */
    control: ControlState,
    /** The same command after clamping: the private input fields. */
    input: ControlState,
    energy: real,
    isBoostActive: bool,
    isShieldActive: bool,
    boostTimer: real,
    shieldTimer: real,
    lastBoostTime: real,
    lastShieldTime: real,
    isUsingThrusters: bool)

  const Idle: ControlState := ControlState(0.0, 0.0, 0.0, 0.0, 0.0, 0.0, false, false, false)

  /** Start: a full energy budget; every other field holds its default value. */
  function Started(cfg: Config): (s: Ship)
    ensures s.energy == cfg.maxEnergy
    ensures !s.isBoostActive && !s.isShieldActive
  {
    Ship(Idle, Idle, cfg.maxEnergy, false, false, 0.0, 0.0, 0.0, 0.0, false)
  }

  // ---------------------------------------------------------------------------
  // Control input
  // ---------------------------------------------------------------------------

  /** The clamped form of a command: thrust into [0, 1] and zero while braking, axes into [-1, 1]. */
  predicate ClampedInput(c: ControlState)
  {
    && 0.0 <= c.thrust <= 1.0
    && -1.0 <= c.pitch <= 1.0 && -1.0 <= c.yaw <= 1.0 && -1.0 <= c.roll <= 1.0
    && -1.0 <= c.strafeHorizontal <= 1.0 && -1.0 <= c.strafeVertical <= 1.0
    && (c.brake ==> c.thrust == 0.0)
  }

  /** ApplyControl: remember the raw command and store its clamped form as the inputs. */
  function ApplyControl(s: Ship, state: ControlState): (r: Ship)
    ensures r.control == state
    ensures ClampedInput(r.input)
    ensures r.input.brake == state.brake && r.input.boost == state.boost && r.input.shield == state.shield
    ensures !state.brake && 0.0 <= state.thrust <= 1.0 ==> r.input.thrust == state.thrust
    ensures -1.0 <= state.pitch <= 1.0 ==> r.input.pitch == state.pitch
    ensures -1.0 <= state.yaw <= 1.0 ==> r.input.yaw == state.yaw
    ensures -1.0 <= state.roll <= 1.0 ==> r.input.roll == state.roll
    ensures -1.0 <= state.strafeHorizontal <= 1.0 ==> r.input.strafeHorizontal == state.strafeHorizontal
    ensures -1.0 <= state.strafeVertical <= 1.0 ==> r.input.strafeVertical == state.strafeVertical
    ensures state.brake ==> r.input.thrust == 0.0
    ensures !state.brake && state.thrust > 1.0 ==> r.input.thrust == 1.0
    ensures state.thrust < 0.0 ==> r.input.thrust == 0.0
    ensures state.pitch > 1.0 ==> r.input.pitch == 1.0
    ensures state.pitch < -1.0 ==> r.input.pitch == -1.0
    ensures state.yaw > 1.0 ==> r.input.yaw == 1.0
    ensures state.yaw < -1.0 ==> r.input.yaw == -1.0
    ensures state.roll > 1.0 ==> r.input.roll == 1.0
    ensures state.roll < -1.0 ==> r.input.roll == -1.0
    ensures state.strafeHorizontal > 1.0 ==> r.input.strafeHorizontal == 1.0
    ensures state.strafeHorizontal < -1.0 ==> r.input.strafeHorizontal == -1.0
    ensures state.strafeVertical > 1.0 ==> r.input.strafeVertical == 1.0
    ensures state.strafeVertical < -1.0 ==> r.input.strafeVertical == -1.0
    ensures r.energy == s.energy && r.isBoostActive == s.isBoostActive && r.isShieldActive == s.isShieldActive
  {
    var thrust := Clamp01(Max(0.0, state.thrust));
    var input := ControlState(
      if state.brake then 0.0 else thrust,
      Clamp(state.pitch, -1.0, 1.0),
      Clamp(state.yaw, -1.0, 1.0),
      Clamp(state.roll, -1.0, 1.0),
      Clamp(state.strafeHorizontal, -1.0, 1.0),
      Clamp(state.strafeVertical, -1.0, 1.0),
      state.boost, state.brake, state.shield);
    s.(control := state, input := input)
  }

  /** Applying the same command twice is applying it once. */
  lemma ApplyControlIdempotent(s: Ship, state: ControlState)
    ensures ApplyControl(ApplyControl(s, state), state) == ApplyControl(s, state)
  {
  }

  /** A command that is already in range passes through unchanged. */
  lemma ApplyControlKeepsClamped(s: Ship, state: ControlState)
    requires ClampedInput(state)
    ensures ApplyControl(s, state).input == state
  {
  }

  // ---------------------------------------------------------------------------
  // Boost and shield
  // ---------------------------------------------------------------------------

  /** CanUseBoost: the cooldown since the last activation has passed and no boost is running. */
  function CanUseBoost(cfg: Config, s: Ship, now: real): (ok: bool)
    ensures ok ==> !s.isBoostActive
    ensures ok <==> now - s.lastBoostTime > cfg.boostCooldown && !s.isBoostActive
  {
    now - s.lastBoostTime > cfg.boostCooldown && !s.isBoostActive
  }

  /** Waiting never takes the boost away: while none runs, a boost usable now is usable later. */
  lemma CanUseBoostMonotone(cfg: Config, s: Ship, now: real, later: real)
    requires now <= later && CanUseBoost(cfg, s, now)
    ensures CanUseBoost(cfg, s, later)
  {
  }

  /** ActivateBoost: start the boost for boostDuration and stamp the time. */
  function ActivateBoost(cfg: Config, s: Ship, now: real): (r: Ship)
    ensures r.isBoostActive && r.boostTimer == cfg.boostDuration && r.lastBoostTime == now
    ensures r.energy == s.energy && r.isShieldActive == s.isShieldActive
  {
    s.(isBoostActive := true, boostTimer := cfg.boostDuration, lastBoostTime := now)
  }

  /** A boost that has just started cannot be started again, and not within the cooldown after it. */
  lemma BoostCooldownGates(cfg: Config, s: Ship, now: real, later: real)
    requires later - now <= cfg.boostCooldown
    ensures !CanUseBoost(cfg, ActivateBoost(cfg, s, now), later)
    ensures !CanUseBoost(cfg, ActivateBoost(cfg, s, now).(isBoostActive := false), later)
  {
  }

  /** CanUseShield: more energy than one activation's consumption, and the cooldown has passed. */
  function CanUseShield(cfg: Config, s: Ship, now: real): (ok: bool)
    ensures ok ==> s.energy > cfg.shieldEnergyConsumption
    ensures ok <==> s.energy > cfg.shieldEnergyConsumption && now - s.lastShieldTime > cfg.shieldCooldown
  {
    s.energy > cfg.shieldEnergyConsumption && now - s.lastShieldTime > cfg.shieldCooldown
  }

  /** Waiting or gaining energy never takes the shield away. */
  lemma CanUseShieldMonotone(cfg: Config, s: Ship, now: real, later: real, energy: real)
    requires now <= later && s.energy <= energy && CanUseShield(cfg, s, now)
    ensures CanUseShield(cfg, s.(energy := energy), later)
  {
  }

  /** ActivateShield: raise the shield for shieldDuration; energy is drained while it is up, not here. */
  function ActivateShield(cfg: Config, s: Ship): (r: Ship)
    ensures r.isShieldActive && r.shieldTimer == cfg.shieldDuration
    ensures r.energy == s.energy && r.lastShieldTime == s.lastShieldTime
  {
    s.(isShieldActive := true, shieldTimer := cfg.shieldDuration)
  }

  /** DeactivateShield: lower the shield and stamp the time, which starts the cooldown. */
  function DeactivateShield(s: Ship, now: real): (r: Ship)
    ensures !r.isShieldActive && r.lastShieldTime == now
    ensures r.energy == s.energy && r.isBoostActive == s.isBoostActive
  {
    s.(isShieldActive := false, lastShieldTime := now)
  }

  /** After the shield goes down it cannot come back up within the cooldown. */
  lemma ShieldCooldownGates(cfg: Config, s: Ship, now: real, later: real)
    requires later - now <= cfg.shieldCooldown
    ensures !CanUseShield(cfg, DeactivateShield(s, now), later)
  {
  }

  /**
   * ToggleGravityShield: with a shield fitted, a shield press raises the
   * shield when allowed or lowers a raised one; the press is consumed either way.
   */
  function ToggleGravityShield(cfg: Config, s: Ship, now: real): (r: Ship)
    ensures !r.input.shield
    ensures r.energy == s.energy && r.isBoostActive == s.isBoostActive
    ensures !(s.input.shield && cfg.hasGravityShield) ==> r == s.(input := s.input.(shield := false))
    ensures r.isShieldActive && !s.isShieldActive
            <==> s.input.shield && cfg.hasGravityShield && !s.isShieldActive && CanUseShield(cfg, s, now)
    ensures !r.isShieldActive && s.isShieldActive <==> s.input.shield && cfg.hasGravityShield && s.isShieldActive
    ensures !r.isShieldActive && s.isShieldActive ==> r.lastShieldTime == now
    ensures r.isShieldActive && !s.isShieldActive ==> r.shieldTimer == cfg.shieldDuration && r.lastShieldTime == s.lastShieldTime
    ensures r.input == s.input.(shield := false)
    ensures r == s.(input := r.input, isShieldActive := r.isShieldActive, shieldTimer := r.shieldTimer,
                    lastShieldTime := r.lastShieldTime)
    ensures r.isShieldActive == s.isShieldActive ==> r == s.(input := s.input.(shield := false))
  {
    var s1 :=
      if s.input.shield && cfg.hasGravityShield then
        if !s.isShieldActive && CanUseShield(cfg, s, now) then ActivateShield(cfg, s)
        else if s.isShieldActive then DeactivateShield(s, now)
        else s
      else s;
    s1.(input := s1.input.(shield := false))
  }

  /** Two presses in the same frame are not possible: the second toggle sees no press and changes nothing. */
  lemma ToggleConsumesPress(cfg: Config, s: Ship, now: real)
    ensures ToggleGravityShield(cfg, ToggleGravityShield(cfg, s, now), now)
            == ToggleGravityShield(cfg, s, now)
  {
  }

  // ---------------------------------------------------------------------------
  // Timers and energy
  // ---------------------------------------------------------------------------

  /** UpdateTimers: run down the boost and shield timers; each switches off when it runs out. */
  function UpdateTimers(s: Ship, dt: real, now: real): (r: Ship)
    ensures r.energy == s.energy
    ensures s.isBoostActive ==> r.boostTimer == s.boostTimer - dt
    ensures r.isBoostActive <==> s.isBoostActive && s.boostTimer - dt > 0.0
    ensures r.isShieldActive <==> s.isShieldActive && s.shieldTimer - dt > 0.0 && s.energy > 0.0
    ensures s.isShieldActive && !r.isShieldActive ==> r.lastShieldTime == now
    ensures !s.isShieldActive ==> r.lastShieldTime == s.lastShieldTime && r.shieldTimer == s.shieldTimer
    ensures s.isShieldActive ==> r.shieldTimer == s.shieldTimer - dt
    ensures !s.isBoostActive ==> r.boostTimer == s.boostTimer
    ensures r.input == s.input && r.control == s.control && r.lastBoostTime == s.lastBoostTime
    ensures r.isUsingThrusters == s.isUsingThrusters
  {
    var s1 :=
      if s.isBoostActive then
        var t := s.boostTimer - dt;
        s.(boostTimer := t, isBoostActive := !(t <= 0.0))
      else s;
    if s1.isShieldActive then
      var t := s1.shieldTimer - dt;
      var s2 := s1.(shieldTimer := t);
      if t <= 0.0 || s2.energy <= 0.0 then DeactivateShield(s2, now) else s2
    else s1
  }

  /** Successive UpdateTimers calls at a fixed frame time. */
  function TimersRun(s: Ship, dt: real, now: real, n: nat): Ship
    decreases n
  {
    if n == 0 then s else TimersRun(UpdateTimers(s, dt, now), dt, now + dt, n - 1)
  }

  /** The timers only ever switch a boost off. */
  lemma {:induction false} TimersNeverStartBoost(s: Ship, dt: real, now: real, n: nat)
    requires !s.isBoostActive
    ensures !TimersRun(s, dt, now, n).isBoostActive
    decreases n
  {
    if n > 0 {
      TimersNeverStartBoost(UpdateTimers(s, dt, now), dt, now + dt, n - 1);
    }
  }

  /** The time covered by `n` frames of `dt`, summed frame by frame. */
  function Elapsed(dt: real, n: nat): (e: real)
    ensures dt >= 0.0 ==> e >= 0.0
    decreases n
  {
    if n == 0 then 0.0 else Elapsed(dt, n - 1) + dt
  }

  lemma {:induction false} ElapsedIsProduct(dt: real, n: nat)
    ensures Elapsed(dt, n) == (n as real) * dt
    decreases n
  {
    if n > 0 {
      ElapsedIsProduct(dt, n - 1);
      assert (n as real) * dt == ((n - 1) as real) * dt + dt;
    }
  }

  /** A running boost stays on for exactly as many frames as its remaining timer covers. */
  lemma {:induction false} BoostTimerRunsDown(s: Ship, dt: real, now: real, n: nat)
    requires s.isBoostActive && dt >= 0.0
    ensures TimersRun(s, dt, now, n).isBoostActive <==> n == 0 || s.boostTimer - Elapsed(dt, n) > 0.0
    ensures TimersRun(s, dt, now, n).isBoostActive ==> TimersRun(s, dt, now, n).boostTimer == s.boostTimer - Elapsed(dt, n)
    decreases n
  {
    if n > 0 {
      var s1 := UpdateTimers(s, dt, now);
      assert TimersRun(s, dt, now, n) == TimersRun(s1, dt, now + dt, n - 1);
      if s1.isBoostActive {
        BoostTimerRunsDown(s1, dt, now + dt, n - 1);
      } else {
        TimersNeverStartBoost(s1, dt, now + dt, n - 1);
      }
    }
  }

  /** A boost started at `now` lasts exactly the frames that fit in boostDuration. */
  lemma BoostLastsItsDuration(cfg: Config, s: Ship, now: real, dt: real, n: nat)
    requires dt >= 0.0
    ensures TimersRun(ActivateBoost(cfg, s, now), dt, now, n).isBoostActive
            <==> n == 0 || cfg.boostDuration - (n as real) * dt > 0.0
  {
    BoostTimerRunsDown(ActivateBoost(cfg, s, now), dt, now, n);
    ElapsedIsProduct(dt, n);
  }

  /** UpdateEnergy: regenerate up to maxEnergy while the shield is down, drain toward 0 while it is up. */
  function UpdateEnergy(cfg: Config, s: Ship, dt: real): (r: Ship)
    ensures !s.isShieldActive ==> r.energy <= cfg.maxEnergy
    ensures !s.isShieldActive && s.energy + cfg.energyRegenRate * dt <= cfg.maxEnergy
            ==> r.energy == s.energy + cfg.energyRegenRate * dt
    ensures !s.isShieldActive && s.energy + cfg.energyRegenRate * dt > cfg.maxEnergy ==> r.energy == cfg.maxEnergy
    ensures s.isShieldActive ==> r.energy >= 0.0
    ensures s.isShieldActive && s.energy - cfg.shieldEnergyConsumption * dt >= 0.0
            ==> r.energy == s.energy - cfg.shieldEnergyConsumption * dt
    ensures s.isShieldActive && s.energy - cfg.shieldEnergyConsumption * dt < 0.0 ==> r.energy == 0.0
    ensures r.isShieldActive == s.isShieldActive && r.isBoostActive == s.isBoostActive
    ensures r == s.(energy := r.energy)
  {
    if !s.isShieldActive then s.(energy := Min(cfg.maxEnergy, s.energy + cfg.energyRegenRate * dt))
    else s.(energy := Max(0.0, s.energy - cfg.shieldEnergyConsumption * dt))
  }

  predicate EnergyInBounds(cfg: Config, s: Ship)
  {
    0.0 <= s.energy <= cfg.maxEnergy
  }

  /** With nonnegative rates and frame time, energy stays within [0, maxEnergy]. */
  lemma UpdateEnergyKeepsBounds(cfg: Config, s: Ship, dt: real)
    requires EnergyInBounds(cfg, s)
    requires cfg.energyRegenRate >= 0.0 && cfg.shieldEnergyConsumption >= 0.0 && dt >= 0.0
    ensures EnergyInBounds(cfg, UpdateEnergy(cfg, s, dt))
    ensures s.isShieldActive ==> UpdateEnergy(cfg, s, dt).energy <= s.energy
    ensures !s.isShieldActive ==> UpdateEnergy(cfg, s, dt).energy >= s.energy
  {
    MulNonneg(cfg.energyRegenRate, dt);
    MulNonneg(cfg.shieldEnergyConsumption, dt);
  }

  /**
   * Update: take the player's command when player-controlled, then timers,
   * energy and the shield toggle, in that order.
   */
  function Update(cfg: Config, s: Ship, playerInput: ControlState, dt: real, now: real): (r: Ship)
    ensures cfg.isPlayerControlled ==> r.control == playerInput
    ensures !cfg.isPlayerControlled ==> r.control == s.control
    ensures !r.input.shield
  {
    var s1 := if cfg.isPlayerControlled then ApplyControl(s, playerInput) else s;
    ToggleGravityShield(cfg, UpdateEnergy(cfg, UpdateTimers(s1, dt, now), dt), now)
  }

  /** Energy starts at maxEnergy and every Update keeps it within [0, maxEnergy]. */
  lemma UpdateKeepsEnergyInBounds(cfg: Config, s: Ship, playerInput: ControlState, dt: real, now: real)
    requires EnergyInBounds(cfg, s)
    requires cfg.energyRegenRate >= 0.0 && cfg.shieldEnergyConsumption >= 0.0 && dt >= 0.0
    ensures EnergyInBounds(cfg, Update(cfg, s, playerInput, dt, now))
  {
    var s1 := if cfg.isPlayerControlled then ApplyControl(s, playerInput) else s;
    UpdateEnergyKeepsBounds(cfg, UpdateTimers(s1, dt, now), dt);
  }

  lemma StartedInBounds(cfg: Config)
    requires cfg.maxEnergy >= 0.0
    ensures EnergyInBounds(cfg, Started(cfg))
  {
  }

  /** The energy bound holds after any run of frames from Start. */
  lemma {:induction false} EnergyAlwaysInBounds(cfg: Config, s: Ship, frames: seq<ControlState>, dt: real, now: real)
    requires EnergyInBounds(cfg, s)
    requires cfg.energyRegenRate >= 0.0 && cfg.shieldEnergyConsumption >= 0.0 && dt >= 0.0
    ensures EnergyInBounds(cfg, Run(cfg, s, frames, dt, now))
    decreases |frames|
  {
    if |frames| > 0 {
      UpdateKeepsEnergyInBounds(cfg, s, frames[0], dt, now);
      EnergyAlwaysInBounds(cfg, Update(cfg, s, frames[0], dt, now), frames[1..], dt, now + dt);
    }
  }

  /** Successive Updates at a fixed frame time, one command per frame. */
  function Run(cfg: Config, s: Ship, frames: seq<ControlState>, dt: real, now: real): Ship
    decreases |frames|
  {
    if |frames| == 0 then s
    else Run(cfg, Update(cfg, s, frames[0], dt, now), frames[1..], dt, now + dt)
  }

  // ---------------------------------------------------------------------------
  // Physics tick
  // ---------------------------------------------------------------------------

  /**
   * ApplyMovement: above the 0.01 dead zone the ship thrusts forward with
   * thrustForce, times boostMultiplier while a boost runs (`accel`), and
   * a held boost key starts a boost when allowed; the boost takes effect from
   * the next tick.
   */
  function ApplyMovement(cfg: Config, s: Ship, now: real): (res: (Ship, Option<real>))
    ensures var (r, accel) := res;
      && (accel.Some? <==> s.input.thrust > 0.01)
      && (accel.Some? && s.isBoostActive ==> accel.value == cfg.thrustForce * cfg.boostMultiplier)
      && (accel.Some? && !s.isBoostActive ==> accel.value == cfg.thrustForce)
      && r.isUsingThrusters == accel.Some?
      && (r.isBoostActive && !s.isBoostActive
          <==> s.input.thrust > 0.01 && s.input.boost && CanUseBoost(cfg, s, now))
      && (r.isBoostActive && !s.isBoostActive ==> r.boostTimer == cfg.boostDuration && r.lastBoostTime == now)
      && (s.isBoostActive ==> r.isBoostActive && r.boostTimer == s.boostTimer)
      && (!(r.isBoostActive && !s.isBoostActive) ==> r == s.(isUsingThrusters := r.isUsingThrusters))
      && (r.isBoostActive && !s.isBoostActive ==> r == ActivateBoost(cfg, s, now).(isUsingThrusters := true))
  {
    if s.input.thrust > 0.01 then
      var accel := cfg.thrustForce * (if s.isBoostActive then cfg.boostMultiplier else 1.0);
      var s1 := s.(isUsingThrusters := true);
      var s2 := if s.input.boost && CanUseBoost(cfg, s1, now) && !s1.isBoostActive then ActivateBoost(cfg, s1, now) else s1;
      (s2, Some(accel))
    else (s.(isUsingThrusters := false), None)
  }

  /**
   * Two ticks that both hold the boost key, the second within boostCooldown of
   * the first, never both start a boost: the first start stamps the time the
   * second one checks.
   */
  lemma NoSecondBoostWithinCooldown(cfg: Config, s: Ship, t: Ship, now: real, later: real)
    requires later - now <= cfg.boostCooldown
    requires ApplyMovement(cfg, s, now).0.isBoostActive && !s.isBoostActive
    requires t.lastBoostTime == ApplyMovement(cfg, s, now).0.lastBoostTime
    ensures !(ApplyMovement(cfg, t, later).0.isBoostActive && !t.isBoostActive)
  {
  }

  /** The braking deceleration: reach a stop in about brakeTimeTarget (at least 0.1 s), never above brakingAccel. */
  function BrakeDeceleration(cfg: Config, speed: real): (a: real)
    ensures a <= cfg.brakingAccel
    ensures a <= speed / Max(0.1, cfg.brakeTimeTarget)
    ensures a == cfg.brakingAccel || a == speed / Max(0.1, cfg.brakeTimeTarget)
  {
    Min(speed / Max(0.1, cfg.brakeTimeTarget), cfg.brakingAccel)
  }

  /** A positive speed and a positive brakingAccel always brake. */
  lemma BrakeDecelerationPositive(cfg: Config, speed: real)
    requires speed > 0.0 && cfg.brakingAccel > 0.0
    ensures BrakeDeceleration(cfg, speed) > 0.0
  {
    var t := Max(0.1, cfg.brakeTimeTarget);
    assert speed / t > 0.0;
  }

  /** What a braking tick does to the ship's velocity. */
  datatype BrakeOutcome =
    | NotBraking
      /** Below stopSpeedEpsilon the velocity is set to zero. */
    | Stopped
      /** Otherwise a force against the velocity, plus an optional retro force along the ship's forward axis. */
    | Decelerating(decel: real, force: Vec3, retro: Option<Vec3>)

  /** Mathf.Sign: 1 for zero and positive values, -1 for negative ones. */
  function Sign(f: real): (r: real)
    ensures f >= 0.0 ==> r == 1.0
    ensures f < 0.0 ==> r == -1.0
    ensures r * f == Abs(f)
    ensures r * r == 1.0
  {
    if f >= 0.0 then 1.0 else -1.0
  }

  function Dot(a: Vec3, b: Vec3): real
  {
    a.x * b.x + a.y * b.y + a.z * b.z
  }

  /**
   * ApplyBraking, given the velocity `v`, its magnitude `speed` and the
   * ship's forward axis. Only the decelerating branch clears the thruster
   * and boost flags; the stop branch returns before reaching them.
   */
  function ApplyBraking(cfg: Config, s: Ship, v: Vec3, speed: real, forward: Vec3): (res: (Ship, BrakeOutcome))
    ensures var (r, out) := res;
      && (!s.input.brake ==> r == s && out == NotBraking)
      && (s.input.brake && speed < cfg.stopSpeedEpsilon ==> r == s && out == Stopped)
      && (s.input.brake && speed >= cfg.stopSpeedEpsilon ==>
            && out.Decelerating? && out.decel == BrakeDeceleration(cfg, speed)
            && r == s.(isBoostActive := false, isUsingThrusters := false)
            && (out.retro.Some? <==> Abs(Dot(v, forward)) > 0.01 && cfg.retroBoostAccel > 0.0)
            && (out.retro.Some? ==> exists k: real :: out.retro.value == Scale(forward, k)))
  {
    if !s.input.brake then (s, NotBraking)
    else if speed < cfg.stopSpeedEpsilon then (s, Stopped)
    else
      var a := BrakeDeceleration(cfg, speed);
      var force := Scale(Neg(Normalized(v, speed)), a);
      var vForward := Dot(v, forward);
      var retro := if Abs(vForward) > 0.01 && cfg.retroBoostAccel > 0.0
        then Some(Scale(forward, -Sign(vForward) * cfg.retroBoostAccel)) else None;
      (s.(isUsingThrusters := false, isBoostActive := false), Decelerating(a, force, retro))
  }

  /** The braking force points against the velocity and its length is the chosen deceleration. */
  lemma BrakingForceOpposesVelocity(cfg: Config, s: Ship, v: Vec3, speed: real, forward: Vec3)
    requires s.input.brake && speed >= cfg.stopSpeedEpsilon
    requires IsMagnitude(v, speed) && speed > 0.0
    ensures var out := ApplyBraking(cfg, s, v, speed, forward).1;
      && out.Decelerating?
      && SqrMag(out.force) == Sq(out.decel)
      && (out.decel >= 0.0 ==> exists k: real :: k >= 0.0 && out.force == Scale(Neg(v), k))
  {
    var out := ApplyBraking(cfg, s, v, speed, forward).1;
    var a := BrakeDeceleration(cfg, speed);
    assert Neg(Normalized(v, speed)) == Normalized(Neg(v), speed);
    NegSqrMag(v);
    ScaledDirectionLength(Neg(v), speed, a);
    if a >= 0.0 {
      NonnegMultiple(Neg(v), speed, a);
    }
  }

  /** Dotting a vector scaled by k with itself gives k times its squared length. */
  lemma DotScaleSelf(a: Vec3, k: real)
    ensures Dot(Scale(a, k), a) == k * SqrMag(a)
  {
    Distrib3(Sq(a.x), Sq(a.y), Sq(a.z), k);
  }

  /** Scaling by -Sign(f) * a with a >= 0, then multiplying by q >= 0 and by f, never gives a positive value. */
  lemma SignedProductNonpos(f: real, a: real, q: real)
    requires a >= 0.0 && q >= 0.0
    ensures (-Sign(f) * a) * q * f <= 0.0
  {
    assert (-Sign(f) * a) * q * f == -((Sign(f) * f) * a * q);
    MulNonneg(Abs(f), a);
    MulNonneg(Abs(f) * a, q);
  }

  /** A vector scaled by -Sign(f) * a has squared length a^2 times that of the vector. */
  lemma SignedScaleSqrMag(v: Vec3, f: real, a: real)
    ensures SqrMag(Scale(v, -Sign(f) * a)) == Sq(a) * SqrMag(v)
  {
    ScaleSqrMag(v, -Sign(f) * a);
    SqMul(-Sign(f), a);
    assert Sq(-Sign(f)) == 1.0;
  }

  /**
   * The retro force works against the ship's motion along its forward axis,
   * and for a unit forward axis its length is retroBoostAccel.
   */
  lemma RetroOpposesForward(cfg: Config, s: Ship, v: Vec3, speed: real, forward: Vec3)
    requires s.input.brake && speed >= cfg.stopSpeedEpsilon
    ensures var out := ApplyBraking(cfg, s, v, speed, forward).1;
      out.Decelerating? && out.retro.Some? ==>
        && Dot(out.retro.value, forward) * Dot(v, forward) <= 0.0
        && (SqrMag(forward) == 1.0 ==> SqrMag(out.retro.value) == Sq(cfg.retroBoostAccel))
  {
    var out := ApplyBraking(cfg, s, v, speed, forward).1;
    if out.Decelerating? && out.retro.Some? {
      var vf := Dot(v, forward);
      var k := -Sign(vf) * cfg.retroBoostAccel;
      assert out.retro.value == Scale(forward, k);
      DotScaleSelf(forward, k);
      SqrMagNonneg(forward);
      SignedProductNonpos(vf, cfg.retroBoostAccel, SqrMag(forward));
      SignedScaleSqrMag(forward, vf, cfg.retroBoostAccel);
    }
  }

  /** ApplySpeedLimit, given the velocity and its magnitude: above maxSpeed, rescale to maxSpeed. */
  function ApplySpeedLimit(cfg: Config, v: Vec3, speed: real): (w: Vec3)
    ensures speed <= cfg.maxSpeed ==> w == v
  {
    if speed > cfg.maxSpeed then Scale(Normalized(v, speed), cfg.maxSpeed) else v
  }

  /**
   * After the cap the squared speed is at most maxSpeed^2, a velocity within
   * the cap is untouched, and a capped one keeps its direction.
   */
  lemma SpeedLimitBounds(cfg: Config, v: Vec3, speed: real)
    requires IsMagnitude(v, speed) && cfg.maxSpeed >= 0.0
    ensures SqrMag(ApplySpeedLimit(cfg, v, speed)) <= Sq(cfg.maxSpeed)
    ensures speed <= cfg.maxSpeed ==> ApplySpeedLimit(cfg, v, speed) == v
    ensures speed > cfg.maxSpeed ==> SqrMag(ApplySpeedLimit(cfg, v, speed)) == Sq(cfg.maxSpeed)
    ensures exists k: real :: k >= 0.0 && ApplySpeedLimit(cfg, v, speed) == Scale(v, k)
  {
    if speed > cfg.maxSpeed {
      ScaledDirectionLength(v, speed, cfg.maxSpeed);
      NonnegMultiple(v, speed, cfg.maxSpeed);
    } else {
      SquareMono(speed, cfg.maxSpeed);
      assert v == Scale(v, 1.0);
    }
  }
}
