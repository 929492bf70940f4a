/**
 * MouseFlightOneCamOnly (MouseFlightController.cs): the pause test that hides
 * the aiming HUD, and the rule that decides whether this ship's camera is the
 * one the mouse is steering. Whether a camera's pixel rectangle contains the
 * current mouse position is the engine's Rect.Contains, given per camera.
 */
module MouseFlight {

  import opened Wrappers

  datatype FlightConfig = FlightConfig(respectTimescalePause: bool, hasCanvas: bool)

  /** The engine state the pause test reads. */
  datatype Env = Env(isPlaying: bool, timeScale: real)

  datatype FlightHud = FlightHud(manualPaused: bool, lastPaused: bool, canvasActive: bool)

  /** IsPaused: not playing, paused by hand, or (when respected) time stopped. */
  function IsPaused(cfg: FlightConfig, hud: FlightHud, env: Env): (p: bool)
    ensures p <==> !env.isPlaying || hud.manualPaused || (cfg.respectTimescalePause && env.timeScale <= 0.0)
  {
    if !env.isPlaying then true
    else if hud.manualPaused then true
    else if cfg.respectTimescalePause && env.timeScale <= 0.0 then true
    else false
  }

  /** With the time-scale rule off, the pause state does not depend on Time.timeScale at all. */
  lemma PauseIgnoresTimeScale(cfg: FlightConfig, hud: FlightHud, env: Env, timeScale: real)
    requires !cfg.respectTimescalePause
    ensures IsPaused(cfg, hud, env) == IsPaused(cfg, hud, env.(timeScale := timeScale))
  {
  }

  /** A manual pause, or leaving play mode, pauses whatever the other inputs say. */
  lemma ManualPauseWins(cfg: FlightConfig, hud: FlightHud, env: Env)
    requires hud.manualPaused || !env.isPlaying
    ensures IsPaused(cfg, hud, env)
    ensures IsPaused(cfg.(respectTimescalePause := !cfg.respectTimescalePause), hud, env.(timeScale := 1.0))
  {
  }

  /** The HUD agrees with the pause state it last applied, and that is the current one. */
  predicate InSync(cfg: FlightConfig, hud: FlightHud, env: Env)
  {
    && hud.lastPaused == IsPaused(cfg, hud, env)
    && (cfg.hasCanvas ==> hud.canvasActive == !hud.lastPaused)
  }

  /** UpdateCanvasActive: show the canvas exactly when not paused, and remember the value applied. */
  function UpdateCanvasActive(cfg: FlightConfig, hud: FlightHud, env: Env): (r: FlightHud)
    ensures InSync(cfg, r, env)
    ensures r.manualPaused == hud.manualPaused
    ensures !cfg.hasCanvas ==> r.canvasActive == hud.canvasActive
  {
    var paused := IsPaused(cfg, hud, env);
    var h1 := if cfg.hasCanvas then hud.(canvasActive := !paused) else hud;
    h1.(lastPaused := paused)
  }

  /** SetPaused: the manual pause, applied to the canvas at once. */
  function SetPaused(cfg: FlightConfig, hud: FlightHud, paused: bool, env: Env): (r: FlightHud)
    ensures r.manualPaused == paused
    ensures InSync(cfg, r, env)
    ensures paused ==> r.lastPaused && (cfg.hasCanvas ==> !r.canvasActive)
  {
    UpdateCanvasActive(cfg, hud.(manualPaused := paused), env)
  }

  /** Update: resynchronise the canvas only when the pause state has changed since it was last applied. */
  function Update(cfg: FlightConfig, hud: FlightHud, env: Env): (r: FlightHud)
    ensures (cfg.hasCanvas ==> hud.canvasActive == !hud.lastPaused) ==> InSync(cfg, r, env)
    ensures hud.lastPaused == IsPaused(cfg, hud, env) ==> r == hud
    ensures hud.lastPaused != IsPaused(cfg, hud, env) ==> r == UpdateCanvasActive(cfg, hud, env)
  {
    if IsPaused(cfg, hud, env) != hud.lastPaused then UpdateCanvasActive(cfg, hud, env) else hud
  }

  /** In a synchronised HUD, an Update with the same pause state does nothing. */
  lemma UpdateStable(cfg: FlightConfig, hud: FlightHud, env: Env)
    requires InSync(cfg, hud, env)
    ensures Update(cfg, hud, env) == hud
  {
  }

  /** After Start (UpdateCanvasActive) and any Update, the HUD is synchronised. */
  lemma UpdateKeepsSync(cfg: FlightConfig, hud: FlightHud, env0: Env, env: Env)
    requires InSync(cfg, hud, env0)
    ensures InSync(cfg, Update(cfg, hud, env), env)
  {
  }

  // ---------------------------------------------------------------------------
  // Which camera the mouse steers
  // ---------------------------------------------------------------------------

  datatype Cam = Cam(
    /** Object identity. */
    id: nat,
    /** False for a destroyed camera still referenced (Unity's `!c`). */
    alive: bool,
    isActiveAndEnabled: bool,
    targetDisplay: int,
    depth: real,
    /** pixelRect.Contains(Input.mousePosition). */
    containsMouse: bool)

  /** Camera `c` is drawn over `me` under the mouse: another live, enabled camera on the same display with greater depth. */
  predicate Covers(c: Cam, me: Cam)
  {
    && c.alive && c.isActiveAndEnabled && c.id != me.id
    && c.targetDisplay == me.targetDisplay
    && c.containsMouse
    && c.depth > me.depth
  }

  /** The reference statement of "this camera is active under the mouse". */
  predicate ActiveUnderMouse(cam: Option<Cam>, allCameras: seq<Cam>)
  {
    && cam.Some? && cam.value.alive && cam.value.isActiveAndEnabled
    && cam.value.containsMouse
    && forall i :: 0 <= i < |allCameras| ==> !Covers(allCameras[i], cam.value)
  }

  /** IsThisCameraActiveUnderMouse: the scan over Camera.allCameras with an early exit. */
  method IsThisCameraActiveUnderMouse(cam: Option<Cam>, allCameras: seq<Cam>) returns (active: bool)
    ensures active <==> ActiveUnderMouse(cam, allCameras)
  {
    if cam.None? || !cam.value.alive || !cam.value.isActiveAndEnabled {
      return false;
    }
    var me := cam.value;
    if !me.containsMouse {
      return false;
    }
    var i := 0;
    while i < |allCameras|
      invariant 0 <= i <= |allCameras|
      invariant forall j :: 0 <= j < i ==> !Covers(allCameras[j], me)
    {
      var c := allCameras[i];
      if !c.alive || !c.isActiveAndEnabled || c.id == me.id {
        i := i + 1;
        continue;
      }
      if c.targetDisplay != me.targetDisplay {
        i := i + 1;
        continue;
      }
      if !c.containsMouse {
        i := i + 1;
        continue;
      }
      if c.depth > me.depth {
        return false;
      }
      i := i + 1;
    }
    return true;
  }

  /** A camera of equal depth never blocks: adding one leaves the answer unchanged. */
  lemma EqualDepthNeverBlocks(cam: Cam, other: Cam, allCameras: seq<Cam>)
    requires other.depth == cam.depth
    ensures ActiveUnderMouse(Some(cam), allCameras + [other]) <==> ActiveUnderMouse(Some(cam), allCameras)
  {
    var extended := allCameras + [other];
    assert !Covers(other, cam);
    assert forall i :: 0 <= i < |allCameras| ==> extended[i] == allCameras[i];
    assert extended[|allCameras|] == other;
  }

  /**
   * The gate at the top of FixedUpdate: the mouse steers the ship only when
   * not paused, with a camera, and with that camera active under the mouse.
   */
  method SteersThisTick(cfg: FlightConfig, hud: FlightHud, env: Env, cam: Option<Cam>, allCameras: seq<Cam>)
    returns (steers: bool)
    ensures steers <==> !IsPaused(cfg, hud, env) && cam.Some? && cam.value.alive && ActiveUnderMouse(cam, allCameras)
  {
    if IsPaused(cfg, hud, env) || cam.None? || !cam.value.alive {
      return false;
    }
    steers := IsThisCameraActiveUnderMouse(cam, allCameras);
  }
}
