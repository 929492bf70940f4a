/**
 * PauseManager: a pause toggle that freezes time, shows a pause panel, frees
 * the cursor and optionally pauses all audio, and undoes all of that on
 * resume. The engine globals it writes (Time.timeScale, AudioListener.pause
 * and the cursor) are a record passed through every operation.
 */
module Pause {

  datatype CursorLockMode = Unlocked | Locked | Confined

  /** The engine-wide state the pause menu reads and writes. */
  datatype Globals = Globals(
    timeScale: real,
    audioPaused: bool,
    cursorLock: CursorLockMode,
    cursorVisible: bool)

  /** The panel and its CanvasGroup; each may be unassigned, in which case its fields are never written. */
  datatype PauseUi = PauseUi(
    panelActive: bool,
    alpha: real,
    interactable: bool,
    blocksRaycasts: bool)

  datatype PauseConfig = PauseConfig(
    pauseAudio: bool,
    lockCursorOnResume: bool,
    hasPanel: bool,
    hasCanvasGroup: bool)

  datatype PauseMenu = PauseMenu(
    isPaused: bool,
    /** AudioListener.pause as it was when the game was paused. */
    previousAudioPause: bool,
    ui: PauseUi,
    globals: Globals)

  /** The panel shown and the canvas visible and clickable, where present. */
  predicate Shown(cfg: PauseConfig, ui: PauseUi)
  {
    && (cfg.hasPanel ==> ui.panelActive)
    && (cfg.hasCanvasGroup ==> ui.alpha == 1.0 && ui.interactable && ui.blocksRaycasts)
  }

  /** The panel hidden and the canvas transparent and inert, where present. */
  predicate Hidden(cfg: PauseConfig, ui: PauseUi)
  {
    && (cfg.hasPanel ==> !ui.panelActive)
    && (cfg.hasCanvasGroup ==> ui.alpha == 0.0 && !ui.interactable && !ui.blocksRaycasts)
  }

  function ShowUi(cfg: PauseConfig, ui: PauseUi): (r: PauseUi)
    ensures Shown(cfg, r)
    ensures !cfg.hasPanel ==> r.panelActive == ui.panelActive
    ensures !cfg.hasCanvasGroup ==> r.(panelActive := ui.panelActive) == ui
  {
    var u1 := if cfg.hasPanel then ui.(panelActive := true) else ui;
    if cfg.hasCanvasGroup then u1.(alpha := 1.0, interactable := true, blocksRaycasts := true) else u1
  }

  function HideUi(cfg: PauseConfig, ui: PauseUi): (r: PauseUi)
    ensures Hidden(cfg, r)
    ensures !cfg.hasPanel ==> r.panelActive == ui.panelActive
    ensures !cfg.hasCanvasGroup ==> r.(panelActive := ui.panelActive) == ui
  {
    var u1 := if cfg.hasCanvasGroup then ui.(interactable := false, blocksRaycasts := false, alpha := 0.0) else ui;
    if cfg.hasPanel then u1.(panelActive := false) else u1
  }

  /** Awake: the menu starts hidden and unpaused. */
  function Awake(cfg: PauseConfig, ui: PauseUi, globals: Globals): (m: PauseMenu)
    ensures !m.isPaused && Hidden(cfg, m.ui) && m.globals == globals
  {
    var u1 := if cfg.hasPanel then ui.(panelActive := false) else ui;
    var u2 := if cfg.hasCanvasGroup then u1.(alpha := 0.0, interactable := false, blocksRaycasts := false) else u1;
    PauseMenu(false, false, u2, globals)
  }

  /** Pause: freeze time, show the menu, free the cursor, pause audio when configured; no effect when already paused. */
  function Pause(cfg: PauseConfig, m: PauseMenu): (r: PauseMenu)
    ensures r.isPaused
    ensures m.isPaused ==> r == m
    ensures !m.isPaused ==>
      && r.previousAudioPause == m.globals.audioPaused
      && r.globals.timeScale == 0.0
      && Shown(cfg, r.ui)
      && r.globals.cursorLock == Unlocked && r.globals.cursorVisible
      && r.globals.audioPaused == (cfg.pauseAudio || m.globals.audioPaused)
  {
    if m.isPaused then m
    else
      var g := m.globals.(timeScale := 0.0, cursorLock := Unlocked, cursorVisible := true);
      var g1 := if cfg.pauseAudio then g.(audioPaused := true) else g;
      PauseMenu(true, m.globals.audioPaused, ShowUi(cfg, m.ui), g1)
  }

  /** Audio is released on leaving the pause only if the pause itself silenced it. */
  function RestoreAudio(cfg: PauseConfig, m: PauseMenu, g: Globals): (r: Globals)
    ensures r == g.(audioPaused := r.audioPaused)
    ensures cfg.pauseAudio && !m.previousAudioPause ==> !r.audioPaused
    ensures !(cfg.pauseAudio && !m.previousAudioPause) ==> r.audioPaused == g.audioPaused
  {
    if cfg.pauseAudio && !m.previousAudioPause then g.(audioPaused := false) else g
  }

  /** Resume: restart time, hide the menu, restore audio and optionally lock the cursor; no effect when not paused. */
  function Resume(cfg: PauseConfig, m: PauseMenu): (r: PauseMenu)
    ensures !r.isPaused
    ensures !m.isPaused ==> r == m
    ensures m.isPaused ==>
      && r.globals.timeScale == 1.0
      && Hidden(cfg, r.ui)
      && (cfg.lockCursorOnResume ==> r.globals.cursorLock == Locked && !r.globals.cursorVisible)
      && (!cfg.lockCursorOnResume ==> r.globals.cursorLock == m.globals.cursorLock
                                      && r.globals.cursorVisible == m.globals.cursorVisible)
  {
    if !m.isPaused then m
    else
      var g := RestoreAudio(cfg, m, m.globals.(timeScale := 1.0));
      var g1 := if cfg.lockCursorOnResume then g.(cursorLock := Locked, cursorVisible := false) else g;
      m.(isPaused := false, ui := HideUi(cfg, m.ui), globals := g1)
  }

  lemma PauseIdempotent(cfg: PauseConfig, m: PauseMenu)
    ensures Pause(cfg, Pause(cfg, m)) == Pause(cfg, m)
  {
  }

  lemma ResumeIdempotent(cfg: PauseConfig, m: PauseMenu)
    ensures Resume(cfg, Resume(cfg, m)) == Resume(cfg, m)
  {
  }

  /** Pausing and resuming leaves AudioListener.pause as it was before the pause. */
  lemma PauseResumeRestoresAudio(cfg: PauseConfig, m: PauseMenu)
    requires !m.isPaused
    ensures Resume(cfg, Pause(cfg, m)).globals.audioPaused == m.globals.audioPaused
    ensures !cfg.pauseAudio ==> Pause(cfg, m).globals.audioPaused == m.globals.audioPaused
    ensures Resume(cfg, Pause(cfg, m)).globals.timeScale == 1.0
  {
  }

  /** Update: the toggle key resumes a paused game and pauses a running one. */
  function Update(cfg: PauseConfig, m: PauseMenu, toggleKeyDown: bool): (r: PauseMenu)
    ensures toggleKeyDown ==> r.isPaused == !m.isPaused
    ensures !toggleKeyDown ==> r == m
  {
    if toggleKeyDown then (if m.isPaused then Resume(cfg, m) else Pause(cfg, m)) else m
  }

  /** Two presses of the toggle key bring a running game back to running with time at normal speed. */
  lemma ToggleTwice(cfg: PauseConfig, m: PauseMenu)
    requires !m.isPaused
    ensures !Update(cfg, Update(cfg, m, true), true).isPaused
    ensures Update(cfg, Update(cfg, m, true), true).globals.audioPaused == m.globals.audioPaused
    ensures Update(cfg, Update(cfg, m, true), true).globals.timeScale == 1.0
  {
    PauseResumeRestoresAudio(cfg, m);
  }

  /** OnDisable: leave the pause if in one (time and audio only) and hide the menu in every case. */
  function OnDisable(cfg: PauseConfig, m: PauseMenu): (r: PauseMenu)
    ensures !r.isPaused && Hidden(cfg, r.ui)
    ensures m.isPaused ==> r.globals == RestoreAudio(cfg, m, m.globals.(timeScale := 1.0))
    ensures !m.isPaused ==> r.globals == m.globals
  {
    var m1 :=
      if m.isPaused then m.(isPaused := false, globals := RestoreAudio(cfg, m, m.globals.(timeScale := 1.0)))
      else m;
    m1.(ui := HideUi(cfg, m1.ui))
  }

  /** Disabling a paused menu restores time and audio like Resume does, but leaves the cursor alone. */
  lemma OnDisableMatchesResume(cfg: PauseConfig, m: PauseMenu)
    requires m.isPaused
    ensures OnDisable(cfg, m).globals.timeScale == Resume(cfg, m).globals.timeScale
    ensures OnDisable(cfg, m).globals.audioPaused == Resume(cfg, m).globals.audioPaused
    ensures OnDisable(cfg, m).globals.cursorLock == m.globals.cursorLock
    ensures OnDisable(cfg, m).ui == Resume(cfg, m).ui
  {
  }
}
