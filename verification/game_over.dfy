/**
 * The part of GameOverManager that other scripts drive: the lose screen is a
 * one-shot "shown" latch, and a message can be set on it. The panel, fades,
 * the deferred pause and scene loading are not modelled.
 */
module LoseScreen {

  import opened Wrappers

  datatype LoseManager = LoseManager(
    shown: bool,
    /** The text of the message label. */
    message: string,
    /** How many times the screen has actually been brought up. */
    showings: nat)

  /** SetMessage: replace the label's text; it does not matter whether the screen is up. */
  function SetMessage(m: LoseManager, text: string): (r: LoseManager)
    ensures r.message == text
    ensures r.shown == m.shown && r.showings == m.showings
  {
    m.(message := text)
  }

  /** HandleLose: the first call brings the screen up; later calls do nothing. */
  function HandleLose(m: LoseManager): (r: LoseManager)
    ensures r.shown
    ensures m.shown ==> r == m
    ensures !m.shown ==> r.showings == m.showings + 1 && r.message == m.message
  {
    if m.shown then m else m.(shown := true, showings := m.showings + 1)
  }

  lemma HandleLoseIdempotent(m: LoseManager)
    ensures HandleLose(HandleLose(m)) == HandleLose(m)
  {
  }

  /**
   * The lose request made by the autopilot at the end of its route and by a
   * ring touched by the wrong tag: nothing without a manager; otherwise a
   * non-empty message is set, then HandleLose runs.
   */
  function RequestLose(manager: Option<LoseManager>, text: string): (r: Option<LoseManager>)
    ensures manager.None? <==> r.None?
    ensures manager.Some? ==> r.value.shown
    ensures manager.Some? && |text| > 0 ==> r.value.message == text
    ensures manager.Some? && |text| == 0 ==> r.value.message == manager.value.message
    ensures manager.Some? && manager.value.shown && |text| == 0 ==> r == manager
    ensures manager.Some? ==> r.value.showings == manager.value.showings + (if manager.value.shown then 0 else 1)
  {
    match manager
    case None => None
    case Some(m) =>
      var m1 := if |text| > 0 then SetMessage(m, text) else m;
      Some(HandleLose(m1))
  }

  /** The screen has come up at most once, and exactly once if it is showing. */
  predicate ShownOnce(m: LoseManager)
  {
    m.showings <= 1 && (m.showings == 1 <==> m.shown)
  }

  /** A lose request keeps the screen from coming up a second time. */
  lemma RequestKeepsShownOnce(manager: Option<LoseManager>, text: string)
    requires manager.Some? ==> ShownOnce(manager.value)
    ensures RequestLose(manager, text).Some? ==> ShownOnce(RequestLose(manager, text).value)
  {
  }

  /** However many lose requests arrive, the screen comes up at most once. */
  lemma {:induction false} ShownAtMostOnce(m: LoseManager, texts: seq<string>)
    requires ShownOnce(m)
    ensures ShownOnce(RequestAll(m, texts))
    decreases |texts|
  {
    if |texts| > 0 {
      var next := RequestLose(Some(m), texts[0]).value;
      ShownAtMostOnce(next, texts[1..]);
    }
  }

  /** A run of lose requests against one manager, in order. */
  function RequestAll(m: LoseManager, texts: seq<string>): LoseManager
    decreases |texts|
  {
    if |texts| == 0 then m else RequestAll(RequestLose(Some(m), texts[0]).value, texts[1..])
  }
}
