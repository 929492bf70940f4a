/**
 * RingPickup: a trigger ring that is collected by the player's ship and makes
 * the player lose when an object with the lose tag flies through it.
 */
module Ring {

  import opened Wrappers
  import opened LoseScreen

  /** What the ring sees of the collider entering it. */
  datatype Visitor = Visitor(tag: string, hasSpaceshipController: bool)

  datatype RingConfig = RingConfig(
    /** The tag that may collect the ring; empty means "anything with a SpaceshipController". */
    requiredTag: string,
    destroyOnPickup: bool,
    hasObjectToActivate: bool,
    /** The tag that makes the player lose; empty disables the rule. */
    loseOnTag: string,
    loseMessage: string)

  datatype RingState = RingState(
    active: bool,
    destroyed: bool,
    objectActivated: bool,
    /** How many times onCollected has been invoked. */
    collectedEvents: nat)

  datatype Verdict = Lose | Ignore | Collect

  /** The decision OnTriggerEnter takes for a visitor. */
  function Classify(cfg: RingConfig, other: Visitor): (v: Verdict)
    ensures v == Lose <==> |cfg.loseOnTag| > 0 && other.tag == cfg.loseOnTag
    ensures v == Collect <==>
      && !(|cfg.loseOnTag| > 0 && other.tag == cfg.loseOnTag)
      && (if |cfg.requiredTag| > 0 then other.tag == cfg.requiredTag else other.hasSpaceshipController)
  {
    if |cfg.loseOnTag| > 0 && other.tag == cfg.loseOnTag then Lose
    else if |cfg.requiredTag| > 0 then (if other.tag != cfg.requiredTag then Ignore else Collect)
    else if !other.hasSpaceshipController then Ignore
    else Collect
  }

  /** With distinct non-empty lose and required tags, the required tag always collects. */
  lemma RequiredTagCollects(cfg: RingConfig, other: Visitor)
    requires |cfg.requiredTag| > 0 && cfg.requiredTag != cfg.loseOnTag && other.tag == cfg.requiredTag
    ensures Classify(cfg, other) == Collect
  {
  }

  /** A lose tag equal to the required tag wins: that visitor never collects. */
  lemma LoseTagTakesPrecedence(cfg: RingConfig, other: Visitor)
    requires |cfg.loseOnTag| > 0 && other.tag == cfg.loseOnTag
    ensures Classify(cfg, other) == Lose
    ensures OnTriggerEnter(cfg, RingState(true, false, false, 0), other, None).0.collectedEvents == 0
  {
  }

  /** With a required tag set, only the tag matters: a SpaceshipController neither helps nor hurts. */
  lemma TaggedRingIgnoresController(cfg: RingConfig, other: Visitor, hasController: bool)
    requires |cfg.requiredTag| > 0
    ensures Classify(cfg, other) == Classify(cfg, other.(hasSpaceshipController := hasController))
  {
  }

  /** With no lose tag, nothing a visitor does can make the player lose. */
  lemma NoLoseTagNeverLoses(cfg: RingConfig, other: Visitor)
    requires |cfg.loseOnTag| == 0
    ensures Classify(cfg, other) != Lose
  {
  }

  /**
   * TriggerLose: report to the lose screen, if one is assigned. The manager is
   * the scene's one GameOverManager, passed in and handed back.
   */
  function TriggerLose(cfg: RingConfig, manager: Option<LoseManager>): (r: Option<LoseManager>)
    ensures manager.None? ==> r.None?
    ensures manager.Some? ==> r.Some? && r.value.shown
    ensures manager.Some? && |cfg.loseMessage| > 0 ==> r.value.message == cfg.loseMessage
    ensures manager.Some? && manager.value.shown ==> r.value.showings == manager.value.showings
    ensures manager.Some? && !manager.value.shown ==> r.value.showings == manager.value.showings + 1
  {
    RequestLose(manager, cfg.loseMessage)
  }

  /**
   * OnTriggerEnter: lose, ignore, or collect. Collecting switches on the
   * linked object, fires onCollected, and then either destroys or
   * deactivates the ring.
   */
  function OnTriggerEnter(cfg: RingConfig, ring: RingState, other: Visitor, manager: Option<LoseManager>)
    : (res: (RingState, Option<LoseManager>))
    ensures Classify(cfg, other) == Lose ==> res == (ring, TriggerLose(cfg, manager))
    ensures Classify(cfg, other) == Ignore ==> res == (ring, manager)
    ensures Classify(cfg, other) == Collect ==>
      var r := res.0;
      && r.collectedEvents == ring.collectedEvents + 1
      && (cfg.hasObjectToActivate ==> r.objectActivated)
      && (!cfg.hasObjectToActivate ==> r.objectActivated == ring.objectActivated)
      && (cfg.destroyOnPickup ==> r.destroyed && r.active == ring.active)
      && (!cfg.destroyOnPickup ==> !r.active && r.destroyed == ring.destroyed)
      && res.1 == manager
    ensures res.1 == manager || res.1 == RequestLose(manager, cfg.loseMessage)
  {
    match Classify(cfg, other)
    case Lose => (ring, TriggerLose(cfg, manager))
    case Ignore => (ring, manager)
    case Collect =>
      var r1 := if cfg.hasObjectToActivate then ring.(objectActivated := true) else ring;
      var r2 := r1.(collectedEvents := r1.collectedEvents + 1);
      (if cfg.destroyOnPickup then r2.(destroyed := true) else r2.(active := false), manager)
  }

  /** A pickup removes a live, active ring from play in exactly one of the two ways. */
  lemma CollectRemovesOnce(cfg: RingConfig, ring: RingState, other: Visitor, manager: Option<LoseManager>)
    requires ring.active && !ring.destroyed && Classify(cfg, other) == Collect
    ensures var r := OnTriggerEnter(cfg, ring, other, manager).0;
      (r.destroyed && r.active) || (!r.destroyed && !r.active)
  {
  }
}
