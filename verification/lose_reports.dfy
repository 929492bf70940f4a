/**
 * The scene's one GameOverManager is shared: every RingPickup and the
 * SpaceshipAIController serialise a reference to the same object. Each owner's
 * operation takes the manager and hands it back, so a run of reports from any
 * mix of owners acts on a single lose screen.
 */
module LoseReports {

  import opened Wrappers
  import opened LoseScreen
  import Ring
  import Autopilot

  /** One event that may report to the shared manager. */
  datatype Report =
    | RingEntered(ringCfg: Ring.RingConfig, ring: Ring.RingState, visitor: Ring.Visitor)
    | RouteFinished(pilotCfg: Autopilot.PilotConfig, pilot: Autopilot.Pilot)

  /** The manager after one report. */
  function Deliver(manager: Option<LoseManager>, report: Report): (m: Option<LoseManager>)
    ensures m.Some? <==> manager.Some?
    ensures m == manager || m == RequestLose(manager, if report.RingEntered? then report.ringCfg.loseMessage
                                                      else report.pilotCfg.loseMessage)
  {
    match report
    case RingEntered(rc, ring, visitor) => Ring.OnTriggerEnter(rc, ring, visitor, manager).1
    case RouteFinished(pc, pilot) => Autopilot.HandleRouteFinished(pc, pilot, manager).1
  }

  /** The manager after a run of reports, in order. */
  function DeliverAll(manager: Option<LoseManager>, reports: seq<Report>): (m: Option<LoseManager>)
    ensures m.Some? <==> manager.Some?
    ensures manager.Some? ==> m.value.showings >= manager.value.showings
    decreases |reports|
  {
    if |reports| == 0 then manager else DeliverAll(Deliver(manager, reports[0]), reports[1..])
  }

  /**
   * However ring losses and route ends interleave, the one lose screen comes
   * up at most once, and an assigned manager stays assigned.
   */
  lemma {:induction false} SharedScreenShownAtMostOnce(manager: Option<LoseManager>, reports: seq<Report>)
    requires manager.Some? ==> ShownOnce(manager.value)
    ensures DeliverAll(manager, reports).Some? <==> manager.Some?
    ensures DeliverAll(manager, reports).Some? ==> ShownOnce(DeliverAll(manager, reports).value)
    decreases |reports|
  {
    if |reports| > 0 {
      var next := Deliver(manager, reports[0]);
      match reports[0] {
        case RingEntered(rc, ring, visitor) => RequestKeepsShownOnce(manager, rc.loseMessage);
        case RouteFinished(pc, pilot) => RequestKeepsShownOnce(manager, pc.loseMessage);
      }
      SharedScreenShownAtMostOnce(next, reports[1..]);
    }
  }

  /** After a ring has shown the screen, the autopilot's route end does not show it again. */
  lemma RingLossThenRouteEnd(rc: Ring.RingConfig, ring: Ring.RingState, visitor: Ring.Visitor,
                             pc: Autopilot.PilotConfig, pilot: Autopilot.Pilot, m: LoseManager)
    requires ShownOnce(m) && Ring.Classify(rc, visitor) == Ring.Lose
    ensures var afterRing := Ring.OnTriggerEnter(rc, ring, visitor, Some(m)).1;
      var afterRoute := Autopilot.HandleRouteFinished(pc, pilot, afterRing).1;
      afterRoute.Some? && afterRoute.value.showings == afterRing.value.showings && afterRoute.value.showings <= 1
  {
  }
}
