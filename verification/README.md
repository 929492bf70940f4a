# SpaceRacing core, modelled in Dafny

This project models the engine-free decision logic of the SpaceRacing Unity
scripts and proves properties of it. It covers:

- **Gravity field.** `SpaceGravitySource` keeps a registry of live sources. Each source has a pull
  with softening, a minimum distance, a falloff curve and a cap, plus an event-horizon test.
- **Gravity body.** Each tick, `SpaceGravityBody` filters the registered sources by reach, keeps the
  nearest N, sums their pulls, and picks the dominant source. It attenuates the sum while the ship's
  shield is up, and has a one-shot lose latch.
- **Ship controller.** `SpaceshipController` clamps control input, runs the boost and shield timers,
  cooldowns and energy budget, and handles the shield toggle, the braking choice and the speed cap.
- **Autopilot.** `SpaceshipAIController` moves a waypoint index, fires a route-finished event, and
  computes a throttle blend and steering commands.
- **Pause menu.** `PauseManager` pauses and resumes time, the menu, the cursor and audio.
- **Camera switcher.** `CameraViewSwitcher` switches between the first-person and third-person
  cameras and retargets the canvas.
- **Ring.** `RingPickup` decides whether a ring is collected, causes a loss, or ignores the visitor.
- **Mouse flight.** `MouseFlightController` has a pause test, keeps its HUD in sync with it, and
  decides which camera the mouse steers.

Everything is a pure function or a small method over immutable records. `float` becomes `real`.
Engine state the scripts read or write is passed in and returned as parameters and records. This
covers `Time.time`, `deltaTime`, `Time.timeScale`, `AudioListener.pause`, the cursor and
`Application.isPlaying`.

Host computations are represented as follows:

- **Vector length.** `Vector3.magnitude` is a parameter `norm: Vec3 -> real`, or a distance or speed
  argument. Lemmas that need it to be exact require `IsMagnitude(v, m)`, that is `m >= 0 && m*m == |v|^2`.
- **Normalisation.** `Vector3.normalized` is `v / m` for `m > 0` and zero otherwise.
- **Falloff curve.** `AnimationCurve.Evaluate` is an uninterpreted `falloff: real -> real`.
- **Object identity.** An object is a `nat` id. A registered id missing from the scene map is a
  destroyed object, which the scripts skip with `if (!s)`.
- **Events.** A `UnityEvent` invocation is counted.
- **GameOverManager.HandleLose.** It is the one-shot "shown" latch in `LoseScreen`. The scene has one
  GameOverManager that every ring and the autopilot reference. So their operations take that manager
  as an argument and hand it back, and `LoseReports` runs their reports against the one value.

Files:

| file | module | models |
|---|---|---|
| wrappers.dfy | Wrappers | `Option` |
| mathf.dfy | Mathf | Unity's `Mathf.Max/Min/Abs/Clamp/Clamp01/Lerp` on `real`, and order facts about squares and quotients |
| vectors.dfy | Vectors | `Vector3` arithmetic, squared magnitude, normalisation |
| gravity_source.dfy | GravitySource | `SpaceGravitySource` |
| gravity_body.dfy | GravityBody | `SpaceGravityBody` |
| game_over.dfy | LoseScreen | `GameOverManager.HandleLose/SetMessage` as a latch |
| spaceship.dfy | Spaceship | `SpaceshipController` |
| autopilot.dfy | Autopilot | `SpaceshipAIController` |
| pause.dfy | Pause | `PauseManager` |
| camera_view.dfy | CameraView | `CameraViewSwitcher` |
| ring_pickup.dfy | Ring | `RingPickup` |
| lose_reports.dfy | LoseReports | rings and the autopilot reporting to the one shared GameOverManager |
| mouse_flight.dfy | MouseFlight | `MouseFlightController` (pause and camera rules) |

**Braking and boost.** The braking tick clears the boost only when it decelerates. Below
`stopSpeedEpsilon` the script zeroes the velocity and returns before the line that clears the boost.
So a stopped ship keeps a running boost, and the model follows the code
(`Spaceship.ApplyBraking`).

## Model

| member | source | states |
|---|---|---|
| GravitySource.Register | Assets/PolygonSciFiSpace/Scripts/SpaceGravitySource.cs:46-50 | OnEnable adds the source only if absent: the result holds exactly the old members plus the source, is unchanged when it was present, and a duplicate-free registry stays duplicate-free |
| GravitySource.Unregister | Assets/PolygonSciFiSpace/Scripts/SpaceGravitySource.cs:52-56 | OnDisable of a source that is not registered leaves the list unchanged |
| GravitySource.UnregisterMultiset | Assets/PolygonSciFiSpace/Scripts/SpaceGravitySource.cs:52-56 | List.Remove takes out exactly one copy of the source, if there is one, and keeps every other entry: the multiset loses one copy of it |
| GravitySource.UnregisterRemoves | Assets/PolygonSciFiSpace/Scripts/SpaceGravitySource.cs:52-56 | in a duplicate-free registry the removed source is gone afterwards, and the registry is still duplicate-free |
| GravitySource.EnableDisableRoundTrip | Assets/PolygonSciFiSpace/Scripts/SpaceGravitySource.cs:46-56 | enabling then disabling a source that was not registered restores the registry exactly |
| GravitySource.EffectiveDistanceBounds | Assets/PolygonSciFiSpace/Scripts/SpaceGravitySource.cs:66-71 | past the early-out, rEff² is at least r² > 0, at least minDistance² when minDistance ≥ 0, and strictly above softening² when softening is positive |
| GravitySource.EffectiveDistancePositive | Assets/PolygonSciFiSpace/Scripts/SpaceGravitySource.cs:63-71 | past the early-out (r > 0), rEff² ≥ r² > 0, so the Newtonian division is defined |
| GravitySource.EffectiveDistanceSq | Assets/PolygonSciFiSpace/Scripts/SpaceGravitySource.cs:66-71 | no contract of its own: rEff² with minDistance and Plummer softening; EffectiveDistanceBounds and EffectiveDistancePositive state its bounds |
| GravitySource.UncappedMagnitude | Assets/PolygonSciFiSpace/Scripts/SpaceGravitySource.cs:74-78 | no contract of its own: G·M/rEff² times the clamped falloff; UncappedNonneg, NewtonianRegime, PlateauInsideMinDistance, SofteningBoundsPull and UncappedBelowSoftening state its behaviour |
| GravitySource.AccelerationMagnitude | Assets/PolygonSciFiSpace/Scripts/SpaceGravitySource.cs:59-81 | no contract of its own: the length of GetAccelerationAtPoint; MagnitudeOutside, MagnitudeBounds, MagnitudeInside and NewtonianRegime state it |
| GravitySource.Acceleration | Assets/PolygonSciFiSpace/Scripts/SpaceGravitySource.cs:59-85 | no contract of its own: the GetAccelerationAtPoint vector; AccelerationInside, AccelerationOutside, AccelerationLength, AttractsTowardCenter and SymmetricPairCancels state it |
| GravitySource.NormalizedDistance | Assets/PolygonSciFiSpace/Scripts/SpaceGravitySource.cs:77 | the curve argument is in [0, 1], and inside the radius it is r / max(0.001, radiusOfInfluence) |
| GravitySource.FalloffFactor | Assets/PolygonSciFiSpace/Scripts/SpaceGravitySource.cs:78 | the falloff multiplier is exactly the curve's value when that is nonnegative, and 0 otherwise |
| GravitySource.Capped | Assets/PolygonSciFiSpace/Scripts/SpaceGravitySource.cs:81 | a positive maxAcceleration leaves smaller values alone and turns a larger value into exactly the cap; a value ≤ 0 disables the cap |
| GravitySource.MagnitudeOutside | Assets/PolygonSciFiSpace/Scripts/SpaceGravitySource.cs:63 | at the centre (r ≤ 0) and beyond the radius of influence the magnitude is zero |
| GravitySource.UncappedNonneg | Assets/PolygonSciFiSpace/Scripts/SpaceGravitySource.cs:74-78 | with G·M ≥ 0 the uncapped pull is nonnegative |
| GravitySource.MagnitudeBounds | Assets/PolygonSciFiSpace/Scripts/SpaceGravitySource.cs:59-85 | the magnitude is zero outside the radius and for a radius ≤ 0, never exceeds a positive cap, and is nonnegative for G·M ≥ 0 |
| GravitySource.MagnitudeInside | Assets/PolygonSciFiSpace/Scripts/SpaceGravitySource.cs:74-81 | inside the radius the magnitude is at most the uncapped pull, and equal to it without a cap |
| GravitySource.NewtonianRegime | Assets/PolygonSciFiSpace/Scripts/SpaceGravitySource.cs:66-78 | without softening or cap and with r ≥ minDistance, the magnitude is G·M/r² times the clamped falloff at r/ROI |
| GravitySource.PlateauInsideMinDistance | Assets/PolygonSciFiSpace/Scripts/SpaceGravitySource.cs:66-78 | closer than minDistance the pull uses minDistance² in place of r² |
| GravitySource.SofteningBoundsPull | Assets/PolygonSciFiSpace/Scripts/SpaceGravitySource.cs:66-81 | with positive softening and G·M ≥ 0 the magnitude is at most G·M·falloff/softening² at every distance, cap or no cap |
| GravitySource.UncappedBelowSoftening | Assets/PolygonSciFiSpace/Scripts/SpaceGravitySource.cs:66-78 | the uncapped pull is bounded by G·M·falloff/softening² for every r > 0 |
| GravitySource.IsInsideEventHorizon | Assets/PolygonSciFiSpace/Scripts/SpaceGravitySource.cs:87-92 | never inside for a non-black-hole; a black hole's horizon holds exactly the distances up to max(0, eventHorizonRadius), so the centre is always inside |
| GravitySource.HorizonMonotone | Assets/PolygonSciFiSpace/Scripts/SpaceGravitySource.cs:87-92 | a point inside the horizon stays inside when it moves closer to the centre |
| GravitySource.DegenerateHorizon | Assets/PolygonSciFiSpace/Scripts/SpaceGravitySource.cs:87-92 | a black hole whose eventHorizonRadius is ≤ 0 holds only its exact centre (r ≤ 0) |
| GravitySource.HorizonInsideReach | Assets/PolygonSciFiSpace/Scripts/SpaceGravitySource.cs:59-92 | for a horizon no wider than the radius of influence, a point inside the horizon (other than the centre) is within reach, so the horizon check and the pull see the same source |
| GravitySource.AccelerationInside | Assets/PolygonSciFiSpace/Scripts/SpaceGravitySource.cs:76-84 | inside the radius the returned vector is the unit direction to the centre times the magnitude |
| GravitySource.AccelerationOutside | Assets/PolygonSciFiSpace/Scripts/SpaceGravitySource.cs:63 | at the centre and beyond the radius the returned vector is zero |
| GravitySource.AccelerationLength | Assets/PolygonSciFiSpace/Scripts/SpaceGravitySource.cs:59-85 | with an exact distance, the returned vector's length is the absolute value of the magnitude |
| GravitySource.AttractsTowardCenter | Assets/PolygonSciFiSpace/Scripts/SpaceGravitySource.cs:61-84 | with G·M ≥ 0 the pull is a nonnegative multiple of (centre − point) |
| GravitySource.SymmetricPairCancels | Assets/PolygonSciFiSpace/Scripts/SpaceGravitySource.cs:59-85 | two identical sources placed symmetrically about a point pull with opposite vectors that sum to zero |
| GravitySource.ScenarioFarField | Assets/PolygonSciFiSpace/Scripts/SpaceGravitySource.cs:66-84 | M = 1e6, G = 0.01, flat falloff: the pull at r = 1000 is 0.01 |
| GravitySource.ScenarioNearField | Assets/PolygonSciFiSpace/Scripts/SpaceGravitySource.cs:66-84 | the same source at r = 10 < minDistance = 25 pulls with 16, and with 5 under a cap of 5 |
| GravityBody.Spawned | Assets/PolygonSciFiSpace/Scripts/SpaceGravityBody.cs:32-40 | a new body is alive, has no dominant source, and has fired no lose event |
| GravityBody.Candidates | Assets/PolygonSciFiSpace/Scripts/SpaceGravityBody.cs:72-81 | a source is a candidate iff it is registered, alive and within squared reach; the candidates are a sub-multiset of the registry |
| GravityBody.WithinReach | Assets/PolygonSciFiSpace/Scripts/SpaceGravityBody.cs:76-77 | the broad-phase test, squared distance ≤ ROI²; no contract of its own, used by Candidates and Participants |
| GravityBody.Eligible | Assets/PolygonSciFiSpace/Scripts/SpaceGravityBody.cs:74-77 | alive and within reach; no contract of its own, CandidatePositionsExact and Candidates state what it selects |
| GravityBody.CandidatePositions | Assets/PolygonSciFiSpace/Scripts/SpaceGravityBody.cs:72-81 | the registry positions the broad phase keeps are valid indices in strictly rising order |
| GravityBody.CandidatePositionsExact | Assets/PolygonSciFiSpace/Scripts/SpaceGravityBody.cs:72-81 | a registry position is kept iff its entry is alive and within reach |
| GravityBody.CandidatePositionsCount | Assets/PolygonSciFiSpace/Scripts/SpaceGravityBody.cs:72-81 | there are exactly as many kept positions as candidates |
| GravityBody.CandidatesAtPositions | Assets/PolygonSciFiSpace/Scripts/SpaceGravityBody.cs:72-81 | the k-th candidate is the registry entry at the k-th kept position, so the candidates are the registry with the rest struck out, in registry order |
| GravityBody.CandidatesInRegistryOrder | Assets/PolygonSciFiSpace/Scripts/SpaceGravityBody.cs:72-81 | any two candidates appear in the registry in the same relative order |
| GravityBody.CandidatesNoDuplicates | Assets/PolygonSciFiSpace/Scripts/SpaceGravityBody.cs:72-81 | filtering a duplicate-free registry yields a duplicate-free list |
| GravityBody.SortByKey | Assets/PolygonSciFiSpace/Scripts/SpaceGravityBody.cs:85-90 | the sort by squared distance returns a permutation of its input in nondecreasing key order |
| GravityBody.Kept | Assets/PolygonSciFiSpace/Scripts/SpaceGravityBody.cs:83-92 | with a positive cap below the candidate count exactly that many remain; otherwise every candidate remains unchanged |
| GravityBody.KeptDroppedSplit | Assets/PolygonSciFiSpace/Scripts/SpaceGravityBody.cs:83-92 | kept and dropped together are a permutation of the candidates: the cap loses and adds no source |
| GravityBody.NearestKept | Assets/PolygonSciFiSpace/Scripts/SpaceGravityBody.cs:83-92 | every kept source is no farther than every dropped one |
| GravityBody.Pulls | Assets/PolygonSciFiSpace/Scripts/SpaceGravityBody.cs:97-99 | one pull per kept source, each that source's GetAccelerationAtPoint |
| GravityBody.Pull | Assets/PolygonSciFiSpace/Scripts/SpaceGravityBody.cs:99 | no contract of its own: one source's GetAccelerationAtPoint at the body; Pulls and Strengths are stated through it |
| GravityBody.SumVec | Assets/PolygonSciFiSpace/Scripts/SpaceGravityBody.cs:94-100 | no contract of its own: the running sum of the pulls in order; SumAndDominant proves the loop computes it |
| GravityBody.IsDominantIndex | Assets/PolygonSciFiSpace/Scripts/SpaceGravityBody.cs:102-107 | no contract of its own: a positive, largest strength with every earlier one strictly smaller; DominantIndexUnique proves at most one index qualifies |
| GravityBody.DominantOf | Assets/PolygonSciFiSpace/Scripts/SpaceGravityBody.cs:95-107 | no contract of its own: None iff no strength is positive, else the source at the dominant index; SumAndDominant proves the loop's dominant meets it |
| GravityBody.Strengths | Assets/PolygonSciFiSpace/Scripts/SpaceGravityBody.cs:102 | the compared strength of each kept source is the magnitude of its pull |
| GravityBody.DominantIndexUnique | Assets/PolygonSciFiSpace/Scripts/SpaceGravityBody.cs:102-107 | the strict-increase arg-max picks a single index, so the dominant source is determined |
| GravityBody.Multiplier | Assets/PolygonSciFiSpace/Scripts/SpaceGravityBody.cs:110-116 | the multiplier is gravityScale, times clamp01(shieldMultiplier) only when the shield is respected, a ship is present and its shield is up; a shieldMultiplier ≥ 1 leaves gravity at full strength, and one ≤ 0 cancels it while that shield is up |
| GravityBody.ShieldAttenuates | Assets/PolygonSciFiSpace/Scripts/SpaceGravityBody.cs:110-116 | a raised shield keeps the multiplier within [0, gravityScale] |
| GravityBody.Participants | Assets/PolygonSciFiSpace/Scripts/SpaceGravityBody.cs:72-92 | every participant is registered, alive and within reach |
| GravityBody.SumAndDominant | Assets/PolygonSciFiSpace/Scripts/SpaceGravityBody.cs:94-108 | the loop's sum is the sum of the pulls, and its dominant is None iff no strength is positive, otherwise the first strictly largest positive one |
| GravityBody.ComputeTotalGravityAcceleration | Assets/PolygonSciFiSpace/Scripts/SpaceGravityBody.cs:62-117 | the result is the participants' summed pull times the multiplier, and the dominant source is a live, registered participant chosen by the strict arg-max |
| GravityBody.NonPositiveRadiusNeverDominant | Assets/PolygonSciFiSpace/Scripts/SpaceGravityBody.cs:77 | a source whose radius of influence is ≤ 0 may pass the filter, but it pulls with zero and is never dominant |
| GravityBody.StrengthIsFieldMagnitude | Assets/PolygonSciFiSpace/Scripts/SpaceGravityBody.cs:99-102 | with exact lengths, a participant's compared strength is the absolute value of its field's magnitude |
| GravityBody.TriggerLose | Assets/PolygonSciFiSpace/Scripts/SpaceGravityBody.cs:141-150 | the latch sets isDead once: the first call disables the ship and fires onLose, or destroys the object when onLose is unassigned; later calls change nothing |
| GravityBody.TriggerLoseIdempotent | Assets/PolygonSciFiSpace/Scripts/SpaceGravityBody.cs:141-150 | losing twice is losing once, and onLose fires at most once |
| GravityBody.AfterGravity | Assets/PolygonSciFiSpace/Scripts/SpaceGravityBody.cs:47-59 | given the acceleration and dominant source: the dominant source is stored, the force is exactly the acceleration and is applied iff it is nonzero, the body loses iff the horizon rule is on and the dominant source is a black hole whose horizon contains it, and nothing else changes |
| GravityBody.FixedUpdate | Assets/PolygonSciFiSpace/Scripts/SpaceGravityBody.cs:42-60 | a dead body does nothing; otherwise the dominant source is recomputed, the force is exactly the summed acceleration and is applied iff it is nonzero, and the body loses iff the horizon rule is on and the dominant source is a black hole whose horizon contains the body; nothing else changes |
| GravityBody.OnSourceContact | Assets/PolygonSciFiSpace/Scripts/SpaceGravityBody.cs:119-139 | a collision or trigger loses iff the rule is on and the touched source is the current dominant one; a dead body ignores contacts |
| GravityBody.DeadIsFrozen | Assets/PolygonSciFiSpace/Scripts/SpaceGravityBody.cs:119-150 | once dead, contacts and further lose calls leave the body unchanged |
| GravityBody.OnlyDominantContactLoses | Assets/PolygonSciFiSpace/Scripts/SpaceGravityBody.cs:119-139 | touching a non-dominant source, or no source, never loses |
| LoseScreen.SetMessage | Assets/PolygonSciFiSpace/Scripts/GameOverManager.cs:60-63 | the label takes the text and the shown latch is untouched |
| LoseScreen.HandleLose | Assets/PolygonSciFiSpace/Scripts/GameOverManager.cs:36-40 | the first call brings the screen up once; later calls change nothing |
| LoseScreen.HandleLoseIdempotent | Assets/PolygonSciFiSpace/Scripts/GameOverManager.cs:38-39 | HandleLose twice is HandleLose once |
| LoseScreen.RequestLose | Assets/PolygonSciFiSpace/Scripts/RingPickup.cs:74-85 | nothing without a manager; otherwise the screen is shown and the message replaced only when non-empty |
| LoseScreen.ShownAtMostOnce | Assets/PolygonSciFiSpace/Scripts/GameOverManager.cs:36-40 | any run of lose requests brings the screen up at most once |
| LoseScreen.RequestKeepsShownOnce | Assets/PolygonSciFiSpace/Scripts/GameOverManager.cs:36-40 | a lose request, with or without a manager, never brings the screen up a second time |
| LoseReports.SharedScreenShownAtMostOnce | Assets/PolygonSciFiSpace/Scripts/GameOverManager.cs:36-40 | ring losses and route ends reporting to the one shared manager, in any order and number, bring its screen up at most once, and an assigned manager stays assigned |
| LoseReports.RingLossThenRouteEnd | Assets/PolygonSciFiSpace/Scripts/SpaceshipAIController.cs:126-143 | after a ring has shown the shared screen, the autopilot's route end does not show it again |
| LoseReports.Deliver | Assets/PolygonSciFiSpace/Scripts/GameOverManager.cs:36-41 | one report either leaves the shared manager as it was or is its RequestLose with the owner's message, and never assigns or unassigns it |
| LoseReports.DeliverAll | Assets/PolygonSciFiSpace/Scripts/GameOverManager.cs:36-41 | a run of reports keeps the manager assigned iff it was, and never lowers its count of showings |
| Spaceship.Started | Assets/PolygonSciFiSpace/Scripts/SpaceshipController.cs:144-148 | energy starts at maxEnergy with boost and shield off |
| Spaceship.ApplyControl | Assets/PolygonSciFiSpace/Scripts/SpaceshipController.cs:238-256 | the raw command is kept for CurrentControl, and the inputs are its clamped form on every axis, strafes included: in-range values pass through, out-of-range values become the nearest bound, and brake zeroes thrust |
| Spaceship.ApplyControlIdempotent | Assets/PolygonSciFiSpace/Scripts/SpaceshipController.cs:238-253 | applying the same command twice is applying it once |
| Spaceship.ApplyControlKeepsClamped | Assets/PolygonSciFiSpace/Scripts/SpaceshipController.cs:240-252 | a command already in range is stored as given |
| Spaceship.CanUseBoost | Assets/PolygonSciFiSpace/Scripts/SpaceshipController.cs:431-434 | the boost is usable iff the cooldown since the last boost has passed and no boost is running |
| Spaceship.CanUseBoostMonotone | Assets/PolygonSciFiSpace/Scripts/SpaceshipController.cs:431-434 | while no boost runs, a boost usable now stays usable later |
| Spaceship.ActivateBoost | Assets/PolygonSciFiSpace/Scripts/SpaceshipController.cs:437-444 | the boost starts with boostDuration on its timer and the current time stamped |
| Spaceship.BoostCooldownGates | Assets/PolygonSciFiSpace/Scripts/SpaceshipController.cs:431-444 | after an activation the boost cannot be restarted within its cooldown, whether or not it is still running |
| Spaceship.CanUseShield | Assets/PolygonSciFiSpace/Scripts/SpaceshipController.cs:461-465 | the shield is usable iff energy exceeds one activation's consumption and the cooldown has passed |
| Spaceship.CanUseShieldMonotone | Assets/PolygonSciFiSpace/Scripts/SpaceshipController.cs:461-465 | waiting longer or holding more energy never makes a usable shield unusable |
| Spaceship.ActivateShield | Assets/PolygonSciFiSpace/Scripts/SpaceshipController.cs:468-475 | the shield goes up with shieldDuration on its timer; energy is not charged here |
| Spaceship.DeactivateShield | Assets/PolygonSciFiSpace/Scripts/SpaceshipController.cs:478-484 | the shield goes down and the current time is stamped as lastShieldTime |
| Spaceship.ShieldCooldownGates | Assets/PolygonSciFiSpace/Scripts/SpaceshipController.cs:461-484 | a lowered shield cannot come back up within its cooldown |
| Spaceship.ToggleGravityShield | Assets/PolygonSciFiSpace/Scripts/SpaceshipController.cs:447-458 | the press is always consumed; without a shield nothing else changes; a lowered shield rises iff usable, with its timer set to shieldDuration and the last-use time kept; a raised one drops with the time stamped; no other field changes |
| Spaceship.ToggleConsumesPress | Assets/PolygonSciFiSpace/Scripts/SpaceshipController.cs:449-457 | a second toggle in the same frame changes nothing |
| Spaceship.UpdateTimers | Assets/PolygonSciFiSpace/Scripts/SpaceshipController.cs:259-273 | each running timer drops by the frame time; the boost stays on iff its timer stays positive; the shield stays on iff its timer stays positive and energy is positive; a shield that runs out stamps the time; input, control, energy and lastBoostTime are untouched |
| Spaceship.TimersNeverStartBoost | Assets/PolygonSciFiSpace/Scripts/SpaceshipController.cs:259-264 | frames of timer updates never switch a boost on |
| Spaceship.BoostTimerRunsDown | Assets/PolygonSciFiSpace/Scripts/SpaceshipController.cs:259-264 | a running boost stays on after n frames iff n = 0 or its timer minus the elapsed time is still positive, and its timer then shows exactly that |
| Spaceship.BoostLastsItsDuration | Assets/PolygonSciFiSpace/Scripts/SpaceshipController.cs:259-264 | a boost started by ActivateBoost is on after n frames of dt ≥ 0 iff n = 0 or boostDuration − n·dt > 0 |
| Spaceship.UpdateEnergy | Assets/PolygonSciFiSpace/Scripts/SpaceshipController.cs:276-286 | with the shield down energy becomes min(maxEnergy, energy + regen·dt); with it up, max(0, energy − consumption·dt); nothing else changes |
| Spaceship.UpdateEnergyKeepsBounds | Assets/PolygonSciFiSpace/Scripts/SpaceshipController.cs:276-286 | with nonnegative rates and frame time, energy stays in [0, maxEnergy], falling under the shield and rising without it |
| Spaceship.Update | Assets/PolygonSciFiSpace/Scripts/SpaceshipController.cs:164-177 | a player-controlled ship takes the polled command, any other keeps its own, and the shield press is consumed |
| Spaceship.UpdateKeepsEnergyInBounds | Assets/PolygonSciFiSpace/Scripts/SpaceshipController.cs:164-177 | one frame keeps energy in [0, maxEnergy] |
| Spaceship.StartedInBounds | Assets/PolygonSciFiSpace/Scripts/SpaceshipController.cs:147 | energy starts within [0, maxEnergy] |
| Spaceship.EnergyAlwaysInBounds | Assets/PolygonSciFiSpace/Scripts/SpaceshipController.cs:164-177 | any run of frames keeps energy in [0, maxEnergy] |
| Spaceship.ApplyMovement | Assets/PolygonSciFiSpace/Scripts/SpaceshipController.cs:289-306 | thrust applies iff input exceeds 0.01, boosted iff a boost was already running; a boost starts iff thrusting, the key is held and the boost is usable, and then the ship is exactly ActivateBoost's; otherwise only the thrusters flag changes |
| Spaceship.NoSecondBoostWithinCooldown | Assets/PolygonSciFiSpace/Scripts/SpaceshipController.cs:289-306 | two thrusting ticks, the second within boostCooldown of the first, never both start a boost |
| Spaceship.BrakeDeceleration | Assets/PolygonSciFiSpace/Scripts/SpaceshipController.cs:368-370 | the deceleration is the smaller of speed/max(0.1, brakeTimeTarget) and brakingAccel |
| Spaceship.BrakeDecelerationPositive | Assets/PolygonSciFiSpace/Scripts/SpaceshipController.cs:368-370 | a moving ship with positive brakingAccel always decelerates |
| Spaceship.Sign | Assets/PolygonSciFiSpace/Scripts/SpaceshipController.cs:379 | Mathf.Sign: 1 for zero and above, −1 below, so Sign(f)·f = |f| and Sign(f)² = 1 |
| Spaceship.ApplyBraking | Assets/PolygonSciFiSpace/Scripts/SpaceshipController.cs:356-385 | no brake: nothing; below stopSpeedEpsilon: stop with flags untouched; otherwise decelerate by BrakeDeceleration, clear thrusters and boost and change nothing else, and add a retro force along the forward axis iff the forward speed exceeds 0.01 in size and retroBoostAccel is positive |
| Spaceship.BrakingForceOpposesVelocity | Assets/PolygonSciFiSpace/Scripts/SpaceshipController.cs:368-372 | the braking force has the chosen deceleration as its length and points against the velocity |
| Spaceship.RetroOpposesForward | Assets/PolygonSciFiSpace/Scripts/SpaceshipController.cs:375-381 | the retro force works against the velocity's forward component, and for a unit forward axis its length is retroBoostAccel |
| Spaceship.SpeedLimitBounds | Assets/PolygonSciFiSpace/Scripts/SpaceshipController.cs:405-409 | after the cap the speed² is at most maxSpeed², exactly maxSpeed² when capped, unchanged within the cap, and the direction is kept |
| Spaceship.ApplySpeedLimit | Assets/PolygonSciFiSpace/Scripts/SpaceshipController.cs:405-409 | a velocity within maxSpeed is left unchanged; SpeedLimitBounds states the capped case and the kept direction |
| Autopilot.HandleRouteFinished | Assets/PolygonSciFiSpace/Scripts/SpaceshipAIController.cs:126-143 | in non-looping mode only the first call fires the event; when losing on finish the shared manager is asked to show the lose screen, and otherwise it is handed back unchanged |
| Autopilot.AdvanceWaypoint | Assets/PolygonSciFiSpace/Scripts/SpaceshipAIController.cs:113-124 | the index stays in range, steps forward, and past the end wraps to 0 when looping or holds at the last waypoint, handling the route end |
| Autopilot.AdvanceTimes | Assets/PolygonSciFiSpace/Scripts/SpaceshipAIController.cs:113-124 | any number of advances keeps the index in range |
| Autopilot.FinishFiresOnce | Assets/PolygonSciFiSpace/Scripts/SpaceshipAIController.cs:126-143 | without looping, onRouteFinished fires at most once however far the route advances |
| Autopilot.LoopFiresEveryLap | Assets/PolygonSciFiSpace/Scripts/SpaceshipAIController.cs:117-143 | with looping, passing the last waypoint fires the event again and wraps to 0 |
| Autopilot.Throttle | Assets/PolygonSciFiSpace/Scripts/SpaceshipAIController.cs:96-97 | the throttle lies in [minThrottle, 1]; at distance ≤ 0 it is exactly minThrottle |
| Autopilot.ThrottleMonotone | Assets/PolygonSciFiSpace/Scripts/SpaceshipAIController.cs:96-97 | a farther target never gets less thrust |
| Autopilot.FullThrottleFarAway | Assets/PolygonSciFiSpace/Scripts/SpaceshipAIController.cs:96-97 | at distance ≥ max(1, throttleDistance) the throttle is 1 |
| Autopilot.Axis | Assets/PolygonSciFiSpace/Scripts/SpaceshipAIController.cs:100-102 | one steering command lies in [−1, 1], has the sign of offset times a positive gain, and is 0 for a zero offset |
| Autopilot.AxisOdd | Assets/PolygonSciFiSpace/Scripts/SpaceshipAIController.cs:100-102 | the opposite offset gives the opposite command |
| Autopilot.Steer | Assets/PolygonSciFiSpace/Scripts/SpaceshipAIController.cs:99-108 | pitch, yaw and roll are in [−1, 1]; with positive gains a target above pitches down (pitch < 0), one to the right yaws right (yaw > 0) and rolls left (roll < 0), and mirrored targets flip these signs; a centred axis gives 0; strafe is zero and boost, brake and shield are off |
| Autopilot.SteerMirror | Assets/PolygonSciFiSpace/Scripts/SpaceshipAIController.cs:100-102 | a target mirrored left to right flips yaw and roll and leaves the rest of the command unchanged |
| Autopilot.SteerIsClamped | Assets/PolygonSciFiSpace/Scripts/SpaceshipAIController.cs:99-108 | the command is already in the range ApplyControl enforces |
| Autopilot.FixedUpdate | Assets/PolygonSciFiSpace/Scripts/SpaceshipAIController.cs:67-111 | no ship or no route: nothing; a missing or reached waypoint advances the route without a command; otherwise the command sent is Steer at the waypoint's distance and ship-local direction, and the index and the shared manager are kept |
| Autopilot.FarWaypointFullThrottle | Assets/PolygonSciFiSpace/Scripts/SpaceshipAIController.cs:86-97 | a waypoint outside waypointRadius and at least max(1, throttleDistance) away gets a command with thrust exactly 1 |
| Autopilot.CommandTurnsTowardTarget | Assets/PolygonSciFiSpace/Scripts/SpaceshipAIController.cs:90-101 | with a positive steerGain the command yaws right, left or not at all as the target lies right, left or straight ahead in ship-local axes |
| Autopilot.CommandsAreBounded | Assets/PolygonSciFiSpace/Scripts/SpaceshipAIController.cs:96-108 | every command sent has thrust in [minThrottle, 1] and in-range axes |
| Pause.Awake | Assets/PolygonSciFiSpace/Scripts/PauseManager.cs:17-27 | the menu starts unpaused and hidden |
| Pause.ShowUi | Assets/PolygonSciFiSpace/Scripts/PauseManager.cs:47-53 | the present panel is shown and the present canvas visible and interactive |
| Pause.HideUi | Assets/PolygonSciFiSpace/Scripts/PauseManager.cs:68-75 | the present panel is hidden and the present canvas transparent and inert |
| Pause.Pause | Assets/PolygonSciFiSpace/Scripts/PauseManager.cs:38-59 | once: remember the audio flag, stop time, show the menu, free the cursor, pause audio when configured |
| Pause.RestoreAudio | Assets/PolygonSciFiSpace/Scripts/PauseManager.cs:77 | audio is released only if the pause silenced it |
| Pause.Resume | Assets/PolygonSciFiSpace/Scripts/PauseManager.cs:61-84 | once: time back to 1, menu hidden, cursor locked and hidden only when configured |
| Pause.PauseIdempotent | Assets/PolygonSciFiSpace/Scripts/PauseManager.cs:40 | pausing twice is pausing once |
| Pause.ResumeIdempotent | Assets/PolygonSciFiSpace/Scripts/PauseManager.cs:63 | resuming twice is resuming once |
| Pause.PauseResumeRestoresAudio | Assets/PolygonSciFiSpace/Scripts/PauseManager.cs:38-84 | pause then resume restores the audio-pause flag and time; audio is untouched when pauseAudio is off |
| Pause.Update | Assets/PolygonSciFiSpace/Scripts/PauseManager.cs:29-36 | the toggle key flips the paused state; no key, no change |
| Pause.ToggleTwice | Assets/PolygonSciFiSpace/Scripts/PauseManager.cs:29-36 | two presses bring a running game back to running with time at 1 and audio as it was |
| Pause.OnDisable | Assets/PolygonSciFiSpace/Scripts/PauseManager.cs:86-104 | always ends unpaused with the menu hidden; time and audio are restored only when it was paused |
| Pause.OnDisableMatchesResume | Assets/PolygonSciFiSpace/Scripts/PauseManager.cs:61-104 | disabling a paused menu restores time, audio and the menu as Resume does, but leaves the cursor |
| CameraView.UpdateUICanvas | Assets/PolygonSciFiSpace/Scripts/CameraViewSwitcher.cs:104-111 | only a ScreenSpace-Camera canvas is retargeted, to the camera of the current mode |
| CameraView.ApplyCameraView | Assets/PolygonSciFiSpace/Scripts/CameraViewSwitcher.cs:70-99 | the requested camera is the active one; when it matches the mode, the view and canvas are applied |
| CameraView.ExactlyOneMainCamera | Assets/PolygonSciFiSpace/Scripts/CameraViewSwitcher.cs:72-95 | exactly one camera is active, exactly one is tagged MainCamera, and they are the same camera |
| CameraView.Start | Assets/PolygonSciFiSpace/Scripts/CameraViewSwitcher.cs:30-46 | a missing camera disables the script and nothing else; otherwise the start mode is applied |
| CameraView.ToggleView | Assets/PolygonSciFiSpace/Scripts/CameraViewSwitcher.cs:60-64 | the mode flips and is applied |
| CameraView.ToggleInvolution | Assets/PolygonSciFiSpace/Scripts/CameraViewSwitcher.cs:60-64 | toggling twice returns an applied view to exactly its state |
| CameraView.SetFirstPersonView | Assets/PolygonSciFiSpace/Scripts/CameraViewSwitcher.cs:139-145 | ends in first person, unchanged if already there |
| CameraView.SetThirdPersonView | Assets/PolygonSciFiSpace/Scripts/CameraViewSwitcher.cs:150-156 | ends in third person, unchanged if already there |
| CameraView.SetViewIdempotent | Assets/PolygonSciFiSpace/Scripts/CameraViewSwitcher.cs:139-156 | forcing a mode twice is forcing it once |
| Ring.Classify | Assets/PolygonSciFiSpace/Scripts/RingPickup.cs:37-55 | Lose iff the lose tag is non-empty and matches; Collect iff not Lose and the required tag matches (or, when empty, the visitor has a SpaceshipController) |
| Ring.RequiredTagCollects | Assets/PolygonSciFiSpace/Scripts/RingPickup.cs:45-55 | the required tag collects when it differs from the lose tag |
| Ring.LoseTagTakesPrecedence | Assets/PolygonSciFiSpace/Scripts/RingPickup.cs:39-43 | a matching lose tag wins and nothing is collected |
| Ring.TaggedRingIgnoresController | Assets/PolygonSciFiSpace/Scripts/RingPickup.cs:45-55 | with a required tag set, whether the visitor has a SpaceshipController never changes the verdict |
| Ring.NoLoseTagNeverLoses | Assets/PolygonSciFiSpace/Scripts/RingPickup.cs:39-43 | with an empty lose tag no visitor makes the player lose |
| Ring.TriggerLose | Assets/PolygonSciFiSpace/Scripts/RingPickup.cs:74-85 | no manager: nothing; otherwise the shared manager is showing, carries a non-empty loseMessage, and has come up one more time only if it was not already showing |
| Ring.OnTriggerEnter | Assets/PolygonSciFiSpace/Scripts/RingPickup.cs:37-72 | lose, ignore or collect as classified; only a loss touches the shared manager; collecting activates the linked object, fires the event once, and destroys or deactivates the ring |
| Ring.CollectRemovesOnce | Assets/PolygonSciFiSpace/Scripts/RingPickup.cs:64-71 | a collected ring is destroyed or deactivated, never both |
| MouseFlight.IsPaused | Assets/PolygonSciFiSpace/Scripts/MouseFlightController.cs:39-45 | paused iff not playing, paused by hand, or time stopped while that is respected |
| MouseFlight.PauseIgnoresTimeScale | Assets/PolygonSciFiSpace/Scripts/MouseFlightController.cs:39-45 | with respectTimescalePause off, Time.timeScale never affects the pause state |
| MouseFlight.ManualPauseWins | Assets/PolygonSciFiSpace/Scripts/MouseFlightController.cs:39-45 | a manual pause or leaving play mode pauses whatever the time scale and its rule say |
| MouseFlight.UpdateCanvasActive | Assets/PolygonSciFiSpace/Scripts/MouseFlightController.cs:47-52 | the canvas is shown iff not paused, and lastPaused records the state applied |
| MouseFlight.SetPaused | Assets/PolygonSciFiSpace/Scripts/MouseFlightController.cs:33-37 | the manual flag is set and the canvas synced at once |
| MouseFlight.Update | Assets/PolygonSciFiSpace/Scripts/MouseFlightController.cs:61-65 | resyncs only when the pause state changed since last applied, and leaves the HUD in sync |
| MouseFlight.UpdateStable | Assets/PolygonSciFiSpace/Scripts/MouseFlightController.cs:63-64 | a synced HUD is left exactly as it is |
| MouseFlight.UpdateKeepsSync | Assets/PolygonSciFiSpace/Scripts/MouseFlightController.cs:54-65 | once synced by Start, the HUD is synced after every Update, whatever the pause state does |
| MouseFlight.IsThisCameraActiveUnderMouse | Assets/PolygonSciFiSpace/Scripts/MouseFlightController.cs:158-178 | true iff this camera is live, enabled and under the mouse and no other live enabled camera on its display under the mouse has greater depth |
| MouseFlight.EqualDepthNeverBlocks | Assets/PolygonSciFiSpace/Scripts/MouseFlightController.cs:175 | adding a camera of equal depth never changes the answer |
| MouseFlight.SteersThisTick | Assets/PolygonSciFiSpace/Scripts/MouseFlightController.cs:69 | the mouse steers iff not paused, a camera is present and that camera is active under the mouse |

## Left out

- Rigidbody integration: forces are returned (`GravityBody.FixedUpdate`'s `force`, `Spaceship.BrakeOutcome`), not integrated; the engine's velocity update, `AddTorque`, rotation, banking, strafing, stabilisation, damping and angular-velocity clamping are not modelled.
- Square roots and normalisation: lengths come in as `norm`/`speed`/distance parameters; `Vector3.normalized` returns zero below a small threshold, modelled as "zero only for a zero length".
- Floating point: `real` replaces `float`; no rounding, overflow or NaN is modelled.
- `AnimationCurve.Evaluate` is an uninterpreted function; only the clamp of its value to ≥ 0 is used.
- GravityBody.SortByKey: the engine's `List.Sort` is unstable; a stable insertion sort stands in. Kept and NearestKept state only what holds for any sort order (count, permutation, kept no farther than dropped). ComputeTotalGravityAcceleration's result goes through Participants, whose body uses this stable sort, so among equidistant sources at the cut it fixes the ones the stable sort keeps (the earlier-registered), and with them the dominant among equidistant sources of equal strength; the engine may keep and pick others.
- GravityBody.DominantOf: the dominant choice compares the magnitudes the host returns (`norm`) of each pull; equality with the field's own magnitude is proved only when `norm` is exact (`StrengthIsFieldMagnitude`).
- Spaceship.ApplyBraking: the retro force along the forward axis is returned but not integrated, and the velocity read after `AddForce` is taken to be the velocity before it, as in the engine.
- CameraView.ToggleView, SetFirstPersonView, SetThirdPersonView, ApplyCameraView: with a camera missing the script throws a NullReferenceException; the model requires both cameras instead of modelling the exception. `Update`'s key polling and `CheckAudioListeners` (a diagnostic log) are not modelled.
- MouseFlight: the aim computation in FixedUpdate after the gate, `LateUpdate`'s HUD drawing and canvas coordinate conversion are not modelled; `pixelRect.Contains(mouse)` and Unity object identity are given per camera.
- GameOverManager and VictoryPanelManager: panels, fades, the deferred pause, cursor and audio side effects, and scene loading are not modelled; only the one-shot "shown" latch and the message are.
- LoseReports: the shared manager is threaded through the owners' operations in the order the caller chooses; the engine's order of trigger and physics callbacks within a frame is not modelled.
- GravityCameraController: a camera rig unrelated to the gravity rules, not part of this model.
- Input polling, audio, particles, gizmos and visual effects (`UpdateVisualEffects`, `UpdateAudio`, `SetThrusterEffects`) are not modelled; time and input are parameters.
