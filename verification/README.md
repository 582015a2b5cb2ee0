# Verified models of the WebeeBlocks flight programs

Dafny models of the parts of the repository that carry the most logic, with proofs of what they are for.
Every module mirrors one or two source files:

| modules | what they model |
|---|---|
| `ClockPolygon`, `MetricReference` | the polygon of admissible affine clocks and the exact images of reference intervals |
| `ErrorModel`, `Budget`, `BudgetDomain`, `Flow` | error envelopes, their backward adversary, and the optical-flow velocity interval |
| `Matrix3`, `Kalman`, `WorldZ`, `WorldProject` | the three-state vertical covariance filter and the attitude projection in front of it |
| `ActivityBroker`, `ActivityProtocol`, `Answerability` | attempts and verdicts over one shared field with separate writers: the broker and any number of evaluators; when an attempt can still be answered |
| `Observations`, `Course`, `AutonomousEvaluator`, `CombinedEvaluator`, `ReactiveEvaluator`, `MissionMeaning` | the evaluators: milestones of an attempt and its verdict, and what these are in metres |
| `FlightProfile`, `FlightRuntime`, `FlightMeaning`, `FlightProtocol` | the flight loop: admission, settle windows, fail-safe latch, time limits, observation clock; what its answers mean in the units of the request; and that it is the flight participant of the protocol |
| `Deadline` | the 210 s attempt deadline around that loop |
| `Median`, `VerticalReplay`, `EventTiming`, `WindowCoverage`, `LogClock` | the offline inertial and barometric replay and the log clock |
| `Base64`, `FileBroker`, `BlockWalk`, `PeCanonical` | the file protocol, the two block walks, and the executable canonicaliser |
| `Reals`, `Integers`, `Options`, `Wrappers` | small arithmetic facts, bytes, options and results |

Reading conventions. `double` and `float` are `real`; arguments that the code tests with `isfinite` are a `Number`
that may be not finite. Times in the deadline and in the log clock are whole milliseconds. `hypot(a, b) < c` is written
with squares. Sensor samples, contacts, incoming messages and clock readings are arbitrary inputs. Where the code keeps
state (the filter, the broker, the evaluator, the flight loop, the deadline hooks, the block measurer) the model is a
class whose methods say what they do to it; where a run of steps is what matters the class is related to functions on
values, and the lemmas are about every run of those.

Where the code and its intent part, the code is followed and the difference is a lemma:

- A second take-off in one attempt is refused but also marks the attempt expired, even after a success, and disarms the
  LAND demand (`Deadline.SecondTakeOffExpires`, `Deadline.SuccessCanExpire`, `Deadline.RestartDisarms`). All deadline
  claims hold without restriction except the one that an undecided attempt expires exactly at the limit, which holds
  exactly for attempts without one.
- Markers and verdicts share one field, so an attempt can lose its STATE answer, though it never gets a wrong one. It
  can still be answered exactly while nothing overwrote the attempt marker before its evaluator read it, nor the
  verdict after it was written (`Answerability.AnswerableExactly`, `Answerability.AnswerCanFollow`). It is lost by a
  verdict of an older attempt, by a marker delivered too early and by the marker or verdict of another oracle
  (`Answerability.LateVerdictLoses`, `Answerability.EarlyMarkerLoses`, `Answerability.OtherMarkerLoses`); a client
  avoids all of these by `Answerability.UndisturbedStaysAnswerable`.
- The base64 reader accepts set bits that it discards; re-encoding gives the text back exactly when there are none.
- An empty payload leaves no word in a file request, so such a SAVE_AS is refused.
- A header offset from 0x31 to 0x34 is itself blanked by the canonicaliser, whose result is then no executable.
- Unwrapping from an origin refuses streams that reach half a period, where summing gaps goes on.

## Model

| member | source | states |
|---|---|---|
| `ClockPolygon.Clip` | experiments/crazyflie-ukf-surface-range/metric_reference.py:61-76 | the clipping loop appends crossings and kept vertices in order and removes repeats, for any vertex list, empty and degenerate ones included |
| `ClockPolygon.ClippedInside` | experiments/crazyflie-ukf-surface-range/metric_reference.py:68-76 | every vertex left by a clip satisfies the clipping inequality |
| `ClockPolygon.ClippedLeftTurns` | experiments/crazyflie-ukf-surface-range/metric_reference.py:65-76 | if every three vertices in order turn left or are straight, the same holds after a clip, crossings and removed repeats included |
| `ClockPolygon.ClippedCovers` | experiments/crazyflie-ukf-surface-range/metric_reference.py:61-76 | every point of the polygon that satisfies the inequality is still in the clipped polygon: a clip loses nothing |
| `ClockPolygon.ClippedWithin` | experiments/crazyflie-ukf-surface-range/metric_reference.py:61-76 | every point of the clipped polygon is in the polygon and satisfies the inequality: a clip adds nothing |
| `MetricReference.AgreementIsTwoHalfPlanes` | experiments/crazyflie-ukf-surface-range/metric_reference.py:104-108 | a positive-rate clock maps the reference interval onto a range that meets the device interval exactly when the two clipped inequalities hold |
| `MetricReference.AgreeingClocksInBox` | experiments/crazyflie-ukf-surface-range/metric_reference.py:98-103 | every clock that agrees with the first and the last observation lies in the starting box, whose rates are positive |
| `MetricReference.ObservationStep` | experiments/crazyflie-ukf-surface-range/metric_reference.py:104-108 | clipping by one more observation keeps the polygon covering exactly the clocks of the starting box that meet every observation so far |
| `MetricReference.BoxCovers` | experiments/crazyflie-ukf-surface-range/metric_reference.py:98-103 | the starting box covers every admissible clock and only positive rates |
| `MetricReference.InvariantIsExact` | experiments/crazyflie-ukf-surface-range/metric_reference.py:103-111 | after all observations a clock is in the polygon if and only if it has positive rate and agrees with every one of them |
| `MetricReference.Parse` | experiments/crazyflie-ukf-surface-range/metric_reference.py:86-97 | accepts exactly the lists of at least two proper, nonnegative, strictly ordered and disjoint observations |
| `MetricReference.Clocks` | experiments/crazyflie-ukf-surface-range/metric_reference.py:86-111 | succeeds exactly when the observations are well formed and some positive-rate affine clock agrees with all of them; its polygon is then exact |
| `MetricReference.MappedIsExactRange` | experiments/crazyflie-ukf-surface-range/metric_reference.py:114-119 | the mapped interval contains the image of every instant under every admissible clock, and both ends are attained by one |
| `MetricReference.MappedRefusals` | experiments/crazyflie-ukf-surface-range/metric_reference.py:114-119 | over the polygon of any accepted observations a mapping succeeds exactly for an ordered interval that starts at or after the end of the first reference interval and ends at or before the start of the last one; any other ordered interval is an extrapolation |
| `MetricReference.Delta` | experiments/crazyflie-ukf-surface-range/metric_reference.py:122-123 | the difference interval contains every difference and attains both ends |
| `ErrorModel.WidthIsSupport` | experiments/crazyflie-c-feasibility/budget.py:63-82 | forward column sums equal the backward adjoint support, in every direction and after any number of steps |
| `ErrorModel.NoHistoryExceeds` | experiments/crazyflie-c-feasibility/budget.py:108-127 | no admissible error history moves the error in a direction beyond the support of that direction |
| `ErrorModel.AdversaryAttains` | experiments/crazyflie-c-feasibility/budget.py:111-134 | replaying the choices of the adjoint reaches the support exactly |
| `ErrorModel.AdversaryWithin` | experiments/crazyflie-c-feasibility/budget.py:111-127 | every choice of the adversary stays within the declared bounds |
| `ErrorModel.WidthIsExact` | experiments/crazyflie-c-feasibility/budget.py:39-44 | the column sum is the exact worst case over all admissible histories: it bounds all of them and one attains it |
| `ErrorModel.BothSigns` | experiments/crazyflie-c-feasibility/budget.py:63-80 | the column sum bounds the absolute error before and after every correction |
| `ErrorModel.PredictionIs` | experiments/crazyflie-c-feasibility/budget.py:66-67 | one prediction with a constant acceleration error is the motion of that acceleration over the step |
| `ErrorModel.CorrectionIs` | experiments/crazyflie-c-feasibility/budget.py:68-75 | one correction with period T moves the height error by 2 omega T and the speed error by omega^2 T towards the sensor error, for any error and sensor error |
| `ErrorModel.CorrectsFirst` | experiments/crazyflie-c-feasibility/budget.py:68-75 | the first correction is the one that ends the first stride |
| `Budget.OneCorrection` | experiments/crazyflie-c-feasibility/budget.py:34-85 | with one correction and no error but the initial height, the reported terminal height is the initial one times 1 - 2 omega T |
| `Budget.RoundHalfEven` | experiments/crazyflie-c-feasibility/budget.py:52 | rounding stays within one half of its argument, and takes the even neighbour of a tie |
| `BudgetDomain.NearestSteps` | experiments/crazyflie-c-feasibility/budget.py:52 | no other whole number of steps comes nearer to the horizon than the rounded one |
| `BudgetDomain.EnvelopeAccepted` | experiments/crazyflie-c-feasibility/budget.py:47-60 | the envelope is computed exactly for nonnegative bounds, the supported cadences and gains, a horizon of some whole number of steps, and a last tilt below a right angle |
| `BudgetDomain.WitnessAccepted` | experiments/crazyflie-c-feasibility/budget.py:100-107 | the witness is computed exactly for nonnegative bounds, the supported cadences and gains, and at least one whole interval |
| `Budget.ProjectionErrorBounded` | experiments/crazyflie-c-feasibility/budget.py:22-31 | projecting a bounded force on a vertical tilted by any angle up to the declared one errs by at most the bound of the declared one |
| `Budget.StepBoundCovers` | experiments/crazyflie-c-feasibility/budget.py:56-58 | the acceleration bound of a step, taken at the tilt of its end, covers every smaller tilt |
| `Budget.VerticalEnvelope` | experiments/crazyflie-c-feasibility/budget.py:34-85 | accepts exactly the supported bounds, cadences, whole intervals and tilts; the result is the column sums, the exact maxima of the samples and of the interval bounds, and the time of the first step that shows the sampled maximum |
| `Budget.Propagate` | experiments/crazyflie-c-feasibility/budget.py:55-85 | the propagation loop computes the columns of the error model step by step, their exact running maxima and the first peak |
| `Budget.EnclosureHolds` | experiments/crazyflie-c-feasibility/budget.py:59-80 | at every instant inside every interval and after every correction the height error of any admissible history is at most the continuous enclosure |
| `Budget.SampledMaximumIsExact` | experiments/crazyflie-c-feasibility/budget.py:56-79 | the sampled maximum bounds the height error of every admissible history at every step, and some history reaches it at the reported peak time |
| `Budget.TerminalWitness` | experiments/crazyflie-c-feasibility/budget.py:93-135 | on every accepted input the accumulated support, the replayed terminal height and the forward column sum are equal |
| `Budget.Backward` | experiments/crazyflie-c-feasibility/budget.py:108-125 | the backward loop ends with the adjoint of the whole horizon, the adversary of the model and its partial support |
| `Budget.Forward` | experiments/crazyflie-c-feasibility/budget.py:126-135 | the forward loop replays the choices in time order |
| `Budget.EnvelopeEncloses` | experiments/crazyflie-c-feasibility/budget.py:59-84 | the reported enclosure bounds the height error of every admissible history at every instant of every interval and after every correction |
| `Budget.EnvelopeAgreesWithWitness` | experiments/crazyflie-c-feasibility/budget.py:59-82 | without tilt terms both programs see the same bounds at every step |
| `Flow.FlowAccepted` | experiments/crazyflie-c-feasibility/budget.py:138-147 | accepts exactly a proper range of positive depths and a nonnegative noise |
| `Flow.FlowIntervalEncloses` | experiments/crazyflie-c-feasibility/budget.py:138-150 | every velocity that explains the measured rate over a convex mixture of admitted depths with bounded noise is in the interval |
| `Flow.FlowIntervalAttained` | experiments/crazyflie-c-feasibility/budget.py:138-150 | both ends of the interval are velocities that some admitted depth and noise explain |
| `WorldZModule.WorldZ.Init` | experiments/crazyflie-c-world-z/world_z.c:13-23 | healthy exactly for finite arguments with nonnegative deviations and noise; then the given mean and a diagonal covariance |
| `WorldZModule.WorldZ.FiniteState` | experiments/crazyflie-c-world-z/world_z.c:6-12 | reports whether every variance on the diagonal is nonnegative |
| `WorldZModule.WorldZ.Predict` | experiments/crazyflie-c-world-z/world_z.c:24-45 | F P F^T + Q and the moved mean for an admissible step, untouched state and a latched fault otherwise; from a sound state health never drops |
| `WorldZModule.WorldZ.CorrectGain` | experiments/crazyflie-c-world-z/world_z.c:46-62 | the Joseph covariance and corrected mean for any gain, keeping soundness and health |
| `WorldZModule.WorldZ.Baro` | experiments/crazyflie-c-world-z/world_z.c:63-69 | the optimal gain, a residual of the reading that shrinks to r / (P00 + r) of the residual before, and a posterior covariance that is at most the prior |
| `WorldZModule.WorldZ.SlowBaro` | experiments/crazyflie-c-world-z/world_z.c:70-76 | the fixed complementary gain inside its parameter limits, a latched fault outside |
| `WorldZModule.MatrixProduct` | experiments/crazyflie-c-world-z/world_z.c:34-37 | the product loops compute the matrix product, with the second factor transposed or not |
| `Kalman.PredictionComposes` | experiments/crazyflie-c-world-z/world_z.c:29-39 | predicting over t1 and then t2 gives the covariance of one prediction over t1 + t2 |
| `Kalman.MeanComposes` | experiments/crazyflie-c-world-z/world_z.c:40-41 | and the same mean |
| `Kalman.PredictionKeepsCovariance` | experiments/crazyflie-c-world-z/world_z.c:29-42 | a prediction keeps a symmetric positive semidefinite covariance one |
| `Kalman.JosephKeepsCovariance` | experiments/crazyflie-c-world-z/world_z.c:50-60 | a Joseph update with any gain keeps a symmetric positive semidefinite covariance one |
| `Kalman.GainGap` | experiments/crazyflie-c-world-z/world_z.c:46-69 | any gain k leaves exactly (P00 + r)(k - k*)(k - k*)^T more covariance than the barometer gain k* |
| `Kalman.OptimalIsLeast` | experiments/crazyflie-c-world-z/world_z.c:63-76 | the barometer posterior is at most that of any other gain, and at most the prior |
| `Kalman.OptimalRunIsLeast` | experiments/crazyflie-c-world-z/world_z.c:24-76 | over every schedule of predictions and corrections no sequence of gains, the slow observer included, has less covariance than the optimal one |
| `Kalman.PredictionCarriesError` | experiments/crazyflie-c-world-z/world_z.c:29-42 | for a vehicle that moves with the measured acceleration and constant bias, the error of the predicted mean is F applied to the error before: the map that carries the covariance |
| `Kalman.MovesAsMeasured` | experiments/crazyflie-c-world-z/world_z.c:40-41 | without bias the predicted mean moves as the measured acceleration says |
| `Kalman.BiasIsRemoved` | experiments/crazyflie-c-world-z/world_z.c:40-41 | what is integrated is the measured acceleration less the estimated bias |
| `Kalman.CorrectionCarriesError` | experiments/crazyflie-c-world-z/world_z.c:50-60 | when the reading is the true height, any gain k leaves the error (I - k e0^T) times the error before: the map that carries the covariance |
| `Kalman.BaroShrinks` | experiments/crazyflie-c-world-z/world_z.c:59-69 | after a barometer correction the residual of the reading is r / (P00 + r) times the residual before, so that the height moves towards the reading and never past it |
| `Kalman.SlowGainIsCritical` | experiments/crazyflie-c-world-z/world_z.c:70-76 | the height and speed gains of the slow observer are critically damped |
| `WorldProject.UpIsUnit` | experiments/crazyflie-c-world-z/world_z.c:83-86 | the row that weighs the accelerometer is a unit vector, whatever the quaternion norm error |
| `WorldProject.RestIsZero` | experiments/crazyflie-c-world-z/world_z.c:77-89 | a vehicle at rest in any attitude projects to zero acceleration, and no reading projects beyond its own length |
| `WorldProject.UpIsRotation` | experiments/crazyflie-c-world-z/world_z.c:83-86 | the row gives the world vertical component of every body vector rotated by the quaternion product q a q* |
| `WorldProject.LevelIsUp` | experiments/crazyflie-c-world-z/world_z.c:83-86 | for a level vehicle, however it is turned about the vertical, the row is (0, 0, 1) |
| `WorldProject.ProjectIsRotation` | experiments/crazyflie-c-world-z/world_z.c:77-89 | accepts exactly finite numbers with a squared quaternion length within 0.02 of one, and then gives the world vertical component of the rotated reading less gravity |
| `ActivityBroker.Broker.EnsureChannel` | controllers/crazyflie_runtime_v2/file_broker_runtime.cpp:118-130 | initialises once, publishing the current attempt when the field exists |
| `ActivityBroker.Broker.HasCurrentOutcome` | controllers/crazyflie_runtime_v2/file_broker_runtime.cpp:100-116 | true exactly for a known verdict of this attempt and oracle |
| `ActivityBroker.Broker.HandleMission` | controllers/crazyflie_runtime_v2/file_broker_runtime.cpp:144-200 | COMPLETE and FAILURE: refused or acknowledged, and the marker written only over no current outcome |
| `ActivityBroker.Broker.HandleQuery` | controllers/crazyflie_runtime_v2/file_broker_runtime.cpp:202-250 | OUTCOME: the refusals in order, or the status found |
| `ActivityBroker.Broker.ReceiveText` | controllers/crazyflie_runtime_v2/file_broker_runtime.cpp:294-329 | one turn of the receive loop, with what is forwarded to flight |
| `ActivityBroker.Broker.ObserveResponse` | controllers/crazyflie_runtime_v2/file_broker_runtime.cpp:265-282 | only the answer to the pending RESET ends it; an OK advances the attempt and republishes it |
| `ActivityBroker.SafeOracleMeans` | controllers/crazyflie_runtime_v2/file_broker_runtime.cpp:66-157 | a safe oracle has 1 to 63 letters, digits, underscores, hyphens and dots |
| `ActivityProtocol.NextKeepsInvariant` | controllers/crazyflie_runtime_v2/file_broker_runtime.cpp:294-337 | with any number of evaluators, every step of flight, broker or an evaluator keeps the counter, field, gate and answer invariants together |
| `ActivityProtocol.VerdictsAreFaithful` | controllers/crazyflie_runtime_v2/file_broker_runtime.cpp:202-329 | in every run the attempt is 1 plus the confirmed RESETs, every STATE answer repeats the verdict its evaluator published for that attempt and oracle, no oracle has two verdicts on one attempt, and two answers for one oracle in one attempt agree |
| `ActivityProtocol.MissionMarks` | controllers/crazyflie_runtime_v2/file_broker_runtime.cpp:144-200 | an acknowledged COMPLETE leaves the completion marker of this attempt and oracle, a FAILURE the failure probe, unless their verdict is in the field; a refused one leaves the field alone |
| `ActivityProtocol.VerdictStays` | controllers/crazyflie_runtime_v2/file_broker_runtime.cpp:100-250 | a verdict on this attempt outlives every COMPLETE and FAILURE of its oracle and is what OUTCOME answers |
| `ActivityProtocol.GateMeans` | controllers/crazyflie_runtime_v2/progression_autonomous_evaluator.c:407-453 | the gate of an evaluator lets through one verdict per attempt, after the completion marker of its oracle, or a failure on its failure probe |
| `Answerability.AnswerableStep` | controllers/crazyflie_runtime_v2/file_broker_runtime.cpp:202-329 | a step without a confirmed RESET makes an answerable attempt unanswerable exactly when it overwrites the marker its evaluator has still to read, or its verdict; it never makes an unanswerable one answerable |
| `Answerability.AnswerableAfterReset` | controllers/crazyflie_runtime_v2/file_broker_runtime.cpp:265-282 | a confirmed RESET opens the next attempt exactly to the oracles that have no older verdict to write first |
| `Answerability.AnswerableExactly` | controllers/crazyflie_runtime_v2/file_broker_runtime.cpp:202-329 | in every run an attempt is answerable for an oracle at a later moment if and only if it was before and nothing was overwritten in between; an unanswerable one gets no STATE answer until the next RESET |
| `Answerability.AnswerCanFollow` | controllers/crazyflie_runtime_v2/file_broker_runtime.cpp:202-250 | every run that is answerable for an oracle can go on, without a RESET, to a STATE answer for it |
| `Answerability.UndisturbedStaysAnswerable` | controllers/crazyflie_runtime_v2/progression_autonomous_evaluator.c:247-294 | what a client can see to: an attempt stays answerable while its marker is kept until read and then only this oracle's own markers and verdict are in the field |
| `Answerability.LateVerdictLoses` | controllers/crazyflie_runtime_v2/progression_autonomous_evaluator.c:116-126 | a run in which a verdict written after the next RESET makes the new attempt unanswerable |
| `Answerability.OtherMarkerLoses` | controllers/crazyflie_runtime_v2/file_broker_runtime.cpp:144-200 | a run in which the marker of another oracle makes a published verdict unanswerable, without any RESET |
| `Answerability.EarlyMarkerLoses` | controllers/crazyflie_runtime_v2/file_broker_runtime.cpp:144-200 | a run in which a completion marker delivered before the attempt marker was read makes the attempt unanswerable |
| `AutonomousEvaluator.First` | controllers/crazyflie_runtime_v2/progression_autonomous_evaluator.c:302-405 | the first sample from a position on that meets a milestone |
| `AutonomousEvaluator.CompleteIsOrdered` | controllers/crazyflie_runtime_v2/progression_autonomous_evaluator.c:302-405 | a complete journey passes take-off, station, hidden reference, both rows, junction and valid route in that order |
| `AutonomousEvaluator.FlagsFollowJourney` | controllers/crazyflie_runtime_v2/progression_autonomous_evaluator.c:302-405 | updating the flags sample by sample computes exactly which milestones the samples of the attempt have met |
| `AutonomousEvaluator.CompleteFlags` | controllers/crazyflie_runtime_v2/progression_autonomous_evaluator.c:438-440 | the flags tested for success are set exactly for a clean complete journey |
| `MissionMeaning.AutonomousMeans` | controllers/crazyflie_runtime_v2/progression_autonomous_evaluator.c:302-435 | every milestone of the autonomous mission in metres, with the route observed and the bay of the parcel |
| `MissionMeaning.StrategiesTakeTurns` | controllers/crazyflie_runtime_v2/progression_autonomous_evaluator.c:250-293 | the strategies of four consecutive attempts all differ, and come back |
| `AutonomousEvaluator.Evaluator.Configure` | controllers/crazyflie_runtime_v2/progression_autonomous_evaluator.c:250-293 | a new attempt forgets every milestone and leaves one way open through each row and the junction, the one its pattern calls valid |
| `AutonomousEvaluator.Evaluator.Track` | controllers/crazyflie_runtime_v2/progression_autonomous_evaluator.c:302-405 | one tracked sample keeps the flags equal to the milestones of the history |
| `AutonomousEvaluator.Evaluator.Judge` | controllers/crazyflie_runtime_v2/progression_autonomous_evaluator.c:407-453 | a verdict is given exactly when a probe finds a failure, or a completed attempt has failed, succeeded or used up its settle time; it is achieved exactly for a clean complete journey landed in the right bay |
| `AutonomousEvaluator.Evaluator.Step` | controllers/crazyflie_runtime_v2/progression_autonomous_evaluator.c:247-454 | one turn refines the evaluator of the protocol, publishes at most once per attempt and keeps all of the above |
| `Course.ProgressIsFirstHits` | controllers/crazyflie_runtime_v2/progression_combined_decisions_evaluator.c:349-399 | the running state lists stages each first met, on the right way, from where the one before it was met, and says whether the next one was first met on a wrong way |
| `Course.ProgressDecides` | controllers/crazyflie_runtime_v2/progression_combined_decisions_evaluator.c:349-399 | n stages are done exactly when the samples meet the first n in that order, and a wrong way is flagged exactly when one was first met |
| `Course.LeftIsFinal` | controllers/crazyflie_runtime_v2/progression_combined_decisions_evaluator.c:374-399 | whoever first met a fork on a wrong way never completes the course |
| `Course.ItineraryOrdered` | controllers/crazyflie_runtime_v2/progression_combined_decisions_evaluator.c:349-399 | the stages of a completed course are met one after another |
| `Course.CollidedAppend` | controllers/crazyflie_runtime_v2/progression_combined_decisions_evaluator.c:359-372 | the collision flag is raised exactly by a contact that touches the hazard |
| `CombinedEvaluator.OneWayIsOpen` | controllers/crazyflie_runtime_v2/progression_combined_decisions_evaluator.c:82-86 | in every pattern exactly the barrier before the valid way is sunk |
| `MissionMeaning.CombinedMeans` | controllers/crazyflie_runtime_v2/progression_combined_decisions_evaluator.c:349-399 | the stages of the combined mission in metres; the left way counts before the right one and that one before the front, and only the valid one is right |
| `MissionMeaning.MemoryMeans` | controllers/crazyflie_runtime_v2/progression_combined_decisions_evaluator.c:453-532 | the stages of the memory mission in metres, with the side that the panel told in each row |
| `MissionMeaning.WaysTakeTurns` | controllers/crazyflie_runtime_v2/progression_combined_decisions_evaluator.c:285-291 | of every three consecutive attempts each has another valid way |
| `MissionMeaning.PanelsTakeTurns` | controllers/crazyflie_runtime_v2/progression_combined_decisions_evaluator.c:312-317 | the two panels take turns, and tell opposite sides |
| `MissionMeaning.CollidesMeans` | controllers/crazyflie_runtime_v2/progression_combined_decisions_evaluator.c:154-161 | a sample collides exactly when one of its contacts is within 7.4 cm of the axis and 55.4 cm of the centre of a barrier |
| `MissionMeaning.LandedMeans` | controllers/crazyflie_runtime_v2/progression_combined_decisions_evaluator.c:424-429 | landed means at most 7 cm above the origin and at most 0.12 m/s along and across the ground |
| `CombinedEvaluator.Mission.Advance` | controllers/crazyflie_runtime_v2/progression_combined_decisions_evaluator.c:349-399 | trying one stage changes nothing that the sample-by-sample course would not |
| `CombinedEvaluator.Mission.AchievedIsReached` | controllers/crazyflie_runtime_v2/progression_combined_decisions_evaluator.c:425-434 | success means exactly that every stage was met in order, nothing was touched, and the vehicle landed at the arrival |
| `CombinedEvaluator.Mission.Judge` | controllers/crazyflie_runtime_v2/progression_combined_decisions_evaluator.c:401-450 | a verdict is given exactly when a probe finds a failure, or a completed attempt has failed, succeeded or used up its settle time, and says which |
| `CombinedEvaluator.Evaluator.Configure` | controllers/crazyflie_runtime_v2/progression_combined_decisions_evaluator.c:285-340 | a new attempt sets up both courses, the barriers and the panel, and forgets everything seen |
| `CombinedEvaluator.Evaluator.TrackCombined` | controllers/crazyflie_runtime_v2/progression_combined_decisions_evaluator.c:349-399 | one sample keeps the flags of the combined mission equal to what its samples met |
| `CombinedEvaluator.Evaluator.TrackMemory` | controllers/crazyflie_runtime_v2/progression_combined_decisions_evaluator.c:453-532 | one sample keeps the flags of the memory mission equal to what its samples met, and the panel stands until the mission hides it |
| `CombinedEvaluator.Evaluator.Step` | controllers/crazyflie_runtime_v2/progression_combined_decisions_evaluator.c:282-585 | one iteration is one gate step for each mission and writes at most one verdict; the memory mission misses the sample on which the combined one is judged |
| `CombinedEvaluator.IterationIsTwoDecisions` | controllers/crazyflie_runtime_v2/progression_combined_decisions_evaluator.c:282-585 | one iteration is two consecutive steps of the protocol on one reading of the field |
| `ReactiveEvaluator.CountIsCrossings` | controllers/crazyflie_runtime_v2/progression_reactive_evaluator.c:210-239 | the checkpoint index counts checkpoints crossed from take-off on, each first met in a later sample than the one before |
| `ReactiveEvaluator.CountDetermined` | controllers/crazyflie_runtime_v2/progression_reactive_evaluator.c:210-239 | that account of the samples is unique |
| `ReactiveEvaluator.StruckGrows` | controllers/crazyflie_runtime_v2/progression_reactive_evaluator.c:213-225 | a collision is a contact with a barrier as it stood before that sample |
| `ReactiveEvaluator.CrossedIsAirborne` | controllers/crazyflie_runtime_v2/progression_reactive_evaluator.c:227 | no checkpoint is crossed before take-off |
| `MissionMeaning.RowMeans` | controllers/crazyflie_runtime_v2/progression_reactive_evaluator.c:105-135 | each barrier stands 15 cm before the line of its checkpoint and in the way exactly of a blocked row; a checkpoint is one step on and one aside for every blocked row passed |
| `MissionMeaning.RowsTakeTurns` | controllers/crazyflie_runtime_v2/progression_reactive_evaluator.c:27-33 | the rows of four consecutive attempts all differ, and come back |
| `ReactiveEvaluator.Evaluator.Lay` | controllers/crazyflie_runtime_v2/progression_reactive_evaluator.c:114-133 | the rows are laid out one after another in place, stepping aside for every blocked one, with only the first shown |
| `ReactiveEvaluator.Evaluator.Cross` | controllers/crazyflie_runtime_v2/progression_reactive_evaluator.c:227-239 | crossing a checkpoint shows the next row, so exactly the blocked rows up to the current one stand |
| `ReactiveEvaluator.Evaluator.Track` | controllers/crazyflie_runtime_v2/progression_reactive_evaluator.c:210-239 | one sample keeps flags, index and world equal to what the samples of the attempt met |
| `ReactiveEvaluator.Evaluator.Judge` | controllers/crazyflie_runtime_v2/progression_reactive_evaluator.c:241-281 | a verdict is given exactly when due, and is achieved exactly for a course crossed in order without a touch that ends landed at the last checkpoint |
| `ReactiveEvaluator.Evaluator.Step` | controllers/crazyflie_runtime_v2/progression_reactive_evaluator.c:186-282 | one turn refines the evaluator of the protocol and keeps all of the above |
| `FlightProfile.WrapAngle` | controllers/crazyflie_runtime_v2/crazyflie_runtime_v2.c:113-119 | both loops end and return the representative of the angle in (-pi, pi] |
| `FlightProfile.WrappedInRange` | controllers/crazyflie_runtime_v2/crazyflie_runtime_v2.c:113-119 | that representative is in range and a whole number of turns away |
| `FlightProfile.LandReferenceDescends` | controllers/crazyflie_runtime_v2/crazyflie_runtime_v2.c:97-103 | the landing reference starts at the start height, never climbs, never falls below ground and is never steeper than the approach slope |
| `FlightProfile.LandReferenceSlowsDown` | controllers/crazyflie_runtime_v2/crazyflie_runtime_v2.c:97-103 | within the last 30 cm it is never steeper than the descent slope |
| `FlightProfile.LandReferenceArrives` | controllers/crazyflie_runtime_v2/crazyflie_runtime_v2.c:97-103 | it is on the ground exactly from the end of both phases on |
| `FlightProfile.SimulationClock.Begin` | controllers/crazyflie_runtime_v2/simulation_clock.h:10-13 | starts a lifetime at a finite nonnegative time, and is revoked at any other |
| `FlightProfile.SimulationClock.Read` | controllers/crazyflie_runtime_v2/simulation_clock.h:14-22 | answers the time since the start exactly while active, at a finite time that does not run backwards, and revokes otherwise |
| `FlightRuntime.MoveIsStraight` | controllers/crazyflie_runtime_v2/crazyflie_runtime_v2.c:650-681 | in body axes a move aims exactly the requested distance ahead, behind, left or right, at the height already aimed at |
| `FlightRuntime.AimIsSafe` | controllers/crazyflie_runtime_v2/crazyflie_runtime_v2.c:628-753 | every admitted flight request needs and has the right flight state, and take-offs and climbs aim between 0.2 m and 1.5 m above ground |
| `FlightMeaning.AdmittedExactly` | controllers/crazyflie_runtime_v2/crazyflie_runtime_v2.c:628-753 | the exact limits within which each flight request is admitted |
| `FlightMeaning.LimitExactly` | controllers/crazyflie_runtime_v2/crazyflie_runtime_v2.c:682-690 | VERTICAL_LIMIT answers exactly a well-formed climb or descent that would leave 0.2 m to 1.5 m above the ground |
| `FlightMeaning.AimIsAsked` | controllers/crazyflie_runtime_v2/crazyflie_runtime_v2.c:628-753 | an admitted climb aims its value above the present height, a descent below; a turn aims its angle to the left, up to whole turns; a take-off aims its value above the ground; everything else is held |
| `FlightMeaning.AnsweredExactly` | controllers/crazyflie_runtime_v2/crazyflie_runtime_v2.c:552-627 | the exact limits within which SCENE, RANGE, SPEED and LIGHT are answered, and with what |
| `FlightMeaning.TripsExactly` | controllers/crazyflie_runtime_v2/crazyflie_runtime_v2.c:758-826 | the fail-safe trips exactly past 1.2 rad of roll or pitch while flying, past 25 s of a command, and past 5 s of RESET |
| `FlightMeaning.MetIsThere` | controllers/crazyflie_runtime_v2/crazyflie_runtime_v2.c:828-1011 | the tolerance of an admitted order is met exactly when the vehicle is within 3 cm along the ground and 5 cm of height of where the request asked, within 2 degrees of the heading it asked up to whole turns, and slow |
| `FlightMeaning.OkIsThere` | controllers/crazyflie_runtime_v2/crazyflie_runtime_v2.c:628-1011 | every order answered OK had the vehicle, through at least 0.5 s (RESET 0.25 s), where its request asked it to be |
| `FlightRuntime.Flight.HandleStop` | controllers/crazyflie_runtime_v2/crazyflie_runtime_v2.c:498-521 | STOP is refused during RESET; otherwise it fails the active command, holds the pose and latches the fail-safe |
| `FlightRuntime.Flight.HandleReset` | controllers/crazyflie_runtime_v2/crazyflie_runtime_v2.c:526-552 | RESET grounds the vehicle, clears the latch, restores target and speed limit, revokes the clock and becomes the active order |
| `FlightRuntime.Flight.HandleInstant` | controllers/crazyflie_runtime_v2/crazyflie_runtime_v2.c:557-627 | requests answered at once; ELAPSED answers exactly while airborne with a live clock |
| `FlightRuntime.Flight.HandleMotion` | controllers/crazyflie_runtime_v2/crazyflie_runtime_v2.c:628-755 | each flight request is refused for the stated reason, changing nothing, or becomes the active command with the target of its request and a fresh window; what reasons and targets mean is in `FlightMeaning` |
| `FlightRuntime.Flight.HandleRequest` | controllers/crazyflie_runtime_v2/crazyflie_runtime_v2.c:488-756 | one request is received once and answered at most once by its own identifier; an accepted one is the active order, with its command, its target and a fresh window; a latched fail-safe is left only by RESET |
| `FlightRuntime.Flight.Guard` | controllers/crazyflie_runtime_v2/crazyflie_runtime_v2.c:758-826 | fails the active command and latches exactly on an unsafe attitude or past 25 s (RESET 5 s) |
| `FlightRuntime.Flight.CheckReady` | controllers/crazyflie_runtime_v2/crazyflie_runtime_v2.c:828-996 | the tolerance of each command, with wrapped yaw errors |
| `FlightRuntime.Flight.Note` | controllers/crazyflie_runtime_v2/crazyflie_runtime_v2.c:836-1001 | the stable time is that of the first sample of an unbroken stretch that met the tolerance of the active order |
| `FlightRuntime.Flight.Settle` | controllers/crazyflie_runtime_v2/crazyflie_runtime_v2.c:828-1011 | answers OK exactly when the stretch fills the window of the command, or a WAIT in tolerance has lasted its time, and records the order with the stretch |
| `FlightRuntime.Flight.OkIsHeld` | controllers/crazyflie_runtime_v2/crazyflie_runtime_v2.c:628-1011 | every order answered OK had been admitted, and each processed sample of a stretch of at least 0.5 s (RESET 0.25 s) met the tolerance of its command at the target of its request; a WAIT lasted the time it asked for |
| `FlightRuntime.Flight.Touch` | controllers/crazyflie_runtime_v2/crazyflie_runtime_v2.c:131-143 | touchdown is latched by ground contact near the ground and lasts as long as the landing |
| `FlightRuntime.Flight.Step` | controllers/crazyflie_runtime_v2/crazyflie_runtime_v2.c:454-1042 | every request received is answered or in progress, the active command executes the latest admitted order, no command outlives its limit, every OK for an action is backed by a settled order of that identifier, the latch lasts until RESET, and no thrust follows a touchdown while LAND lasts |
| `FlightProtocol.RequestIsFlightStep` | controllers/crazyflie_runtime_v2/crazyflie_runtime_v2.c:488-756 | handling a request is a flight step of the attempt protocol, answers included |
| `FlightProtocol.ClosingIsFinish` | controllers/crazyflie_runtime_v2/crazyflie_runtime_v2.c:758-1011 | ending the active command is the finishing step of the attempt protocol |
| `Deadline.Hooks.Start` | controllers/grand_prix_u_flight/grand_prix_u_deadline.cpp:164-183 | admits an announced attempt once; any other call marks expiry and publishes a failure |
| `Deadline.Hooks.Tick` | controllers/grand_prix_u_flight/grand_prix_u_deadline.cpp:184-215 | the observation hook: latches success, or expiry with one LAND demand, and publishes the failed outcome |
| `Deadline.Hooks.NextStep` | controllers/grand_prix_u_flight/grand_prix_u_deadline.cpp:216-223 | the normal step, shortened to end at the limit while an attempt is undecided |
| `Deadline.Hooks.ResetComplete` | controllers/grand_prix_u_flight/grand_prix_u_deadline.cpp:224-231 | a completed RESET restores the initial variables |
| `Deadline.Hooks.FilterRaw` | controllers/grand_prix_u_flight/grand_prix_u_deadline.cpp:238-290 | which raw messages reach the broker, the replies to the others, and the failed outcome restored first |
| `Deadline.RunKeepsInvariant` | controllers/grand_prix_u_flight/grand_prix_u_deadline.cpp:164-290 | the invariant over every run of turns, take-offs, messages, resets and field writes |
| `Deadline.DeadlineIsExact` | controllers/grand_prix_u_flight/grand_prix_u_deadline.cpp:184-223 | in every run at most one LAND per attempt, exactly 210000 ms after its begin and never after a success; success is latched strictly before; with one take-off per attempt an undecided attempt expires exactly at the limit |
| `Deadline.SuccessNeedsLanding` | controllers/grand_prix_u_flight/grand_prix_u_deadline.cpp:199-214 | success is latched only by a landed observation of the achieved outcome of the same attempt inside the time |
| `Deadline.SuccessLasts` | controllers/grand_prix_u_flight/grand_prix_u_deadline.cpp:184-215 | a latched success lasts until RESET is confirmed, without any LAND demand |
| `Deadline.TurnsReachLimit` | controllers/grand_prix_u_flight/grand_prix_u_deadline.cpp:216-223 | n turns without success take the clock n periods from the begin, or expire it exactly at the limit |
| `Deadline.ExpiryFences` | controllers/grand_prix_u_flight/grand_prix_u_deadline.cpp:280-287 | after expiry exactly OUTCOME, a landed RESET and messages that are no requests pass |
| `Deadline.FilterPasses` | controllers/grand_prix_u_flight/grand_prix_u_deadline.cpp:244-290 | the exact passing condition for every message in every state |
| `Deadline.ExpiredNeverReportsAchieved` | controllers/grand_prix_u_flight/grand_prix_u_deadline.cpp:239 | in an expired attempt no OUTCOME query is answered achieved, whatever was written to the field |
| `Deadline.SecondTakeOffExpires` | controllers/grand_prix_u_flight/grand_prix_u_deadline.cpp:172-177 | a take-off during an attempt is refused and marks it expired, success or not |
| `Deadline.SuccessCanExpire` | controllers/grand_prix_u_flight/grand_prix_u_deadline.cpp:175-176 | a concrete run that ends both successful and expired |
| `Deadline.RestartDisarms` | controllers/grand_prix_u_flight/grand_prix_u_deadline.cpp:184-203 | after such a second take-off the LAND demand stays disarmed for the rest of the attempt |
| `Median.Sorted` | experiments/crazyflie-ukf-surface-range/frozen_vertical_predictor.py:117-118 | the ascending arrangement of the same elements |
| `Median.MedianMonotone` | experiments/crazyflie-ukf-surface-range/frozen_vertical_predictor.py:117-118 | raising any elements never lowers the median |
| `Median.MedianIsMiddle` | experiments/crazyflie-ukf-surface-range/frozen_vertical_predictor.py:117-118 | the median is the mean of the elements of the two middle ranks, which are one rank for an odd number of elements |
| `Median.RankIsUnique` | experiments/crazyflie-ukf-surface-range/frozen_vertical_predictor.py:117-118 | only one value has a given rank, so that the ranks fix the median |
| `Median.MedianFromRanks` | experiments/crazyflie-ukf-surface-range/frozen_vertical_predictor.py:117-118 | whatever has the two middle ranks gives the median |
| `VerticalReplay.ForceEncloses` | experiments/crazyflie-ukf-surface-range/frozen_vertical_predictor.py:100-114 | the true force along any vertical within the tilt bound, for any force within the error bound, is in the interval |
| `VerticalReplay.ProjectEncloses` | experiments/crazyflie-ukf-surface-range/frozen_vertical_predictor.py:231-248 | for every force within the error of the row, every vertical within the tilt bound and every zero level in the zero interval, the true vertical acceleration lies between the bounds of the projected row |
| `VerticalReplay.ZeroCovers` | experiments/crazyflie-ukf-surface-range/frozen_vertical_predictor.py:121-148 | the median of the true vertical forces of the calibration lies in the zero interval |
| `VerticalReplay.PreparedExactly` | experiments/crazyflie-ukf-surface-range/frozen_vertical_predictor.py:121-145 | calibration is accepted exactly with 30 s and 100 rows inside it for every admissible endpoint, and with usable bounds |
| `VerticalReplay.ZeroNested` | experiments/crazyflie-ukf-surface-range/frozen_vertical_predictor.py:121-148 | the nominal zero level lies in the zero interval, for any accelerometer stream |
| `VerticalReplay.SamplesNested` | experiments/crazyflie-ukf-surface-range/frozen_vertical_predictor.py:231-248 | every projected sample has its nominal acceleration inside its bounds, in time order |
| `VerticalReplay.SampledExactly` | experiments/crazyflie-ukf-surface-range/frozen_vertical_predictor.py:231-248 | rows are accepted exactly when at least two lie within 60 ms of the range and no two consecutive ones are over 50 ms apart |
| `VerticalReplay.SampledRows` | experiments/crazyflie-ukf-surface-range/frozen_vertical_predictor.py:231-243 | every row within the margin is projected |
| `VerticalReplay.BracketedNested` | experiments/crazyflie-ukf-surface-range/frozen_vertical_predictor.py:251-262 | interpolation keeps the bounds around the nominal value and never fails inside coverage |
| `VerticalReplay.InterpolatesInside` | experiments/crazyflie-ukf-surface-range/frozen_vertical_predictor.py:251-262 | interpolation succeeds exactly inside coverage, and what it gives lies on the straight line between two consecutive samples |
| `VerticalReplay.ReplayMonotone` | experiments/crazyflie-ukf-surface-range/frozen_vertical_predictor.py:275-285 | a forward replay is monotone in the initial speed and in every acceleration |
| `VerticalReplay.ReplayOfConstant` | experiments/crazyflie-ukf-surface-range/frozen_vertical_predictor.py:271-285 | under a constant acceleration the replay is the motion of that acceleration, whatever the instants |
| `VerticalReplay.Integrate` | experiments/crazyflie-ukf-surface-range/frozen_vertical_predictor.py:271-285 | the integration loop replays nominal, lower and upper accelerations side by side |
| `VerticalReplay.IntegrateProjected` | experiments/crazyflie-ukf-surface-range/frozen_vertical_predictor.py:265-285 | refuses empty durations and missing coverage, and integrates from one interpolated end to the other otherwise |
| `VerticalReplay.IntegrationIsExact` | experiments/crazyflie-ukf-surface-range/frozen_vertical_predictor.py:265-285 | the displacement interval is the exact range over all admissible accelerations and initial speeds, the nominal replay among them |
| `VerticalReplay.ImuSegment` | experiments/crazyflie-ukf-surface-range/frozen_vertical_predictor.py:288-316 | accepts exactly when rows cover the anchors without gaps and take time; the reported interval is the replay between the anchors widened by the timing and intersample terms |
| `EventTiming.TimingCovers` | experiments/crazyflie-ukf-surface-range/frozen_vertical_predictor.py:294-308 | for any motion of bounded acceleration, moving both ends of a displacement changes it by at most the timing term |
| `EventTiming.SegmentCoversMotion` | experiments/crazyflie-ukf-surface-range/frozen_vertical_predictor.py:288-309 | the same for every motion whose accelerations lie within the projected bounds |
| `EventTiming.SegmentCoversEvent` | experiments/crazyflie-ukf-surface-range/frozen_vertical_predictor.py:231-309 | when the true forces, tilts and zero level are within the declared sensor bounds, the reported interval contains the displacement of the motion between every admissible start and end of the event |
| `WindowCoverage.CandidatesCover` | experiments/crazyflie-ukf-surface-range/frozen_vertical_predictor.py:175-189 | every real start in the range selects exactly the rows of some candidate start |
| `WindowCoverage.SelectedExactly` | experiments/crazyflie-ukf-surface-range/frozen_vertical_predictor.py:192-194 | a window selects exactly the rows from its start to before its end |
| `WindowCoverage.AcceptedExactly` | experiments/crazyflie-ukf-surface-range/frozen_vertical_predictor.py:192-199 | a window is accepted exactly with 20 rows, the first near its start and the last near its end |
| `WindowCoverage.CandidateWindowStarts` | experiments/crazyflie-ukf-surface-range/frozen_vertical_predictor.py:175-189 | the candidates, in ascending order, or a refusal for a reversed range |
| `WindowCoverage.MedianOverWindowRange` | experiments/crazyflie-ukf-surface-range/frozen_vertical_predictor.py:202-208 | the extremes over the candidates bound both medians at every real start in the range and are attained by windows of the range |
| `WindowCoverage.BarometerPrediction` | experiments/crazyflie-ukf-surface-range/frozen_vertical_predictor.py:211-228 | accepts exactly when every candidate window of both ranges has its rows and edges; for every pair of window positions in the ranges the drift-corrected contrast, widened by the declared error, is then in the predicted interval, which combines exactly the attained extremes of both ranges |
| `LogClock.ReadBarometer` | experiments/crazyflie-ukf-surface-range/frozen_pressure_probe.py:31-57 | accepts exactly nonempty streams of valid stamps, increasing host times and gaps of 1 to 40 ms, and sums the gaps |
| `LogClock.UnwrapRows` | experiments/crazyflie-ukf-surface-range/frozen_vertical_predictor.py:54-91 | accepts exactly the aligned streams with bounded gaps, and reports the offset from the origin nearest to zero |
| `LogClock.BarometerClockIsTrue` | experiments/crazyflie-ukf-surface-range/frozen_pressure_probe.py:37-54 | summing gaps recovers true elapsed time across any number of wraparounds when true steps are at most 40 ms |
| `LogClock.OriginClockIsTrue` | experiments/crazyflie-ukf-surface-range/frozen_vertical_predictor.py:76-84 | unwrapping from an origin gives the true time and accepts a stream of short steps exactly while it stays within half a period |
| `LogClock.ClocksAgree` | experiments/crazyflie-ukf-surface-range/frozen_vertical_predictor.py:60-88 | both readers report the same times on every stream both accept |
| `Base64.Encode` | controllers/crazyflie_runtime_v2/file_broker.cpp:45-59 | the encoding loop computes the group-wise encoding |
| `Base64.Decode` | controllers/crazyflie_runtime_v2/file_broker.cpp:70-94 | the decoding loop accepts exactly well-formed groups and returns their bytes |
| `Base64.DecodeAfterEncode` | controllers/crazyflie_runtime_v2/file_broker.cpp:45-93 | decoding after encoding is the identity on all byte strings (section 4 of RFC 4648) |
| `Base64.EncodeAfterDecode` | controllers/crazyflie_runtime_v2/file_broker.cpp:70-94 | encoding what was decoded gives the text back exactly when no discarded bit is set |
| `Base64.SloppyTextDecodes` | controllers/crazyflie_runtime_v2/file_broker.cpp:70-93 | a text with discarded bits set that decodes although it is no encoding |
| `Base64.EncodingChars` | controllers/crazyflie_runtime_v2/file_broker.cpp:45-59 | an encoding holds only alphabet characters and padding |
| `FileBroker.SplitWords` | controllers/crazyflie_runtime_v2/file_broker.cpp:96-103 | splits at white space into nonempty words without any |
| `FileBroker.HandleMessage` | controllers/crazyflie_runtime_v2/file_broker.cpp:139-223 | the branches of the handler up to the provider call |
| `FileBroker.ParseDigits` | controllers/crazyflie_runtime_v2/file_broker.cpp:157-165 | a string of digits, alone or behind a sign, is read exactly when its value fits the int type |
| `FileBroker.ParseDecimal` | controllers/crazyflie_runtime_v2/file_broker.cpp:157-165 | a decimal identifier is read back exactly when it fits |
| `FileBroker.SafeNameMeans` | controllers/crazyflie_runtime_v2/file_broker.cpp:38-43 | a safe name names an entry of its directory: 1 to 255 bytes, no separator, no NUL, no dots alone |
| `FileBroker.SafeTokenMeans` | controllers/crazyflie_runtime_v2/file_broker.cpp:23-26 | a safe token has 1 to 128 letters, digits, underscores and hyphens |
| `FileBroker.SpaceMeans` | controllers/crazyflie_runtime_v2/file_broker.cpp:96-103 | the six characters between words |
| `FileBroker.FramedSaveAs` | controllers/crazyflie_runtime_v2/file_broker.cpp:184-197 | a framed SAVE_AS reaches the provider with exactly its name and bytes if and only if the name is safe and the bytes are nonempty and at most 4 MiB; every other one is refused for the stated reason |
| `FileBroker.FramedSave` | controllers/crazyflie_runtime_v2/file_broker.cpp:198-210 | a framed SAVE reaches the provider with exactly its reference and bytes if and only if the reference is a safe token and the bytes are nonempty and at most 4 MiB; every other one is refused for the stated reason |
| `BlockWalk.Measurer.Visit` | tools/blockly/measure_wbb.py:53-109 | the recursive walk accepts exactly distinct identifiers within the count and depth limits, and accumulates kinds, depths and the longest chain |
| `BlockWalk.Analyze` | tools/blockly/measure_wbb.py:111-145 | accepts exactly the acceptable projects and reports what their blocks and chains amount to |
| `BlockWalk.MainChain` | tools/blockly/measure_wbb.py:118-125 | the length of the main chain |
| `BlockWalk.CountDecisionSites` | tools/blockly/compare_wbb.py:27-78 | the explicit-stack walk ends, visits every block of the project once, and is refused exactly for a malformed IF state |
| `BlockWalk.WalksSeeTheSame` | tools/blockly/compare_wbb.py:40-78 | both walks see the same multiset of blocks and kinds, so IF and loop counts equal the type counts |
| `BlockWalk.GoodMeans` | tools/blockly/compare_wbb.py:47-56 | an IF state is refused exactly when it is malformed, flags no boolean or counts beyond 0 to 1000 |
| `BlockWalk.TestsAreLeast` | tools/blockly/compare_wbb.py:56-61 | the tests of an IF are the least number that exceeds the count of its state and every index among its inputs |
| `BlockWalk.HasElseMeans` | tools/blockly/compare_wbb.py:64 | the else slot is counted when it is connected or the state says so |
| `BlockWalk.InputMeans` | tools/blockly/measure_wbb.py:86-100 | a shadow is seen exactly when nothing is connected |
| `BlockWalk.ChainsAreOrdered` | tools/blockly/measure_wbb.py:53-136 | main chain <= longest chain <= total blocks |
| `PeCanonical.NormalizeController` | packaging/webots-r2025a-parent-safe/package_windows_private.py:56-84 | accepts exactly the executables with a known header and rewrites only them |
| `PeCanonical.AcceptedMeans` | packaging/webots-r2025a-parent-safe/package_windows_private.py:62-66 | what is accepted, byte by byte: both signatures at their offsets and one of the two optional headers |
| `PeCanonical.FoldWords` | packaging/webots-r2025a-parent-safe/package_windows_private.py:72-78 | the folded sum is the representative of the true word sum modulo 65535, at most 0xffff, zero only for zero |
| `PeCanonical.FoldedIsCongruent` | packaging/webots-r2025a-parent-safe/package_windows_private.py:75-78 | the folded sum is congruent to the true sum modulo 65535 |
| `PeCanonical.StoredChecksum` | packaging/webots-r2025a-parent-safe/package_windows_private.py:72-80 | the four bytes at 88 into the header encode the end-around sum of the blanked words plus the length, modulo 2^32 |
| `PeCanonical.Normal` | packaging/webots-r2025a-parent-safe/package_windows_private.py:67-84 | only the eight timestamp and checksum bytes differ from the input |
| `PeCanonical.NormalForgetsMetadata` | packaging/webots-r2025a-parent-safe/package_windows_private.py:67-80 | inputs that differ only in those eight bytes give identical results |
| `PeCanonical.NormalIsIdempotent` | packaging/webots-r2025a-parent-safe/package_windows_private.py:56-80 | normalising again is accepted exactly when the header offset is outside 0x31 to 0x34, and then changes nothing |

## Left out

- Floating-point rounding, `nextafter` and outward rounding of the enclosures: arithmetic is exact, and the representable neighbours of a window end are arbitrary numbers.
- WorldZModule.WorldZ.FiniteState: tests only the diagonal signs, because exact arithmetic never leaves the finite numbers; overflow is not modelled.
- Trigonometric functions and square roots: parameters of which only signs, bounds and the identities used are assumed.
- Parsing: requests, markers, CSV rows, JSON projects and specifications start as parsed values; only base64, word splitting and the identifier of file requests are modelled character by character.
- `witness` and hash checks of the metric reference, and its sections beyond clocks and intervals.
- The barometer drift slope of `preparation` (a least-squares fit): a parameter of `WindowCoverage.BarometerPrediction`.
- EventTiming.SegmentCoversEvent: that between the rows the acceleration is at most what the sensor bounds admit at some row, and stays within the declared deviation of the means of the true row accelerations, is a premise, as it is for the predictor.
- Flight: PID gains and motor power, the LED, traces, scene switching and the values of the landing reference inside the loop; motors are stopped, controlled or unchanged.
- Attempt numbers that wrap at the largest 64-bit value are modelled in the broker but excluded from the protocol runs, as are reused request identifiers.
- CombinedEvaluator.Mission: the milestone flags of the source, which rise in order, are kept as one count with one wrong-way flag.
- The precise-landing evaluator, which publishes without being named by a marker.
- Route mode of the deadline hooks (random epochs, freshness evidence), and a vehicle field that cannot be found there.
- Supervisor restarts, world import, and in the autonomous activity the geometry of barriers beyond which of them stand.
- The file provider itself and the responses built from its results.
- BlockWalk.Measurer.Visit: the refusals of malformed types, fields, inputs and connections are not modelled, because blocks start as parsed values; those of identifiers, counts, depths and IF states are.
- BlockWalk.Analyze: project format, activity metadata, variable declarations and procedure counts.
- `local_flow_velocity`, result reports, CI drivers, probes, packaging manifests and source patching.
