# TritonOS control and sensing: a verified model

TritonOS runs a remotely operated underwater vehicle. This project models the parts of it whose
mistakes move hardware or mislead the pilot, and proves what they keep:

- **Actuation safety.** `Pwm` specifies the PWM writer as a transition on its state, `PwmRuns` proves what
  every run of calls keeps (`PwmAux` for the auxiliary outputs), `PwmLaws` what one write puts out, in terms of
  command and configuration alone, and `ThrustWriters` is the writer itself as an object over a clock and a
  recording backend. `Arming` holds the rules that arm and disarm; `ControlServices` is the control loop as
  an object that owns those rules' state and drives the writer, `TickLaws` what one of its ticks sends.
  `ControlServices.Safe` is where they meet.
- **Thrust shaping.** `ThrustLimit` (mixer, peak cap, budget, deadband, ramp), `CurrentModel` (the bilinear
  current table and the bisection on it), `BudgetPromise` (when that bisection
  finds the largest scale) and `GripperMix` (the differential gripper, the calibration tool's second version of
  it, and the park move).
- **Hold controllers.** `Windup`, `DepthHold`, `StationKeep`, `Attitude` and `Autopilot`: each a transition
  function with run lemmas, and an object whose `Step` is proved to make exactly that transition. `DepthLaws`,
  `KeepLaws`, `AttitudeLaws` and `AutopilotLaws` say which way each of them acts and how far (`Feedback` is the sum
  they share).
- **Video.** `GopPicker`: the ring of compressed units, the walk back to a keyframe, the stereo pick.
- **Sensors and configuration.** `Crc4` and `Crc4Detection` (the MS5837 PROM checksum), `Rotation` (the
  attitude estimator's vector algebra), `PowerSense` (median, channel tracking, outlier filter; `PowerLaws` for one read) and
  `ConfigStore` (the in-place edit of the configuration file). `Prelude` holds what they share.

Floats are modelled as reals, so rounding, overflow and NaN are not; a depth sample that is not finite is a
case of its own. Time is read from a clock that never goes back. The PWM backend records what it is told and
does not fail. Square roots and trigonometric functions are a parameter with the laws that are used of them.

Where a class is modelled, its methods are proved equal to a specification function on the state, and the
lemmas are about that function and its runs. `dafny verify dfyconfig.toml` checks everything.

## What the code does, where that differs from what it says

- The current budget promises the largest scale that fits, because the predicted total grows with the scale
  (control/current_model.py:141-147). The total grows with the scale if and only if no curve falls away from
  neutral (`CurrentModel.TotalMonotoneExactly`); the bundled table has small dips (14 V between 1544 and 1548 us,
  and at the ends of the 10, 12 and 16 V curves). The promise itself, for every floor, budget and number of
  steps, is kept if and only if no total short of the full one is drawn at two scales
  (`BudgetPromise.PromiseExactly`). A dip can break it (`CurrentModel.DipLosesThrust`). So can a curve that is
  flat around neutral, as the bundled ones are, when the floor draws exactly the budget, because then the floor
  is returned (`CurrentModel.FloorTieStops`, and for V-shaped curves exactly when, `CurrentModel.NearMaximalExactly`).
  Staying within the budget needs none of this: `CurrentModel.ScaleWithinBudget`.
- A frame that is new but already stale can arm (`Arming.StaleFrameArms`); the exact condition is
  `Arming.ArmedOnlyByEdge`.
- The stale timer is not cleared while disarmed, so the failsafe can disarm too early
  (`Arming.FailsafeFiresEarly`): exactly when a stale arming tick found an older timer (`Arming.TimerExact`,
  `Arming.OlderTimerKept`). Otherwise it acts on time (`Arming.FailsafeOnTime`), and never late
  (`Arming.FailsafeHolds`).
- Trim is added after the pulse clamp: `PwmRuns.TrimEscapesFullSpan`.
- A trim outside the microsecond deadband keeps a thruster pushing at rest: `PwmAux.RestIsNeutral`.
- Two writes at one clock reading bypass the auxiliary slew limit: `PwmAux.SlewNeedsTime`.
- PWM goes off on disarm only if no auxiliary output holds it on: `PwmRuns.PwmAfterDisarm`.
- The wrist channel is neither capped nor ramped: `ControlServices.WristMovesAtRampZero`, and what decides it,
  `ControlServices.WristWithinExactly`.
- Captured frames and access units share one counter, so a capture makes delta units undecodable until the
  next keyframe: `GopPicker.CaptureBreaksGop`, `GopPicker.TailDecodable`.
- A non-finite depth, or an attitude step without data, forgets a manual latch; exactly when, over any run:
  `DepthHold.LatchSurvivesExactly`, `Attitude.LatchOverRun`.
- Damp mode is described as the manual command plus rate damping (control/autopilot.py:114-123). The sum is
  clamped, so a stick beyond the limit is cut: `Attitude.DampCutsFullStick`, and exactly when,
  `Attitude.DampExactly`.
- Below one degree of servo range, and only there, the control loop and the calibration tool mix differently:
  `GripperMix.ToolAgreesExactly`.
- Configuration updates that share a line overwrite each other: `ConfigStore.SharedLineLosesFirst`,
  `ConfigStore.TouchingLosesLater`, and exactly when, `ConfigStore.SpansAreSafeExactly`. One update also erases
  an assignment nobody updates that shares a line with it: `ConfigStore.SoleUpdateTakesLine`, and exactly when,
  `ConfigStore.BystanderKeptExactly`.
- The power filter never takes up a reading that it does not accept the first time, a real change of battery
  among them: `PowerSense.SteadyTakenUpExactly`, `PowerSense.LatchedOutExactly`.

## Model

| member | source | states |
|---|---|---|
| `PwmRuns.ThrustToUsMonotone` | motion/pwm.py:49-64 | More thrust, of any size, never gives a shorter pulse, through the deadband, both clamps and banker's rounding. |
| `PwmRuns.PulseRangeDecidedAtExtremes` | motion/pwm.py:1235-1251 | Trim is added after the min/max clamp. Every command stays in [min,max] if and only if the two extreme commands do. |
| `PwmRuns.TrimEscapesFullSpan` | motion/pwm.py:1235-1251 | With a span that reaches both limits, every pulse stays in range if and only if the trim is zero: any other trim breaks the limits. |
| `Pwm.SlewDt` | motion/pwm.py:1033-1039 | Credited time is never negative, none for a first write, at most the cap, and exactly the time passed when that is within the cap. |
| `Pwm.Approach` | motion/pwm.py:1055-1062 | Moves towards the target, never past it, by at most the allowance; lands on it when it is within reach. |
| `PwmRuns.SlewOneBounds` | motion/pwm.py:1018-1068 | One slew step stays in [-1,1] and between the previous value and the target, and moves at most rate times dt. |
| `PwmRuns.WriteSlews` | motion/pwm.py:1213-1233 | A write that is let through advances every channel by exactly one slew step towards that channel's own target, from its own last value. |
| `PwmRuns.SlewSinceForced` | motion/pwm.py:1013-1068 | Over any run of arm, disarm, shutdown and write, every slewed command is in [-1,1] and at most the rate times the time since the outputs were last forced neutral. |
| `PwmRuns.CoastOne` | motion/pwm.py:1045-1062 | One zero-target write takes exactly rate times dt off the magnitude, never past zero. |
| `PwmRuns.CoastsToRest` | motion/pwm.py:1018-1068 | Under all-zero writes a channel is exactly the remainder of where it started after rate times credited time: it never changes sign. |
| `PwmRuns.AtRestAfter` | motion/pwm.py:1018-1068 | It is exactly 0 once the credited, capped time reaches one over the rate. |
| `PwmRuns.StepArmed` | motion/pwm.py:865-960 | What each call does to the armed flag and the end of the ESC hold: arm sets both, a write neither, the others clear the flag. |
| `PwmRuns.ArmedHasArm` | motion/pwm.py:865-960 | The writer is armed if and only if the latest call other than a write was an arm, and then the hold ends the configured time after that arm. |
| `PwmRuns.StepNeutral` | motion/pwm.py:1175-1253 | Counts other than neutral come only from a write that is armed and past the hold, or are still standing from before one that returned early. |
| `PwmRuns.NeutralUnlessLive` | motion/pwm.py:1206-1253 | Over any run: non-neutral counts imply armed, PWM on, and a write made after the ESC hold of the latest arm, with only writes since. |
| `PwmRuns.StaysDisarmed` | motion/pwm.py:902-945 | Without an arm, a disarmed writer stays disarmed. |
| `PwmRuns.PwmAfterDisarm` | motion/pwm.py:928-960 | From a disarm of live outputs to the next arm, through any disarms, shutdowns and writes: where the configuration asks for off, PWM is on if and only if an auxiliary output holds it on and there was no shutdown; elsewhere, if and only if a write has followed every shutdown. |
| `PwmRuns.WriteKeeps` | motion/pwm.py:1200-1208 | A write never arms or disarms, and does not turn on PWM that a disarm turned off. |
| `PwmRuns.PwmStaysOff` | motion/pwm.py:1206-1208 | Once off and disarmed under such a configuration, nothing but an arm turns PWM on again, and counts stay as they are or become neutral. |
| `PwmRuns.OffBetweenDisarmAndArm` | motion/pwm.py:902-945 | In any run, at every moment between a disarm and the next arm, PWM is off and the counts are neutral, if the configuration turns it off and no auxiliary holds it. |
| `ThrustWriters.ThrustWriter.constructor` | motion/pwm.py:855-857 | Construction leaves neutral counts out, disarmed, PWM on only when asked. |
| `ThrustWriters.ThrustWriter.DriveNeutral` | motion/pwm.py:984-992 | Neutral thruster counts, auxiliary defaults, slew memory back to zero at the time it happened. |
| `ThrustWriters.ThrustWriter.Arm` | motion/pwm.py:865-900 | Its effect is one arm event, the ESC hold counted from a clock reading no earlier than the call, the state after it exactly the specified one. |
| `ThrustWriters.ThrustWriter.Disarm` | motion/pwm.py:902-945 | Its effect is one disarm event; afterwards disarmed with neutral counts, each auxiliary as its own disarm rule says. |
| `ThrustWriters.ThrustWriter.AuxForDisarm` | motion/pwm.py:908-919 | The loop over auxiliaries gives each one its forced-off, centred or last count. |
| `ThrustWriters.ThrustWriter.Shutdown` | motion/pwm.py:947-959 | Its effect is one shutdown event; afterwards disarmed, neutral, PWM off. |
| `ThrustWriters.ThrustWriter.ApplySlewLimit` | motion/pwm.py:1045-1068 | The loop over channels computes the specified slew of every channel and stores it with its time. |
| `ThrustWriters.ThrustWriter.ExtractAux` | motion/pwm.py:1135-1172 | The loop over auxiliaries computes the specified counts and slew memory, absent commands keeping the last count. |
| `ThrustWriters.ThrustWriter.UpdateAux` | motion/pwm.py:1186-1198 | While disarmed only auxiliaries allowed to move then change. |
| `ThrustWriters.ThrustWriter.ComputeTargets` | motion/pwm.py:1219-1231 | The loop over thrusters gives the reversed, deadbanded, clamped target of each. |
| `ThrustWriters.ThrustWriter.ComputeCounts` | motion/pwm.py:1235-1251 | The loop over thrusters gives each one's trimmed count. |
| `ThrustWriters.ThrustWriter.Write` | motion/pwm.py:1175-1253 | Its effect is one write event carrying exactly the command given, and the state after it is the specified one, early return included. |
| `PwmAux.HeldWhileDisarmed` | motion/pwm.py:1191-1198 | While disarmed no run of writes moves an auxiliary that is not allowed to move then. |
| `PwmAux.WriteIsAuxStep` | motion/pwm.py:1186-1217 | Auxiliaries are computed the same on every path through a write, early return and forced neutral included. |
| `PwmAux.SlewNeedsTime` | motion/pwm.py:1160-1170 | The auxiliary limiter bounds every command by slew times dt if and only if dt is positive: at equal clock readings a command goes through whole. |
| `PwmAux.SlewedOverRun` | motion/pwm.py:1135-1172 | Over any run of writes at increasing times a slewed auxiliary moves at most its rate times the credited, capped time. |
| `PwmAux.AuxInRange` | motion/pwm.py:1095-1124 | An auxiliary's trim comes before its clamp: whatever is asked, its count is that of a pulse between its limits. |
| `PwmAux.RestIsNeutral` | motion/pwm.py:1237-1249 | A thruster at rest gets the neutral pulse if and only if its trim is zero or inside the microsecond deadband. |
| `PwmLaws.WriteReaches` | motion/pwm.py:1213-1233 | A write that is let through, with slewing off or enough time credited, leaves a thruster at the value the command has for it (by name, else channel, else channel as text, else 0), and at minus that value if it is reversed. Inside the deadband it is left at 0, beyond full command at full. |
| `PwmLaws.ReversedGoesOpposite` | motion/pwm.py:1013-1068 | Two thrusters that differ only in being reversed, coming from opposite values, stay opposite under any command and any slewing. |
| `PwmLaws.SlewRates` | motion/pwm.py:1045-1062 | The slewed value moves at the configured rate. While its sign is to change it moves at the reverse rate, if there is one and it is slower. |
| `PwmLaws.CreditCap` | motion/pwm.py:1033-1039 | The configured cap limits the time credited; a cap of 0 stands for 0.1 s, a negative one for none. |
| `PwmLaws.PulseLine` | motion/pwm.py:49-64 | Inside the limits a pulse is neutral plus the span times the value plus the trim, to the nearest microsecond, unless it is pulled to neutral by the microsecond deadband. |
| `PwmLaws.PulseLimits` | motion/pwm.py:49-64 | Beyond the limits the pulse is the limit plus the trim, unless that is within the deadband of neutral; beyond full command it is that of full command; without trim it is inside the limits. |
| `PwmLaws.CountOfPulse` | motion/pwm.py:38-46 | A count is the pulse's share of the period in 4095ths, to the nearest, and stays in the register. |
| `PwmLaws.ShippedCounts` | motion/pwm.py:38-64 | The counts of the shipped settings at rest, half and full, either way, in and out of both deadbands. |
| `PwmLaws.OnAfterDisarmExactly` | motion/pwm.py:902-945 | A disarm leaves PWM on if and only if it was on and either the switch that counts keeps it (one with hardware arming, the other without) or some auxiliary output holds it. |
| `PwmLaws.AuxAfterCalls` | motion/pwm.py:865-960 | Where construction, arm, disarm and shutdown leave each auxiliary output: off, remembered, at its disarm value or as it was. |
| `PwmLaws.SignedAux` | motion/pwm.py:1095-1124 | A signed output runs from its least pulse through its centre to its most, evenly on each side, and stays at the ends beyond full command. |
| `PwmLaws.OneSidedAux` | motion/pwm.py:1095-1124 | A one-sided output is off up to its deadband, then runs evenly from its least pulse to its most. |
| `PwmLaws.AuxTrim` | motion/pwm.py:1074-1124 | The trim of an auxiliary output moves the pulse before the clamp. |
| `PwmLaws.AuxAtDisarm` | motion/pwm.py:1074-1085 | At disarm an auxiliary output goes to its disarm value, else to rest, trim included, whichever way round its limits are. |
| `PwmLaws.AuxCommanded` | motion/pwm.py:1135-1173 | The first spelling of its name that the command uses decides an auxiliary output; without any it keeps its count. |
| `PwmLaws.AuxSlews` | motion/pwm.py:1135-1173 | With slewing a commanded auxiliary output goes to what it is told, as far as rate times credited time lets it from what it was told last; the first command, and one in the same instant, is taken at once. |
| `ThrustWriters.ThrustWriter.EnableEdge` | motion/pwm.py:875-887 | With hardware arm/disarm PWM makes exactly one off-to-on edge, even if it was on. |
| `Arming.ArmedOnlyByEdge` | control/control_service.py:719-820 | The exact condition for a tick to arm: a newly seen frame with an arm edge, no kill button down or edge, centred if required, no expired stale timer, deadman held if the frame is fresh. Freshness is not in it. |
| `Arming.CentringDecides` | control/control_service.py:726-747 | Where centring is asked for, a tick that would otherwise arm arms if and only if all six axes have a reading, each stick within its tolerance either way and each trigger up to its own. |
| `Arming.StaleFrameArms` | control/control_service.py:786-798 | A concrete frame older than the time to live that arms. |
| `Arming.KillWins` | control/control_service.py:752-758 | A kill edge or a held kill button in a new frame leaves the vehicle disarmed, whatever else the frame says. |
| `Arming.SameFrameNeverToggles` | control/control_service.py:790-798 | Over any run that re-reads one frame its buttons act no more: it never arms, and without failsafe and deadman nothing changes. |
| `Arming.StaleTimerRuns` | control/control_service.py:805-814 | While armed over any run, the stale timer started no later than the first stale tick following, or at, the last fresh-or-arming one, and has not expired. |
| `Arming.FailsafeHolds` | control/control_service.py:805-814 | With the failsafe on, armed after a tick implies the tick was fresh or less than the failsafe time has passed since that first stale tick. |
| `Arming.TimerExact` | control/control_service.py:805-814 | While armed over any run, the timer counts from exactly that tick if and only if the stale arming tick since the last fresh one, if there is one, did not find an older timer. |
| `Arming.FailsafeOnTime` | control/control_service.py:805-814 | Without such an inherited timer the failsafe disarms in a tick if and only if the tick is stale and the failsafe time has passed since the first stale tick: never early. |
| `Arming.OlderTimerKept` | control/control_service.py:805-814 | A stale arming tick that finds an older timer keeps it, although the first stale tick is its own. |
| `Arming.FailsafeFiresEarly` | control/control_service.py:805-814 | A concrete run with a failsafe of 2 s that disarms 0.5 s after arming. |
| `Arming.LongSilenceDisarms` | control/control_service.py:805-814 | A stretch of stale ticks none of which arms (no frame, or old ones read again, the arming one among them) ends disarmed once it has lasted the failsafe time, whatever came before. |
| `ControlServices.ControlService.constructor` | control/control_service.py:262-520 | Starts disarmed, with no frame seen and no sink. |
| `ControlServices.ControlService.SetHwSink` | control/control_service.py:669-683 | Attaching a writer brings it to the arming state at once, by exactly the forced synchronisation calls. |
| `ControlServices.ControlService.SyncSinkArmed` | control/control_service.py:685-717 | Calls arm once, or writes neutral and then disarms, or calls nothing when nothing is forced or changed; afterwards the writer is armed exactly when control is armed and not a dry run, and when configured so, disarmed means PWM off. |
| `ControlServices.ControlService.SendToHw` | control/control_service.py:1576-1599 | Sends exactly the payload, once, unless it is a dry run or there is no sink; never changes who is armed. |
| `ControlServices.ControlService.SendGripperParkPose` | control/control_service.py:1488-1524 | The calls made are exactly the interpolated park plan, or the park pose at once, each at least a sleep after the one before; the remembered pose ends as the park pose. |
| `ControlServices.ControlService.ParkLoop` | control/control_service.py:1508-1516 | The loop writes positions 1 to n of the plan in order, and nothing else. |
| `ControlServices.ControlService.ArmWithGripperPark` | control/control_service.py:1526-1533 | Calls arm, then the park move; afterwards armed, writer synchronised, ramp start the hardware hold after a moment inside the call. |
| `ControlServices.ControlService.DisarmWithGripperPark` | control/control_service.py:1535-1544 | Calls the park move while still armed, then neutral, then disarm; afterwards disarmed, writer synchronised, gripper pose parked. |
| `ControlServices.ControlService.HandleArming` | control/control_service.py:719-780 | The loops over buttons and the branches make exactly the specified decision; the armed flag, the gripper pose and the calls on the writer follow it. |
| `ControlServices.ControlService.UpdateArming` | control/control_service.py:790-820 | Buttons, failsafe and deadman in that order change the arming state exactly as one step of the rules, and make exactly the calls those three make. |
| `ControlServices.ControlService.ShapeThrust` | control/control_service.py:923-997 | Cap, budget, deadband loop and ramp loop together are the specified shaping. |
| `ControlServices.ControlService.ComputeGripper` | control/control_service.py:1298-1374 | A present axis moves to its clamped, inverted demand, an absent one holds or centres; the servo pair is the mix of the two. |
| `ControlServices.ControlService.Process` | control/control_service.py:790-1009 | One pass makes the arming calls and then one write: the live payload exactly when armed and fresh, otherwise the idle one. |
| `ControlServices.ControlService.DoTick` | control/control_service.py:782-1009 | One pass of the loop keeps the arming state equal to the rules run over every tick so far, the writer in step with it, and adds exactly the specified calls to the writer's log. |
| `ControlServices.ControlService.Run` | control/control_service.py:782-1083 | Any number of passes, over any frames and any mixer outputs, keep that, and see exactly those frames in that order. |
| `ControlServices.ControlService.Stop` | control/control_service.py:646-667 | Writes neutral, parks if armed, writes neutral and disarms, in that order; ends disarmed, with the writer disarmed and neutral counts out. |
| `ControlServices.PayloadWithin` | control/control_service.py:923-1009 | For any mixer output a live payload keeps every mixed command within ramp times min(THRUSTER_MAX_ABS, pilot gain). |
| `ControlServices.WristIgnoresCapAndRamp` | control/control_service.py:1002-1004 | The wrist channel carries the pilot's wrist command, neither capped nor ramped. |
| `ControlServices.WristWithinExactly` | control/control_service.py:1254-1296 | The wrist channel keeps to ramp times cap for every pilot demand if and only if its configured peak (trigger travel times speed, at most 1) does. |
| `ControlServices.WristMovesAtRampZero` | control/control_service.py:984-1004 | With the shipped deadzone and speed a full trigger sends 0.5 while the ramp is still 0. |
| `ControlServices.WristCommand` | control/control_service.py:1254-1296 | The wrist command is in [-1,1]. |
| `ControlServices.ArmCalledExactlyOnArming` | control/control_service.py:685-717 | A tick calls arm on the writer if and only if its buttons arm and it is no dry run. |
| `ControlServices.DisarmCalledLast` | control/control_service.py:1535-1544 | A tick that disarms ends its arming calls with neutral and disarm. |
| `ControlServices.PayloadCarries` | control/control_service.py:998-1009 | With distinct keys every auxiliary channel carries its own value, left and right not exchanged, and every thruster its shaped command. |
| `ControlServices.Safe` | control/control_service.py:646-1083 | In every reachable state, the one stop() leaves included: disarmed implies a disarmed writer and neutral counts (PWM off when so configured); non-neutral counts imply armed, no dry run, PWM on, and a write past the ESC hold of the latest arm. |
| `ControlServices.SafeThroughout` | motion/pwm.py:1206-1253 | The second half holds between any two calls the service ever made on the writer, park moves and stop() included. |
| `ControlServices.SlewedThroughout` | motion/pwm.py:1018-1068 | In every reachable state, after stop() too, each slewed command is at most the rate times the time since the outputs were last forced neutral. |
| `ControlServices.FailsafeReached` | control/control_service.py:805-814 | In every reachable state armed implies a fresh latest tick or an unexpired failsafe. |
| `TickLaws.CapIsBothLimits` | control/control_service.py:1135-1146 | The cap of a tick is the largest number within both the configured limit, kept in [0,1], and the pilot's gain, kept in [0.05,1]. |
| `TickLaws.RampOverTime` | control/control_service.py:984-990 | The ramp is 0 up to the moment of arming, then the elapsed fraction of its length, then 1. |
| `TickLaws.TickWithinLimits` | control/control_service.py:923-997 | In a live tick every mixed command is within the ramp times the configured limit and within the ramp times the pilot's gain, for any mixer output. |
| `TickLaws.ShapingCarries` | control/control_service.py:923-983 | What the pilot sets for budget and holds is what shapes the tick. |
| `TickLaws.TriggerTravel` | control/control_service.py:1273-1281 | A trigger counts for nothing up to its deadzone and for the rest of its travel evenly from there. |
| `TickLaws.WristSides` | control/control_service.py:1254-1296 | Exchanging the triggers turns the wrist the other way by as much; equal pressure holds it. |
| `TickLaws.WristFullRight` | control/control_service.py:1254-1296 | The right trigger fully in turns the wrist at the configured speed times the pilot's gain. |
| `TickLaws.IdleSendsLightsOnly` | control/control_service.py:782-922 | A tick that is disarmed or without a fresh frame sends nothing but the lights, and those only where allowed. |
| `TickLaws.GripperFollows` | control/control_service.py:1298-1375 | A demand inside the limits moves a gripper axis exactly there, turned round where inverted; without one it holds or centres. |
| `TickLaws.ParkGoesHome` | control/control_service.py:1488-1517 | The park move goes from the remembered pair to the one mixed from the configured park pose, no sooner than the settling time. |
| `TickLaws.ParkCallsExactly` | control/control_service.py:1488-1524 | Parking ends with the park pose; it goes there in steps exactly when it has a rate, a settling time and some way to go, and sends nothing with parking or the gripper off or in a dry run. |
| `TickLaws.GripperKeys` | control/control_service.py:1480-1486 | A servo pair is sent left to the left output and right to the right one. |
| `TickLaws.ArmsThenParks` | control/control_service.py:1526-1533 | Arming calls arm first and then parks, and the remembered pose is the park pose exactly if it parks. |
| `TickLaws.ParksThenDisarms` | control/control_service.py:1535-1544 | Disarming, by kill or by toggle, parks first, then sends neutral, then disarms, and remembers the park pose. |
| `TickLaws.RefusedOrNothing` | control/control_service.py:719-781 | A refused arming sends neutral and disarms; without a decision nothing is called and nothing moves. |
| `TickLaws.ParkTakesTime` | control/control_service.py:1508-1516 | Each write of a park move comes at least its share of the sleeps after the first. |
| `TickLaws.LivePayloadExactly` | control/control_service.py:997-1009 | A live payload holds each thruster's command as shaped, the lights on demand, the wrist and the gripper pair when fitted, each under its own key, and nothing else. |
| `CurrentModel.BisectRight` | control/current_model.py:47 | The first position whose entry exceeds the argument: everything before is at most it, everything from there on exceeds it. |
| `CurrentModel.InterpInside` | control/current_model.py:39-53 | Between the ends of any ascending table, repeated pulse widths included, the value lies between the values of the two knots that bracket the argument. |
| `CurrentModel.InterpAtKnot` | control/current_model.py:39-53 | The table is reproduced at its own knots. |
| `CurrentModel.CurveMonotone` | control/current_model.py:39-53 | A curve V-shaped about a neutral knot draws no less further from neutral, on either side: from the shape, not assumed. |
| `CurrentModel.ScalingMovesOut` | control/current_model.py:105-106 | Scaling a command up moves its pulse outwards on the same side. |
| `CurrentModel.CurrentMonotone` | control/current_model.py:108-125 | Through both interpolations, a command scaled further out never draws less. |
| `CurrentModel.TotalMonotone` | control/current_model.py:152-153 | Nor does the summed prediction over any set of commands. |
| `CurrentModel.AtVoltageKnot` | control/current_model.py:108-125 | At the voltage of a curve that curve alone counts. |
| `CurrentModel.BetweenVoltages` | control/current_model.py:116-125 | Between adjacent voltages the current is the straight line through the two curves' values. |
| `CurrentModel.BeyondTheTable` | control/current_model.py:105-121 | Beyond the outer voltages and beyond full command the nearest known value counts; neutral and full command ask for neutral and for half the span to either side. |
| `CurrentModel.TotalMonotoneExactly` | control/current_model.py:143-147 | For tables without repeats whose neutral is a knot and whose knots are all within reach, as the bundled one: the predicted total grows with the scale, for all commands and voltages, if and only if every curve is V-shaped. |
| `CurrentModel.TotalCurrent` | control/current_model.py:127-129 | The summing loop computes the specified total. |
| `CurrentModel.CurrentBudgetScale` | control/current_model.py:132-171 | The loop over the bracket computes the specified scale, and the totals it reports are those at 1 and at that scale. |
| `CurrentModel.BisectBrackets` | control/current_model.py:164-171 | For any table: the low end of the bracket is within budget, the high end is not, and the width halves each step. |
| `CurrentModel.ScaleWithinBudget` | control/current_model.py:132-171 | For any table: the scale is in [min_scale,1]; if the floor is within budget so is the result. |
| `CurrentModel.ScaleNearMaximal` | control/current_model.py:141-171 | For V-shaped curves, when the budget binds and the floor is under it: every scale at or beyond the result plus (1-min_scale)/2^max_iter is over budget. |
| `CurrentModel.NearMaximalExactly` | control/current_model.py:141-171 | For V-shaped curves, whenever the budget binds: no scale at or beyond the result plus the final width is admissible if and only if the floor draws less than the budget or the floor plus that width already draws more. |
| `CurrentModel.FloorTieStops` | control/current_model.py:159-162 | A V-shaped table, flat around neutral as the bundled one: with nothing to spend and no floor a command of 1 is scaled to 0, although a tenth of it draws nothing either. |
| `CurrentModel.FloorOverBudget` | control/current_model.py:159-162 | For V-shaped curves, if the floor is over budget so is every scale above it. |
| `CurrentModel.DipBreaksPromise` | control/current_model.py:141-171 | For any table: wherever the total exceeds the budget at a scale s and at 1, but not at a larger t nor at the floor 2s-1, the result for that floor is at most s however long the bisection runs, although t is admissible. |
| `CurrentModel.DipLosesThrust` | control/current_model.py:141-147 | A table with one dip, like the bundled 14 V curve: a command of 1 is scaled to at most one half however long the bisection runs, although three quarters is admissible. |
| `BudgetPromise.CurrentStraight` | control/current_model.py:105-125 | For any table without repeated pulse widths: between two commands with no knot and no limit between them the prediction is a straight line, at any voltage. |
| `BudgetPromise.TotalStraight` | control/current_model.py:152-153 | So is the total, between two scales at which no thruster bends. |
| `BudgetPromise.Crossing` | control/current_model.py:152-153 | A total that rises past a value takes that value on the way. |
| `BudgetPromise.MissedMeansTwice` | control/current_model.py:141-171 | For any such table: a call that leaves an admissible scale beyond its reach shows that the budget itself is drawn at two scales. |
| `BudgetPromise.TwiceBreaksPromise` | control/current_model.py:159-162 | For any table: a total short of the full one that is drawn at two scales breaks the promise for some floor, budget and number of steps. |
| `BudgetPromise.PromiseExactly` | control/current_model.py:141-171 | For any table without repeated pulse widths, V-shaped or not, any commands and voltage: whenever the budget binds and the floor is within it, for every floor, budget and number of steps, no scale up to 1 beyond the result by the final width is admissible, if and only if no total short of the full one is drawn at two scales. |
| `ThrustLimit.UnmixMix` | control/mixer.py:27-58 | Mixing loses nothing: the six commands are recovered from the eight outputs. |
| `ThrustLimit.MixReaches` | control/mixer.py:27-58 | Eight outputs come from some command if and only if the diagonals balance, horizontally and vertically. |
| `ThrustLimit.LimitKeepsDirection` | control/mixer.py:286-298 | Limiting a mixed command shortens the six-axis command by one factor, without turning it. |
| `ThrustLimit.LimitIsSharedFactor` | control/mixer.py:286-298 | The limit is one shared factor, its defensive clamp never acts, and the result is inside the cap. |
| `ThrustLimit.LimitFactorLargest` | control/mixer.py:286-298 | No larger factor in [0,1] keeps every command inside the cap. |
| `ThrustLimit.LimitIdempotent` | control/mixer.py:286-298 | Limiting twice is limiting once. |
| `ThrustLimit.BudgetFactorRange` | control/control_service.py:1176-1243 | The budget factor is in [0,1]. |
| `ThrustLimit.PilotGain` | control/control_service.py:1086-1133 | The pilot's gain is in [0.05,1], and 1 when not given. |
| `ThrustLimit.Ramp` | control/control_service.py:984-990 | The ramp is in [0,1]. |
| `ThrustLimit.LimitedIsSharedFactor` | control/control_service.py:923-940 | Before the deadband all commands are the mixer output under one shared factor, peak cap and budget together. |
| `ThrustLimit.ShapeWithin` | control/control_service.py:923-997 | For any mixer output every command sent is at most ramp times cap. |
| `ThrustLimit.ShrunkDrawsLess` | control/control_service.py:942-997 | Whatever shrinks commands towards zero one by one never raises the predicted total, over V-shaped curves. |
| `ThrustLimit.LimitedWithinBudget` | control/control_service.py:1203-1226 | When the budget applies and its floor is within it, the scaled commands are within it. |
| `ThrustLimit.SentWithinBudget` | control/control_service.py:923-997 | And so is what is finally sent, after deadband and ramp. |
| `ThrustLimit.EveryThrusterCounts` | control/control_service.py:1193-1205 | Every thruster's command counts towards the budget, horizontal or vertical, unchanged and in order. |
| `ThrustLimit.TotalIsDraw` | control/control_service.py:1193-1205 | The predicted total of any command is the sum over its thrusters, and over nothing else, of their own currents. |
| `ThrustLimit.EightCurrentsWithinBudget` | control/control_service.py:923-997 | From the six-axis command to the wire: the eight currents of what is sent add up to no more than may be spent, if those of the limited commands at the floor do. |
| `ThrustLimit.AmpsToSpend` | control/control_service.py:1176-1192 | What may be spent is the live override if positive, else the configured cap, less the reserve. |
| `ThrustLimit.BudgetLeavesAlone` | control/control_service.py:1176-1243 | Without a table, switched off, or with a draw inside the cap, the budget changes nothing, and it never touches what is not a thruster. |
| `ThrustLimit.PureMotions` | control/mixer.py:27-58 | The eight thrusters a pure demand on each axis drives, by name and sign. |
| `ThrustLimit.SilencedBelowBand` | control/control_service.py:942-983 | At full ramp a command below its band is silenced, any other sent as limited; the band is the autopilot's for the group that is held. |
| `ThrustLimit.RampScales` | control/control_service.py:984-997 | The ramp scales every command that is left. |
| `GripperMix.DiamondIsServoSquare` | control/control_service.py:1423-1431 | Both servos are in range if and only if &#124;dPitch&#124; + &#124;dWrist&#124; is at most the range. |
| `GripperMix.FinalClampIdle` | control/control_service.py:1391-1431 | With inverts of +1 or -1 the final clamp never acts. |
| `GripperMix.Recovers` | control/control_service.py:1427-1431 | Pitch and wrist deviations are read back from the servo pair, each independently of the other. |
| `GripperMix.PitchPriority` | control/control_service.py:1423-1426 | The pitch that reaches the servos is the clipped request whatever the wrist asks; the wrist that reaches them is the nearest the remaining room allows. |
| `GripperMix.ToolAgrees` | tools/gripper_calibrate.py:469-478 | With a range of at least one degree, the calibration tool's mix is the control loop's mix times the range. |
| `GripperMix.ToolDisagreesBelowOne` | tools/gripper_calibrate.py:472-478 | Below one degree it is not: a pose half the range from neutral is 0.5 of the range to the tool and range/2 to the control loop, which raises the range to 1. |
| `GripperMix.ToolAgreesExactly` | tools/gripper_calibrate.py:469-478 | For a positive range the two mixes agree, for every geometry with inverts of +1 or -1 and every pose, if and only if the range is at least one degree. |
| `GripperMix.ToolReachesSquare` | tools/gripper_calibrate.py:469-478 | Every pair of servo angles in range is the mix of exactly the pose read back from it. |
| `GripperMix.ParkEnds` | control/control_service.py:1506-1511 | The park move starts at the held pose and ends exactly at the park pose. |
| `GripperMix.AxisStep` | control/control_service.py:1508-1511 | One servo, one step: towards the target, never past it, by an equal share. |
| `GripperMix.ParkStepWithinRate` | control/control_service.py:1498-1516 | Each step is monotone and no faster than the configured rate over its sleep. |
| `GripperMix.InputEnds` | control/control_service.py:1392-1431 | Each gripper input runs its angle from nought through half to the whole span and stays at the ends beyond full stick. |
| `GripperMix.LeastSteps` | control/control_service.py:1504-1507 | The park move takes the least number of steps, at least one, that are no longer than the step time. |
| `GripperMix.ParkTimes` | control/control_service.py:1504-1505 | The step time is the loop period within its bounds; the move lasts as long as the longer way at the configured rate and at least the settling time. |
| `Windup.NextBounded` | control/depth_hold.py:288-294 | An integration step keeps the integral in the band whose contribution is the limit. |
| `Windup.Contribution` | control/depth_hold.py:288-294 | An integral in its band contributes at most the limit: &#124;ki * i&#124; <= &#124;i_limit&#124;. |
| `Windup.NextGathers` | control/depth_hold.py:288-294 | From inside the band an integration step goes the way of the error, by error times time, as far as the band. |
| `Feedback.ProportionalAnswers` | control/depth_hold.py:284-302 | The limited proportional part has the sign of sign times error, the size &#124;sign&#124; * kp * &#124;error&#124; within the limit, and is 0 only where it must be. |
| `Feedback.SumMono` | control/depth_hold.py:284-302 | None of the three parts pulls the limited feedback sum the wrong way. |
| `DepthHold.DepthHoldController.Step` | control/depth_hold.py:134-318 | The step, branch by branch, is the specified transition and output. |
| `DepthHold.DepthHoldController.ApplyTargetCommand` | control/depth_hold.py:123-132 | A command sets the clamped target and clears the integral only when it differs by more than 1e-9. |
| `DepthHold.DepthHoldController.ReadCommand` | control/depth_hold.py:159-171 | The ignore-until-changed latch and the command are read as specified. |
| `DepthHold.DepthHoldController.FilterAndEngage` | control/depth_hold.py:207-235 | Filter, derivative and capture on the rising edge are as specified. |
| `DepthHold.DepthHoldController.HoldTarget` | control/depth_hold.py:266-318 | The PI(D) law with its two clamps is as specified. |
| `DepthHold.StepKeepsSound` | control/depth_hold.py:134-318 | Every step keeps the target in its bounds and the integral in its band. |
| `DepthHold.RunKeepsSound` | control/depth_hold.py:115-318 | So does every run. |
| `DepthHold.OutputBounded` | control/depth_hold.py:176-318 | Active output is within the limit; inactive output is exactly the manual command. |
| `DepthHold.DropoutKeepsTarget` | control/depth_hold.py:181-199 | A missing or stale sample with no new command leaves target, integral and filter as they were. |
| `DepthHold.FilteredInHull` | control/depth_hold.py:207-215 | Over any run the filtered depth lies between the lowest and highest usable sample since the last reset, and exists exactly when there was one. |
| `DepthHold.OverrideLatches` | control/depth_hold.py:237-264 | A stick override under a commanded depth latches the filtered depth and the command to ignore. |
| `DepthHold.LatchSurvivesRepeats` | control/depth_hold.py:159-171 | Any number of steps repeating the old command, with finite, missing or stale samples, keep the latched depth. |
| `DepthHold.LatchSurvivesExactly` | control/depth_hold.py:159-205 | Over any run that repeats the old command, with any samples, the latch survives if and only if no step brings a non-finite sample that is not stale. |
| `DepthHold.NewCommandTakesOver` | control/depth_hold.py:159-171 | A different command takes effect in the step that brings it. |
| `DepthHold.BadSampleForgetsLatch` | control/depth_hold.py:201-205 | The exception: a non-finite sample resets everything, and the old command applies again. |
| `DepthLaws.HeaveAnswersDepth` | control/depth_hold.py:271-318 | The heave answers the depth error: up for sign 1 when too deep, by &#124;sign&#124; * kp * the error within the limit, and 0 inside the error deadband. Without integral gain, and without derivative gain or at a steady depth. |
| `DepthLaws.HeaveMonotone` | control/depth_hold.py:284-302 | For any gains that are not negative: no less depth error, no smaller integral and no slower sinking never give less heave. |
| `DepthLaws.SignTurnsHeave` | control/depth_hold.py:284-302 | The other sign turns the heave round and changes nothing that is remembered. |
| `DepthLaws.EngagesSmoothly` | control/depth_hold.py:207-235 | Engaging from rest does not jump: the first depth becomes the target and the heave is 0. |
| `DepthLaws.CapturesDepth` | control/depth_hold.py:222-235 | Engaging without a command captures the depth of that moment, whatever target was there before. |
| `DepthLaws.FilterLeavesShare` | control/depth_hold.py:207-215 | The filter leaves the share tau / (tau + dt) of the gap to each sample, and none without a time constant. |
| `DepthLaws.WalkSums` | control/depth_hold.py:237-245 | Over any run of walking steps an unbounded target gets shallower by the rate times the stick summed over time. |
| `DepthLaws.WalkStep` | control/depth_hold.py:237-245 | One walking step, bounds and all; the integral fades by a fiftieth. |
| `DepthLaws.PilotTakesOver` | control/depth_hold.py:237-264 | The stick beyond its deadband either way takes the heave over, unless it walks the target: the pilot's command comes back, the target follows the vehicle within its bounds, the integral is emptied. |
| `DepthLaws.IgnoringEnds` | control/depth_hold.py:159-171 | Taking the command away or sending another ends the ignoring of the old one; sending the same again does not. |
| `DepthLaws.IntegralGathers` | control/depth_hold.py:281-297 | The integral gathers the error over time up to its band while the heave would be inside its limit, and stands still while it would be outside or the error is in its deadband. |
| `DepthLaws.ShippedHeave` | control/depth_hold.py:271-318 | With the shipped gains, half a metre too deep gives 0.426 up, half a metre too shallow as much down, and one and a half metres the limit with the integral standing still. |
| `StationKeep.StationKeepController.Step` | control/station_keep.py:148-298 | The step, with its loop over axes, is the specified transition and output. |
| `StationKeep.StationKeepController.StepAxis` | control/station_keep.py:213-272 | The body of the axis loop is the specified axis step. |
| `StationKeep.StationKeepController.ApplyDirect` | control/station_keep.py:274-291 | The loop over direct commands sets exactly the allowed degrees of freedom, in any order. |
| `StationKeep.StationKeepController.ClearIntegrators` | control/station_keep.py:141-146 | Integral, derivative and slew memory go; the timer stays. |
| `StationKeep.AxesKeepOthers` | control/station_keep.py:213-272 | The axes before one leave its memory alone. |
| `StationKeep.AxisBounded` | control/station_keep.py:213-263 | After the axis loop each contribution is within its limit and each integral in its band; a yielded axis is at zero; a slewed one in control moved at most slew times dt. |
| `StationKeep.StepKeepsBounded` | control/station_keep.py:148-298 | Every step keeps &#124;u&#124; <= out_limit and the integral in its band, for every axis. |
| `StationKeep.RunKeepsBounded` | control/station_keep.py:148-298 | So does every run. |
| `StationKeep.SlewBetweenSteps` | control/station_keep.py:256-263 | From one step of any run to the next a slewed axis moves at most slew times dt while in control, and is at 0 after lock loss, staleness, pilot yield or disabling. |
| `StationKeep.OffForgets` | control/station_keep.py:169-174 | In any run a controller that is off remembers no integral, no error and no contribution. |
| `StationKeep.FrozenLockYields` | control/station_keep.py:187-201 | With an unchanging timestamp the timer is the time elapsed, and every output once it passes stale_s is the manual command. |
| `StationKeep.NewTimestampThaws` | control/station_keep.py:189-195 | A changed timestamp lets the axes act in the same step. |
| `KeepLaws.AxisStep` | control/station_keep.py:213-272 | In the step of the whole controller each acting axis takes its own step, from its own memory and error. |
| `KeepLaws.PushIsAdded` | control/station_keep.py:265 | What an axis adds is added to the pilot's command on its own degree of freedom, within full command. |
| `KeepLaws.DirectReplaces` | control/station_keep.py:274-291 | A direct command replaces what the axes say where the stick is at rest, cut to the direct limit and to full command, and nowhere else. |
| `KeepLaws.PilotTakesOver` | control/station_keep.py:221-234 | The stick beyond an axis' deadband either way takes that axis over: it adds nothing and remembers no integral, and the pilot's command stands. |
| `KeepLaws.PushAnswersError` | control/station_keep.py:236-244 | An axis answers the error it sees: with it for sign 1, by &#124;sign&#124; * kp * the error within its limit, and nothing inside the error deadband. Without integral gain and slewing, and without derivative gain or anything to compare with. |
| `KeepLaws.PushMonotone` | control/station_keep.py:236-254 | For any gains that are not negative: no less error, no smaller integral and no slower growth of the error never give less. |
| `KeepLaws.IntegralGathers` | control/station_keep.py:246-254 | The integral gathers the error over time up to its band while the axis would be inside its limit, and otherwise stands still. |
| `KeepLaws.PushSlews` | control/station_keep.py:256-263 | With slewing an axis goes to what it would add without, as far as slew times dt lets it from what it last added. |
| `Attitude.WrapDeg` | control/autopilot.py:47-48 | The wrapped angle is in [-180,180). |
| `Attitude.WrapIsShortest` | control/autopilot.py:47-48 | It is congruent modulo 360 and no congruent angle is smaller in magnitude. |
| `Attitude.WrapUnique` | control/autopilot.py:47-48 | It is the only congruent angle in [-180,180). |
| `Attitude.AttitudeAxisController.Step` | control/autopilot.py:146-333 | The step, in all five modes, is the specified transition and output. |
| `Attitude.AttitudeAxisController.FilterCommand` | control/autopilot.py:163-173 | Wrapping and the ignore-until-changed latch are as specified. |
| `Attitude.AttitudeAxisController.HoldMode` | control/autopilot.py:227-273 | The hold branch is as specified. |
| `Attitude.AttitudeAxisController.Regulates` | control/autopilot.py:294-333 | The PID law with anti-windup is as specified. |
| `Attitude.StepBounded` | control/autopilot.py:146-333 | Active output is within the axis limit, inactive output is the manual command, and the integral stays in its band. |
| `Attitude.DampExactly` | control/autopilot.py:274-288 | Damping passes the pilot's command plus the rate damping on if and only if their sum is inside the output limit; otherwise the limit comes out. |
| `Attitude.DampAtRest` | control/autopilot.py:274-288 | At zero rate the pilot's command comes through if and only if it is inside the limit. |
| `Attitude.DampCutsFullStick` | control/autopilot.py:274-288 | With the shipped roll limit a full stick at zero rate comes out as 0.16. |
| `Attitude.OverrideLatches` | control/autopilot.py:237-256 | Under manual_latch, an override latches the present angle and the command to ignore. |
| `Attitude.LatchSurvivesRepeats` | control/autopilot.py:165-173 | Any number of repeats, while the attitude stays available and ready, keep the latched angle. |
| `Attitude.LatchOverRun` | control/autopilot.py:165-256 | Over any run that repeats the old command, with the attitude lost, stale or usable at any step: exactly which target is held. It is the latched angle until a usable step follows a lost one, and then that step's angle; the old command never comes back. |
| `Attitude.LatchSurvivesExactly` | control/autopilot.py:165-195 | Unless an angle happens to equal the latched one, the latch survives such a run if and only if no step loses the attitude. |
| `Attitude.NewCommandTakesOver` | control/autopilot.py:165-173 | A different command takes effect in the first usable step that brings it. |
| `Attitude.LostAttitudeRecaptures` | control/autopilot.py:188-195 | The exception: after a step without attitude, the next usable repeat captures the angle of that moment. |
| `AttitudeLaws.StepTurns` | control/autopilot.py:146-333 | Whole turns in the angle, the target or anything remembered change no output and nothing that is remembered, but for whole turns. |
| `AttitudeLaws.RunTurns` | control/autopilot.py:146-333 | Nor do they over any run: two runs through the same directions put out the same commands throughout. |
| `AttitudeLaws.OutputAnswersTurn` | control/autopilot.py:294-303 | The output answers the short way to the target: with it for sign 1, by &#124;sign&#124; * kp * its length within the limit, and 0 inside the error deadband. Without integral gain, and without derivative gain or at no rate. |
| `AttitudeLaws.OutputMonotone` | control/autopilot.py:302-314 | For any gains that are not negative: no less to turn, no smaller integral and no faster turn under way never give less output. The rate is the measured one, else the short way from the last angle over time. |
| `AttitudeLaws.RegulatesTo` | control/autopilot.py:208-236 | Levelling regulates to 0; holding, without a latch, to within 1e-9 degrees of a command, else to the target it has, else to the angle at engagement. |
| `AttitudeLaws.PilotTakesOver` | control/autopilot.py:208-271 | The stick beyond its deadband either way takes the axis over in levelling and, with a latch or under a command, in holding: the pilot's command comes back and the integral is emptied. |
| `AttitudeLaws.IgnoringEnds` | control/autopilot.py:163-173 | Taking the command away or sending another ends the ignoring of the old one; sending the same again does not. |
| `AttitudeLaws.IntegralGathers` | control/autopilot.py:305-316 | Settled on a target, the integral gathers the turn over time up to its band while the output would be inside its limit, and otherwise stands still. |
| `AttitudeLaws.DampOpposes` | control/autopilot.py:274-288 | Damping answers the turn under way against it, by &#124;sign&#124; * kd * the rate within the limit. |
| `AttitudeLaws.StickTurnsTarget` | control/autopilot.py:272-273 | Without a latch and a command the stick turns the target at the walk rate and the integral fades. |
| `AttitudeLaws.ShippedYawCrosses` | control/autopilot.py:294-303 | The shipped yaw axis set on 170 degrees with the vehicle at -170 turns the 20 degrees across the half turn, not 340 back. |
| `Autopilot.EngagementBounded` | control/autopilot.py:364-395 | Throughout an engagement the base is the depth at its first step and the offset stays within the maximum. |
| `Autopilot.ServoDirection` | control/autopilot.py:385-391 | The size error moves the depth target one way only. |
| `Autopilot.AutopilotController.AltStep` | control/autopilot.py:364-395 | The altitude servo is the specified transition, an engagement with a non-finite depth included. |
| `Autopilot.AutopilotController.StepAttitude` | control/autopilot.py:501-555 | The loop over roll, pitch and yaw steps each controller once, with its own mode, target and readiness. |
| `Autopilot.AutopilotController.Step` | control/autopilot.py:397-467 | Depth, attitude and station keeping in that order are the specified transition and output. |
| `Autopilot.IdleReturnsPilot` | control/autopilot.py:397-467 | With depth, each attitude axis and the visual input each disabled, missing or stale, the pilot's six commands come back exactly, from any state. |
| `Autopilot.RunKeepsDepthSound` | control/autopilot.py:397-467 | In any run of the whole autopilot the depth target stays in its bounds and the integral in its band, whoever set the target. |
| `AutopilotLaws.RollAlone` | control/autopilot.py:501-555 | The roll axis depends on its own settings, the roll stick, the roll input and the readiness of roll and pitch alone, in what it puts out and in what it remembers. |
| `AutopilotLaws.PitchAlone` | control/autopilot.py:501-555 | The same for the pitch axis. |
| `AutopilotLaws.YawAlone` | control/autopilot.py:501-555 | The same for the yaw axis and its own readiness. |
| `AutopilotLaws.SurgeSwayUntouched` | control/autopilot.py:397-449 | Nothing before station keeping touches surge and sway, and with station keeping idle nothing does. |
| `AutopilotLaws.SwitchedOff` | control/autopilot.py:430-441 | A hold that is switched off in the settings passes the pilot's commands on and remembers nothing new. |
| `AutopilotLaws.LevelsThrough` | control/autopilot.py:397-555 | With station keeping idle, each axis that levels answers its own angle in the command of the whole autopilot. |
| `AutopilotLaws.HeaveThrough` | control/autopilot.py:397-449 | With station keeping and altitude servo out, the heave of the whole autopilot answers the depth error, and a commanded depth is its target. |
| `AutopilotLaws.ServoGivesTarget` | control/autopilot.py:421-439 | An engaged altitude servo gives the depth controller the captured depth plus the offset, or no target if what it captured was not a number; otherwise the pilot's target counts. |
| `AutopilotLaws.ServoWalks` | control/autopilot.py:384-391 | The servo walks the offset, from 0 as it engages, by sign * kp * the size error * dt within its limit, and not at all inside its deadband or without a size in a valid lock. |
| `GopPicker.GopSegment` | video/gst_streamer.py:864-880 | Succeeds if and only if a keyframe is reachable without a gap; the result is the keyframe-led run up to the target with no later keyframe and no missing unit. |
| `GopPicker.GopFromLatestKeyframe` | video/gst_streamer.py:864-880 | The run that is returned starts at the latest keyframe there is up to the target. |
| `GopPicker.NewestDecodableIndex` | video/gst_streamer.py:1569-1582 | The highest index that has a clock and is decodable; none exactly when there is no such unit. |
| `GopPicker.ClosestDecodableIndex` | video/gst_streamer.py:1584-1597 | The decodable clocked unit nearest the target instant, the first of equals. |
| `GopPicker.PickDecodablePair` | video/gst_streamer.py:1599-1631 | None if and only if one side has no decodable clocked unit; otherwise the specified pick. |
| `GopPicker.PairNoWorseThanNewest` | video/gst_streamer.py:1599-1631 | Both picked units are decodable, one sits exactly at the shared instant, the other is the closest decodable unit to it, and the gap is never worse than between the two newest. |
| `GopPicker.PicksEarlierInstant` | video/gst_streamer.py:1599-1631 | The instant is the earlier of the two newest decodable ones; of equally near candidates the first in the ring is taken. |
| `GopPicker.RingIsSuffix` | video/gst_streamer.py:806-858 | Under any interleaving of pulls, appends and captures sharing the counter, the ring is the last maxlen units appended, strictly increasing in number. |
| `GopPicker.NumbersUsed` | video/gst_streamer.py:806-858 | In any run every number is used once: by a unit appended, by the one in hand, or by a capture. |
| `GopPicker.UndisturbedDecodes` | video/gst_streamer.py:806-880 | Without captures the units are numbered in order from 1, and once the oldest held is a keyframe every unit in the ring can be decoded. |
| `GopPicker.SegmentMissesNothing` | video/gst_streamer.py:864-880 | Every unit ever appended whose number lies in a returned segment's span is in the segment. |
| `GopPicker.TailDecodable` | video/gst_streamer.py:806-880 | In any run, exactly when the unit just appended is decodable: a keyframe, or its predecessor still is and no capture took a number between that one's pull and this one's. |
| `GopPicker.CaptureBreaksGop` | video/gst_streamer.py:1019-1021 | In any run, one capture between an append and the next pull makes the delta unit pulled then undecodable. |
| `GopPicker.NewestNearTail` | video/gst_streamer.py:1569-1582 | If every g appended units contain a clocked keyframe and the ring holds g, the newest decodable unit is among the last g, whatever was captured. |
| `GopPicker.GstStream.PullUnit` | video/gst_streamer.py:806-836 | A pulled sample takes the next number and waits in the ring thread's hands. |
| `GopPicker.GstStream.AppendUnit` | video/gst_streamer.py:856-858 | Appending pushes that unit and drops the oldest at capacity. |
| `GopPicker.GstStream.CaptureFrame` | video/gst_streamer.py:1013-1021 | Numbers a frame if and only if the unit is decodable; otherwise nothing changes. |
| `Crc4.Ms5837.CheckSum` | sensors/ms5837.py:254-277 | The nested loops, on the object's own list, compute the specified checksum and leave the list masked and one word longer. |
| `Crc4.Ms5837.ShiftByte` | sensors/ms5837.py:266-270 | The inner loop is eight shifts. |
| `Crc4.Ms5837.Init` | sensors/ms5837.py:96-107 | Accepts exactly the seven byte-swapped words whose stored checksum matches. |
| `Crc4.ShiftAgrees` | sensors/ms5837.py:266-270 | After every shift the unmasked integer agrees with a 16-bit register modulo 65536. |
| `Crc4.SixteenBitsSuffice` | sensors/ms5837.py:254-277 | And so at every byte of the whole loop. |
| `Crc4Detection.FeedHolds` | sensors/ms5837.py:260-270 | At every byte the register holds the remainder, modulo x^4 + x + 1, of all but the last four bits fed. |
| `Crc4Detection.CrcIsRemainder` | sensors/ms5837.py:254-277 | The checksum is the remainder of the 108 data bits times x^12: what the shifting means, independent of it. |
| `Crc4Detection.RemLinear` | sensors/ms5837.py:254-277 | That remainder is linear over exclusive or. |
| `Crc4Detection.CrcLinear` | sensors/ms5837.py:254-277 | The checksum of an exclusive or of PROM contents is the exclusive or of their checksums. |
| `Crc4Detection.BurstRemains` | sensors/ms5837.py:254-277 | A run of at most four bits leaves a non-zero remainder wherever it lies. |
| `Crc4Detection.UndetectedExactly` | sensors/ms5837.py:104-107 | An error in a good PROM goes unnoticed if and only if the error pattern would itself be accepted. |
| `Crc4Detection.OneBitIsBurst` | sensors/ms5837.py:104-107 | Every single data bit is such a burst. |
| `Crc4Detection.BurstRejected` | sensors/ms5837.py:104-107 | Any burst of at most four bits inside the 108 data bits changes the checksum, and init rejects the PROM. |
| `Crc4Detection.ChecksumBitsRejected` | sensors/ms5837.py:104-107 | So are errors in the stored checksum bits alone. |
| `Rotation.Lagrange` | sensors/attitude_estimator.py:56-66 | (a x b).(c x d) = (a.c)(b.d) - (a.d)(b.c) for the code's cross and dot products. |
| `Rotation.CrossBack` | sensors/attitude_estimator.py:60-66 | (a x b) x a = b (a.a) - a (a.b). |
| `Rotation.AxisComponentKept` | sensors/attitude_estimator.py:95-106 | Rotation leaves the component along a unit axis alone. |
| `Rotation.RotationPreservesDot` | sensors/attitude_estimator.py:95-106 | Rodrigues' formula about a unit axis preserves every dot product. |
| `Rotation.RotateVectorPreservesDot` | sensors/attitude_estimator.py:95-106 | So does rotating by any rotation vector, those too short to apply included. |
| `Rotation.NormalizedUnit` | sensors/attitude_estimator.py:76-80 | A vector long enough normalises to a unit vector of the same direction. |
| `Rotation.ProjectedAxis` | sensors/attitude_estimator.py:109-110 | A projected axis, when there is one, is unit and orthogonal to the normal. |
| `Rotation.XOrYProjects` | sensors/attitude_estimator.py:173-177 | For any unit normal the x or the y axis projects: no unit vector is close to both. |
| `Rotation.FlipAxisAcross` | sensors/attitude_estimator.py:172-178 | The half-turn axis is unit and across the source; the fixed z axis behind it is never used. |
| `Rotation.CrossNorm` | sensors/attitude_estimator.py:179-181 | In the general branch &#124;src x dst&#124; is the sine of the angle and is never too short to normalise. |
| `Rotation.RotateBetweenPreservesDot` | sensors/attitude_estimator.py:165-181 | Rotating between directions moves all vectors rigidly, in every branch. |
| `Rotation.RotateBetweenHits` | sensors/attitude_estimator.py:179-181 | In the general branch the source is mapped exactly onto the destination. |
| `Rotation.RotateBetweenArrives` | sensors/attitude_estimator.py:165-181 | In every branch it lands within a squared distance of 2e-9; exactly in the general one. |
| `Rotation.LevelMagHorizontal` | sensors/attitude_estimator.py:743-762 | A levelled field is unit and orthogonal to the reference. |
| `Rotation.LevelMagTiltInvariant` | sensors/attitude_estimator.py:743-762 | A field is usable if and only if its strength across the measured gravity exceeds the threshold: tilt does not matter. |
| `Rotation.LevelMagTiltBounded` | sensors/attitude_estimator.py:743-762 | In every branch, the degenerate ones included, the squared strengths before and after levelling differ by at most the square root of 8e-9 of the squared field. |
| `Rotation.LevelMagAtRest` | sensors/attitude_estimator.py:743-762 | Without a gravity sample the field is only projected. |
| `Rotation.RollAxisAcross` | sensors/attitude_estimator.py:640-652 | The roll axis is unit and across the reference, whatever is configured. |
| `Rotation.RollAxisFollows` | sensors/attitude_estimator.py:640-652 | The roll axis points along the part of the configured axis across the reference; without one, or with one along the reference, along that part of the x axis. |
| `Rotation.FallbacksUnreached` | sensors/attitude_estimator.py:648-653 | The z projection and both fixed axes are never returned. |
| `Rotation.ReferenceFrame` | sensors/attitude_estimator.py:640-654 | For any unit reference, roll, pitch and the reference form a right-handed orthonormal frame. |
| `ConfigStore.OrderedOrders` | utils/config_store.py:131 | The sort is by start line, highest first, and loses nothing. |
| `ConfigStore.EditAbove` | utils/config_store.py:132-133 | One in-place edit from the bottom extends the part of the file that is already substituted. |
| `ConfigStore.DescendingEditsSubstitute` | utils/config_store.py:131-133 | Edits applied in descending order are the simultaneous substitution of all spans, read from the front. |
| `ConfigStore.PermutedSubstitution` | utils/config_store.py:131-133 | That substitution does not depend on the order the replacements are given in. |
| `ConfigStore.InPlaceIsSimultaneous` | utils/config_store.py:131-133 | For disjoint spans the program's sort and splices are the simultaneous substitution. |
| `ConfigStore.EveryOtherLineSurvives` | utils/config_store.py:131-133 | Every line outside a replaced span survives, in order, at its old position less the lines lost above it; each replacement stands where its span began; the length is accounted for. |
| `ConfigStore.SharedLineLosesFirst` | utils/config_store.py:113-133 | Two assignments on one line are not disjoint: of two updates there, the first is lost. |
| `ConfigStore.TouchingLosesLater` | utils/config_store.py:113-133 | An assignment that ends on the line the next begins: in whichever order the two are given, the later one is lost. |
| `ConfigStore.MeetingLoses` | utils/config_store.py:131-133 | Among spans that at most touch, with texts that can be told apart: of any two that meet, the one edited first is nowhere in the file. |
| `ConfigStore.UpdatesSurviveExactly` | utils/config_store.py:131-133 | For spans that at most touch and texts that can be told apart: every update stands where its span began if and only if the spans are disjoint; otherwise some update is nowhere in the file. |
| `ConfigStore.SpansAreSafeExactly` | utils/config_store.py:131-133 | For spans that at most touch: every update survives in every file and with all texts if and only if the spans are disjoint. |
| `ConfigStore.SoleUpdateTakesLine` | utils/config_store.py:132-133 | One update of an assignment takes its whole line, and with it any other assignment on that line. |
| `ConfigStore.ApartKeeps` | utils/config_store.py:131-133 | Among replaced spans that at most touch, an assignment apart from all of them keeps its lines, as one block. |
| `ConfigStore.MeetingTakesLine` | utils/config_store.py:131-133 | One that meets a replaced span loses a line, when lines and texts can be told apart. |
| `ConfigStore.BystanderKeptExactly` | utils/config_store.py:131-133 | An assignment that is not updated, among spans that at most touch: it keeps its lines in every file and with all texts if and only if its span is apart from every replaced one. |
| `ConfigStore.MissingIsUnknown` | utils/config_store.py:109-111 | The keys reported are exactly the updated keys without an assignment. |
| `ConfigStore.ConfigFile.Apply` | utils/config_store.py:94-137 | Unknown keys, or no updates, leave the file untouched; otherwise the splicing loop gives the simultaneous substitution when spans are disjoint. |
| `ConfigStore.ConfigFile.SpliceAll` | utils/config_store.py:132-133 | The loop splices each replacement in turn. |
| `PowerSense.MajorityHoldsMedian` | sensors/power_sense.py:26-34 | If more than half the samples lie in an interval, so does the median, for even and odd counts. |
| `PowerSense.HalfDoesNotHoldMedian` | sensors/power_sense.py:26-34 | Exactly half is not enough. |
| `PowerSense.SpikesIgnored` | sensors/power_sense.py:259-276 | A burst in which most samples of a channel lie in an interval gives the channel a value in it, whatever the others are. |
| `PowerSense.Autodetect` | sensors/power_sense.py:228-246 | The nested loops find the pair of channels of lowest score, the first among equals; none exactly when there are fewer than two channels. |
| `PowerSense.SwitchingNeedsAdvantage` | sensors/power_sense.py:216-220 | Tracking leaves its channel pair only for one better by the switch penalty. |
| `PowerSense.FilterSettled` | sensors/power_sense.py:314-371 | Every reading keeps the two memories equal and plausible; a rejected one leaves them as they were. |
| `PowerSense.PublishedPlausible` | sensors/power_sense.py:314-371 | With holding on, after the first accepted reading, what is published is what is remembered, and plausible. |
| `PowerSense.FilterStride` | sensors/power_sense.py:314-371 | With step limits on one reading moves each value by at most alpha times the step, or the step when alpha is 0. |
| `PowerSense.ReadPublishes` | sensors/power_sense.py:249-384 | Both of these for a whole read, whatever the samples and the channel mapping. |
| `PowerSense.RunDrift` | sensors/power_sense.py:314-371 | Over any run of n readings, however wild, the published values move at most n strides. |
| `PowerSense.LatchedOut` | sensors/power_sense.py:316-322 | Readings that are each more than a step from a held voltage are rejected for ever: a battery that really changed is not taken up. |
| `PowerSense.LatchedOutExactly` | sensors/power_sense.py:307-371 | For any readings: none is ever taken up if and only if none is acceptable (plausible and within both steps) to the memory the run began with. |
| `PowerSense.SteadyTakenUpExactly` | sensors/power_sense.py:307-371 | A steady reading is taken up every time it comes or never, and the first time decides. |
| `PowerSense.SteadyReadingConverges` | sensors/power_sense.py:353-364 | A steady reading within reach is accepted every time and approached geometrically: the error after n is (1-alpha)^n of what it was. |
| `PowerSense.PowerSenseSensor.Read` | sensors/power_sense.py:249-384 | The whole read is the specified transition and output, every error return included. |
| `PowerSense.PowerSenseSensor.Accept` | sensors/power_sense.py:314-371 | The accept, hold and smoothing part is the specified filter. |
| `PowerLaws.NonEmptyKeeps` | sensors/power_sense.py:256-270 | Empty samples are dropped, the others kept in their order. |
| `PowerLaws.WidthIsShortest` | sensors/power_sense.py:272-274 | There are as many channels as the shortest sample has. |
| `PowerLaws.ConversionRecovers` | sensors/power_sense.py:159-162 | The conversion gives back the volts and amps that the sensor scaled down and shifted. |
| `PowerLaws.FirstReadPublishes` | sensors/power_sense.py:249-365 | A first read through a known mapping publishes the volts and amps on its two channels; a small negative current is published as none. |
| `PowerLaws.FailsExactly` | sensors/power_sense.py:276-304 | A read fails exactly when it has no samples or its mapping is not two different channels it has, and then exactly which mapping is forgotten. |
| `PowerLaws.DetectsExactly` | sensors/power_sense.py:228-247 | A look-up finds a pair exactly when there are two channels. |
| `PowerLaws.FindsPlausible` | sensors/power_sense.py:168-247 | With the shipped settings, from any settled memory: if some pair of channels is plausible, the pair found is. |
| `PowerLaws.ShippedScores` | sensors/power_sense.py:168-226 | The scores of pairs in range and out of range either way, with and without history. |
| `PowerLaws.FirstOfTheLowest` | sensors/power_sense.py:228-247 | No pair scores lower than the one found, and of equal ones the first is found. |
| `PowerLaws.FindsTheBattery` | sensors/power_sense.py:228-247 | With the shipped settings and no history, of two channels at 1.0 V and 0.1 V the one at 1.0 V is found to be the voltage and the other the current, whichever comes first. |
| `PowerLaws.RestIsLikely` | sensors/power_sense.py:213-214 | A current channel at its resting voltage costs nothing for that, one off it does, either way. |
| `PowerLaws.BadInARow` | sensors/power_sense.py:332-350 | Bad readings are counted; every reselect-th in a row forgets the channels and starts the count again, and with fixed channels or the limit off none does. |
| `PowerLaws.RejectedAsRead` | sensors/power_sense.py:327-342 | A reading that is not accepted is published as it is, and marked, when nothing is held. |
| `PowerLaws.UnsmoothedAsRead` | sensors/power_sense.py:349-365 | Without smoothing an accepted reading is published and remembered as it is. |

## Left out

- Sockets, threads, JSON frames, status dictionaries, printing and logging: only the values that feed the state machines are inputs.
- Exceptions from hardware and the code that swallows them: the backend does not fail.
- Drivers (I2C, SPI, GPIO, PCA9685 registers, Navigator bindings) and the numbering of physical PWM channels.
- Rounding, overflow, infinities and NaN, except a depth sample that is not finite.
- `GeometricThrusterMixer`: its least-squares solve is not visible; the control loop is proved for an arbitrary mixer output.
- The wiring of the autopilot into the control loop (its reset on arming included): the loop is proved for any mixer output, the autopilot for any input.
- `build_6dof`, `build_2axis` and the simple-group mixer's own arithmetic: their result is an input.
- Lights: the brightness is an input of a tick; the toggle and its axis mapping would only add easy members.
- Live arm tuning (control/control_service.py:1315-1339): the configured geometry is used throughout.
- Parsing of the pilot's `modes` dictionary (`_axis_mode`, `_target_value`, `_mode`, budget and deadband flags): the resolved mode, target or flag is an input.
- Construction of the current model (sorting of curves, absolute values, half span): the table is an input that satisfies `CurrentModel.Loaded`.
- `_select_target_index`, decoding, JPEG encoding, frame timestamps and the snapshot cache of decoded frames.
- More than one ring thread per stream: pulls and appends of one stream alternate.
- Parsing and rendering of Python in the configuration store: line spans and rendered assignments are inputs, and a line means the same to the parser and to the splitter.
- ADC drivers and the normalisation of what they return: a read starts from the rows of samples.
- Yaw fusion, bias adaptation, calibration statistics, slerp and the MS5837 and BMP280 compensation formulas.
- Management RPC, network statistics, preflight and bench tools, heartbeat, channel printing.
- Windup.NextBounded: the band is in magnitude of the configured limit, so a negative limit counts as its absolute value.
- ConfigStore.InPlaceIsSimultaneous: needs disjoint spans; for spans that share a line `ConfigStore.UpdatesSurviveExactly` and the lemmas before it say what happens. Spans that overlap further do not come out of a parser of top-level statements.
- Rotation.RotateBetweenHits: between directions closer than 1e-9 in cosine to equal or opposite the code does not turn exactly; `Rotation.RotateBetweenArrives` bounds the difference.
- Attitude.LatchSurvivesRepeats: only while the attitude stays available and ready; what happens otherwise is `Attitude.LatchOverRun`.
- Rotation.LevelMagTiltInvariant: exact only away from directions within 1e-9 in cosine of equal or opposite; there `Rotation.LevelMagTiltBounded` bounds the difference.
- CurrentModel.ScaleNearMaximal: needs V-shaped curves and a floor strictly under the budget; exactly what holds otherwise is `CurrentModel.NearMaximalExactly` and `BudgetPromise.PromiseExactly`.
- BudgetPromise.PromiseExactly: needs grids without repeated pulse widths, as the bundled ones are; a repeated width is a jump, at which a total can skip a value.
