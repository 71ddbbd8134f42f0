# Power-supply firmware and topology: model and proofs

The repository drives multi-channel high-voltage boards. This project models
five parts of it in Dafny and proves what they promise over whole runs.

| part | source | files |
|---|---|---|
| one channel: ramp, protection, auto-retry, calibration | `lib/voltage_control/vc_channel.c` | `ChannelSpec`, `Channel`, `ChannelGains`, `ChannelSafety`, `ChannelPin`, `ChannelActions`, `ChannelFields`, `ChannelRamp`, `ChannelRetry`, `ChannelRetryRuns`, `ChannelRecovery`, `ChannelRecoveryRamp` |
| controller: modes, unlock, watchdog, storage | `lib/voltage_control/vc_controller.c` | `ControllerSpec`, `Controller`, `ControllerInv`, `ControllerRuns`, `ControllerTrace`, `ControllerChannels`, `ControllerHistory`, `ControllerRestartRun`, `ControllerModes`, `ControllerStorage` |
| runtime lifecycle and command queue | `lib/voltage_control/vc_runtime.c` | `RuntimeSpec`, `RuntimeInv`, `RuntimeShutdown` |
| topology of boards and groups | `tools/psb_modbus_core/topology_rules.cpp` | `TopologySpec`, `Topology`, `TopologyRules`, `TopologyEdits`, `TopologyLookup` |
| Modbus adapter configuration | `lib/modbus_adapter/modbus_adapter.c` | `AdapterSpec`, `Adapter`, `AdapterRules` |

Each part has three layers. A `...Spec` module says what every operation does
to a value. The class in the file without suffix updates its fields, arrays
and sequences in place, with the loops of the source, and each method is proved
to do exactly what the function does (`View() == Spec.F(old(View()))`). The
other modules prove, by induction over arbitrary runs, what the operations
mean together. A method `Perform` of each class connects it to the run
semantics, and `ControllerTrace` projects a controller run onto the run of one
of its channels. The runtime is a protocol of single atomic
operations, so it is a step relation rather than a class.

C integers are subset types with explicit conversions (`CInt`): casts to
`int16_t` and `uint32_t` wrap, division truncates. Kconfig symbols are
constants without a value, so the results hold for every build in range.
Channels carry two history values that the firmware does not store: `now`, the
uptime that does not wrap, and `log`, every automatic retry. Both start afresh
with an initialisation; `ControllerHistory` keeps them through all of them.

## Findings

- Ramp steps are cast to `int16_t` and not range-checked. The exact bounds are
  32768 - MAX_TARGET upwards and 32769 downwards. Above the first, accepted
  host writes drive the target out of range (`UnsafeUpStepEscapes`); above the
  second, a graceful disable raises the voltage (`UnsafeDownStepRises`). Claims
  that need the bounds say so (`StepsSafe`, `Admissible`, `strict`).
- Initialising again writes nothing to the devices. A channel that was driven
  is then disabled in its record and still driven by its device
  (`RestartLeavesOutputDriven`); coherence survives a restart exactly when the
  old code was zero (`RestartCoherentExactly`, `ReachableCoherence`).
- The enable pin can stay on although nothing asks for it: a trip with the
  immediate action and three ways of leaving DISABLED_HV_ON do not write it
  (`StepPinExactly`, and a run of accepted writes in `PinLeftOn`).
- A fault that cuts a graceful disable short leaves the disable flag set, and a
  retry does not clear it: the output is then switched on and stays at zero
  (`RetryCanGoNowhere`, exactly `RetryRampsExactly`).
- A system factory reset during calibration sets the mode to NORMAL and leaves the
  session: the raw code stays on the device, no watchdog runs, and no tick or
  reading ends it (`ResetLeavesCodeDriven`, reached by `SessionIsReached`). Only
  this reset does it (`SessionsEndExactly`, `SessionsEndOnEveryRun`).
- Writing the start-up policy during calibration ends the session, because the
  stored mode is written with it (`PolicyWriteEndsSession`).
- A graceful disable of an output that is off switches it on, with the code of
  the calibration offset, until the next ramp tick (`GracefulWhileOff`).
- Initialising again empties the retry buffer, so once the stored records are
  loaded again the channel may retry at once: two retries in one millisecond with
  one per window configured (`RestartDefeatsLimit`). For every channel and
  devicetree configuration, defaults included, the limit spans a restart exactly
  when the window has passed at the restart, leaving aside a limit of zero and
  devicetree configurations beyond it (`LimitSpansRestartExactly`).
- After 2^32 ms an old retry can be counted again (`AliasingIsReached`). This
  only makes the limit stricter, so the rate limit holds across the wrap.
- `vc_channel_set_config` does not check the retry limit against the capacity of
  the buffer as `vc_channel_set_field` does. Above the capacity the limit is
  without effect (`Burst`); the decision follows the log, and the rate is
  limited, exactly up to the capacity (`DecidesAsLogExactly`,
  `RateLimitExactly`). The controller never gets there from an empty store
  (`ReachableChannels`).
- `vc_catalog_release` decrements and then checks. Between the two, another
  operation can acquire and a destroyer can start and be woken early, so the
  worker can be told to stop under a holder (`QuiescenceCanFail`), whose next
  command is then lost (`EarlyStopLosesCommand`). The exact
  condition is `ShutdownSafeExactly`; one fused step removes the race.
- A start clears the operation counter; an operation delayed since the
  previous cycle can then be inside (`LateOperationMeetsStart`). The counter
  becomes -1, and a later destroyer waits for ever or passes a holder
  (`LateOperationStrandsDestroyer`, `LateOperationHidesHolder`).
- References of groups outlive their boards, so `renameBoard` can put one
  channel into two places (`RenameCanMerge`), although the topology rules
  otherwise keep every channel in at most one group.
- A factory reset of the adapter whose restart fails returns an error but has
  already replaced the persisted configuration (`RefusedChangesNothingExactly`).
- `vc_mb_adapter_create` leaves the global pointer set when it returns nothing;
  only `modbus_adapter_init` clears it (`FailedCreation`).

## Model

| member | source | states |
|---|---|---|
| `ChannelGains.GainFitsInt64` | lib/voltage_control/vc_channel.c:56-70 | for every int32 reading, uint16 mantissa and exponent in [-9, 4] the product, its scaling and the quotient stay inside int64 with room for the offset |
| `ChannelGains.GainMonotone` | lib/voltage_control/vc_channel.c:60-70 | a larger raw value never gives a smaller scaled one, across the truncating division |
| `ChannelGains.RawDriveMonotone` | lib/voltage_control/vc_channel.c:98-111 | a higher target never gives a lower DAC code, including where the code saturates |
| `CInt.TruncDivExact` | lib/voltage_control/vc_channel.c:60-70 | what the division leaves has the sign of the dividend and is smaller than the divisor |
| `CInt.ToInt16Exact` | lib/voltage_control/vc_channel.c:879-893 | the cast is the one int16 value of the same residue class |
| `ChannelGains.PowersInTable` | lib/voltage_control/vc_channel.c:56-58 | the powers used are those of the table |
| `ChannelGains.GainExactly` | lib/voltage_control/vc_channel.c:60-70 | a value is the gain of a reading if and only if it is the exact product for an exponent >= 0, or the product divided with the remainder bound of truncation for one < 0 |
| `ChannelGains.DriveCodeExactly` | lib/voltage_control/vc_channel.c:98-111 | the code of a target is that scaled product plus the offset, zero exactly when the sum is at most 0 and 65535 exactly when it is at least that |
| `ChannelGains.VoltageReadingExactly` | lib/voltage_control/vc_channel.c:778-787 | a stored voltage is the scaled raw value plus its offset, saturated to int16; nothing else changes |
| `ChannelGains.CurrentReadingExactly` | lib/voltage_control/vc_channel.c:789-801 | likewise a stored current, whether or not it trips |
| `ChannelGains.DeviceCodeExactly` | lib/voltage_control/vc_channel.c:113-147 | in every coherent state the device holds the raw code of a session, else the exact code of the voltage when on, else zero |
| `ChannelImpl.ApplyGain` | lib/voltage_control/vc_channel.c:56-70 | the table-driven gain equals mantissa times the power of ten rounded towards zero and stays within int64 |
| `ChannelImpl.RetryHistory.CountRecent` | lib/voltage_control/vc_channel.c:351-362 | the loop counts exactly the stored stamps whose wrapping age is at most the window |
| `ChannelImpl.RetryHistory.Record` | lib/voltage_control/vc_channel.c:364-373 | appends in place; at capacity the oldest stamp is shifted out and the order of the others is kept |
| `ChannelImpl.Channel.RawDriveFromTarget` | lib/voltage_control/vc_channel.c:98-111 | the saturated DAC code of a target |
| `ChannelImpl.Channel.ApplyHw` | lib/voltage_control/vc_channel.c:113-147 | writes exactly the code and the enable pin that session, output, target and state determine; nothing else changes |
| `ChannelImpl.Channel.ApplyProtectionAction` | lib/voltage_control/vc_channel.c:252-287 | the whole new record of a protection action, forced off for channels without raw drive |
| `ChannelImpl.Channel.TickCurrentProtection` | lib/voltage_control/vc_channel.c:289-316 | trips, flags or ignores an over-current exactly as the specification function says |
| `ChannelImpl.Channel.IsSafeToClearActive` | lib/voltage_control/vc_channel.c:331-344 | a current fault may be cleared exactly when the reading is inside the safe band (truncating percentage) |
| `ChannelImpl.Channel.TickRecovery` | lib/voltage_control/vc_channel.c:375-438 | cool-down, window count, retry or exhaustion: the whole new record |
| `ChannelImpl.Channel.Run` | lib/voltage_control/vc_channel.c:483-506 | time, fresh readings, ramp and recovery in this order |
| `ChannelImpl.Channel.Reinit` | lib/voltage_control/vc_channel.c:454-481 | a later initialisation leaves the state of a fresh one, except that the device keeps its registers |
| `ChannelImpl.Channel.SetConfig` | lib/voltage_control/vc_channel.c:522-547 | accepts exactly the configurations that capabilities and ranges allow, and otherwise changes nothing |
| `ChannelImpl.Channel.WriteField` | lib/voltage_control/vc_channel.c:549-658 | per-field status and the one field written |
| `ChannelImpl.Channel.SetField` | lib/voltage_control/vc_channel.c:549-662 | a refused field write changes nothing; an accepted one also rewrites the hardware |
| `ChannelImpl.Channel.OutputAction` | lib/voltage_control/vc_channel.c:685-748 | status and new record of the five host actions by capability and fault |
| `ChannelImpl.Channel.FaultCommand` | lib/voltage_control/vc_channel.c:750-776 | clearing active faults only when safe, clearing history, and the refusals |
| `ChannelImpl.Channel.ConsumeVoltage` | lib/voltage_control/vc_channel.c:778-787 | the clamped converted reading is stored |
| `ChannelImpl.Channel.ConsumeCurrent` | lib/voltage_control/vc_channel.c:789-801 | the clamped converted reading is stored and protection runs on it |
| `ChannelImpl.Channel.ConsumeFault` | lib/voltage_control/vc_channel.c:318-329 | a reported fault is latched and the channel forced safe |
| `ChannelImpl.Channel.RampLoop` | lib/voltage_control/vc_channel.c:879-893 | the while loop over accumulator and voltage ends where the recursive definition ends |
| `ChannelImpl.Channel.TickRamp` | lib/voltage_control/vc_channel.c:811-908 | the whole new record of one ramp tick |
| `ChannelImpl.Channel.ResetCalibration` | lib/voltage_control/vc_channel.c:912-933 | output, ramp, readings and calibration session are cleared |
| `ChannelImpl.Channel.CalSetOutputEnable` | lib/voltage_control/vc_channel.c:935-955 | refused with a hardware or interlock fault; disabling clears code and raw readings |
| `ChannelImpl.Channel.CalSetRawDac` | lib/voltage_control/vc_channel.c:957-974 | refused above the limit, with a hard fault or without the enabled output |
| `ChannelImpl.Channel.CalSample` | lib/voltage_control/vc_channel.c:976-1000 | latches the raw readings the channel can measure |
| `ChannelImpl.Channel.CalCommit` | lib/voltage_control/vc_channel.c:1002-1011 | allowed exactly with output off, code zero and no hard fault |
| `ChannelImpl.Channel.SetCalField` | lib/voltage_control/vc_channel.c:1028-1078 | exponents outside [-9, 4] are refused; accepted writes keep the calibration in range |
| `ChannelImpl.Channel.LoadCal` | lib/voltage_control/vc_channel.c:1080-1085 | replaces the calibration without a range check and rewrites the hardware |
| `ChannelActions.TripsExactly` | lib/voltage_control/vc_channel.c:289-316 | a reading latches over-current if and only if no fault is active, no ramp runs, the protection acts and the stored value exceeds the limit; history, time stamp and recorded action follow, and nothing else changes |
| `ChannelActions.TripSwitchesOff` | lib/voltage_control/vc_channel.c:252-316 | without raw drive, or with the immediate or forced action, a trip leaves output off, target and code zero; the pin stays on exactly for the immediate action |
| `ChannelActions.TripRampsDown` | lib/voltage_control/vc_channel.c:252-316 | with raw drive the graceful action ramps down from the present voltage and no action leaves the output as it is |
| `ChannelActions.DefaultIsPassive` | lib/voltage_control/vc_channel.c:22-35 | with the default configuration no reading trips and no tick retries |
| `ChannelActions.ActionAcceptedExactly` | lib/voltage_control/vc_channel.c:685-748 | which host actions are accepted and with which error the others are refused; a refusal changes nothing |
| `ChannelActions.DisableSwitchesOff` | lib/voltage_control/vc_channel.c:685-748 | every accepted disable but the graceful one with raw drive leaves output off, target and code zero, and the pin on exactly for immediate with raw drive or a session |
| `ChannelActions.DisableRampsDown` | lib/voltage_control/vc_channel.c:720-727 | the graceful one ramps down from the present voltage |
| `ChannelActions.EnableSwitchesOn` | lib/voltage_control/vc_channel.c:711-719 | an accepted enable ramps from the present voltage with nothing left of a disable |
| `ChannelActions.GracefulWhileOff` | lib/voltage_control/vc_channel.c:720-727 | a graceful disable of an output that is off drives its device with the calibration offset until the next ramp tick switches it off |
| `ChannelActions.ReportedFaultSwitchesOff` | lib/voltage_control/vc_channel.c:318-329 | every reported fault leaves output, code and pin off, ends the session, and adds exactly its causes to active and history |
| `ChannelActions.SafeExactly` | lib/voltage_control/vc_channel.c:331-344 | the safe band without division, also for percentages above 100 |
| `ChannelActions.ClearExactly` | lib/voltage_control/vc_channel.c:750-776 | when active faults can be cleared; clearing one record leaves the other, the device and everything else |
| `ChannelActions.SessionEdgeSwitchesOff` | lib/voltage_control/vc_channel.c:912-933 | entering or leaving calibration leaves a silent device, no session and no readings |
| `ChannelActions.RawCodeExactly` | lib/voltage_control/vc_channel.c:957-974 | which raw codes are accepted, and that they reach the device |
| `ChannelActions.CalibrationOutputExactly` | lib/voltage_control/vc_channel.c:935-955 | when the calibration output switches on or off, and what the device then holds |
| `ChannelActions.SampleExactly` | lib/voltage_control/vc_channel.c:976-1000 | a sample latches exactly the kinds the channel measures |
| `ChannelActions.CommitExactly` | lib/voltage_control/vc_channel.c:1002-1011 | a commit is allowed exactly without session and hard fault |
| `ChannelActions.LatchedStaysOff` | lib/voltage_control/vc_channel.c:252-1085 | a channel that a fault has switched off stays at code zero through every run of writes, configurations, loads, commands, readings and ticks without a graceful disable, automatic recovery, clearing, or the calibration output |
| `ChannelActions.TripStaysOff` | lib/voltage_control/vc_channel.c:252-1085 | in particular after such a trip |
| `ChannelActions.ReportedFaultStaysOff` | lib/voltage_control/vc_channel.c:318-1085 | and after every reported fault |
| `ChannelFields.FieldReadBack` | lib/voltage_control/vc_channel.c:549-662 | an accepted field write is read back at its register, every other register keeps its value, and a refused one changes nothing |
| `ChannelFields.ConfigFromRegisters` | lib/voltage_control/vc_runtime.c:281-305 | the registers determine the configuration |
| `ChannelFields.FieldAgreesWithConfig` | lib/voltage_control/vc_channel.c:213-250 | writing one field does, error for error, what writing the whole configuration with that change does, except for a retry limit above the capacity |
| `ChannelFields.CalReadBack` | lib/voltage_control/vc_channel.c:1028-1078 | the same for calibration writes, refused exactly for exponents outside [-9, 4] |
| `ChannelFields.ConfigReadBack` | lib/voltage_control/vc_channel.c:522-547 | a whole configuration is taken over as it is or not at all |
| `ChannelFields.CalibrationReadBack` | lib/voltage_control/vc_channel.c:1080-1085 | a loaded calibration is taken over as it is |
| `ChannelSafety.UpStepExact` | lib/voltage_control/vc_channel.c:881-885 | one upward step stays between voltage and target for all voltages if and only if the step is at most 32768 - MAX_TARGET |
| `ChannelSafety.DownStepExact` | lib/voltage_control/vc_channel.c:886-891 | one downward step stays between voltage and target if and only if the step is at most 32769 |
| `ChannelSafety.TickRampKeepsSafety` | lib/voltage_control/vc_channel.c:811-908 | a ramp tick keeps the safety invariant, and raises the target only from an enabled output without active fault |
| `ChannelSafety.StepKeepsSafety` | lib/voltage_control/vc_channel.c:252-933 | every public step keeps the safety invariant; only a ramp tick that starts enabled and without active fault raises the operational target |
| `ChannelSafety.SafetyOnEveryRun` | lib/voltage_control/vc_channel.c:483-506 | the safety invariant in every state of every interleaving of ticks, readings, faults and host commands with supported ramp steps |
| `ChannelSafety.InitIsSafe` | lib/voltage_control/vc_channel.c:454-481 | initialisation establishes the safety invariant |
| `ChannelSafety.UnsafeUpStepEscapes` | lib/voltage_control/vc_channel.c:879-893 | for every upward step above the bound a run of accepted writes from power-on leaves [0, MAX_TARGET] |
| `ChannelSafety.UnsafeDownStepRises` | lib/voltage_control/vc_channel.c:879-893 | for every downward step above the bound a run of accepted writes from power-on makes a graceful disable raise the voltage, out of range when int16_t has room |
| `ChannelSafety.RunIsMicroSteps` | lib/voltage_control/vc_channel.c:483-506 | a channel run equals its single steps executed in order, so run theorems about steps cover it |
| `ChannelSafety.StepKeepsHw` | lib/voltage_control/vc_channel.c:113-147 | after every public step the DAC register holds the code that the state determines and the pin is on whenever the state asks for it |
| `ChannelSafety.CoherentOnEveryRun` | lib/voltage_control/vc_channel.c:113-147 | hardware coherence in every state of every run |
| `ChannelSafety.IdleCodeIsZero` | lib/voltage_control/vc_channel.c:113-147 | with calibration output and output both off the DAC register is zero |
| `ChannelPin.StepPinExactly` | lib/voltage_control/vc_channel.c:113-147 | after one step from an exact pin, the pin is what the state asks for if and only if the step is no stale-pin step: a trip with the immediate action, or a trip without an action, a fault clear or an unfinished recovery tick that leaves DISABLED_HV_ON |
| `ChannelPin.PinExactlyOnEveryRun` | lib/voltage_control/vc_channel.c:113-147 | over a run the pin is exact throughout if and only if no step of the run is one of those |
| `ChannelPin.StaleEnablePin` | lib/voltage_control/vc_channel.c:252-316 | one of them in full: after an immediate trip the pin stays on, with code zero |
| `ChannelPin.PinLeftOn` | lib/voltage_control/vc_channel.c:750-776 | a run of accepted writes from power-on that ends in DISABLED_SAFE without fault and with the pin on |
| `ChannelRamp.RampStepsClosed` | lib/voltage_control/vc_channel.c:879-893 | one tick makes as many whole steps as the accumulator holds intervals, never past the target, and keeps the remainder |
| `ChannelRamp.RampClosedForm` | lib/voltage_control/vc_channel.c:811-908 | after any non-empty split of elapsed time into ticks the target is the start moved by min(distance, floor((accumulated + T) / interval) * step) |
| `ChannelRamp.RampReadsConfig` | lib/voltage_control/vc_channel.c:811-908 | the closed form from the configuration fields: up with the up step and interval, down with the down ones, to zero for a disable, else the recovery or the configured target |
| `ChannelRamp.ArrivalExactly` | lib/voltage_control/vc_channel.c:833-908 | a finished disable leaves output and pin off, any other arrival is held and ends a recovery |
| `ChannelRamp.RampWaits` | lib/voltage_control/vc_channel.c:811-832 | an output that is off, or faulted without a disable, is not ramped |
| `ChannelRamp.GranularityIrrelevant` | lib/voltage_control/vc_channel.c:811-908 | two splits of the same time end at the same voltage |
| `ChannelRamp.CodesNeverDecrease` | lib/voltage_control/vc_channel.c:811-908 | the DAC codes written during one upward ramp never decrease |
| `ChannelRamp.HostStartsDisable` | lib/voltage_control/vc_channel.c:720-727 | a host graceful disable is accepted even with an active fault and starts the disable ramp |
| `ChannelRamp.TripStartsDisable` | lib/voltage_control/vc_channel.c:262-268 | a trip configured for a graceful disable starts the disable ramp with the fault latched |
| `ChannelRamp.GracefulDisableCompletes` | lib/voltage_control/vc_channel.c:811-908 | whatever readings and recovery ticks intervene, the output has been off at target zero if and only if a ramp tick happened and the closed form has come down to zero |
| `ChannelRamp.DisableTime` | lib/voltage_control/vc_channel.c:868-908 | one interval for each started step always suffices for a disable |
| `ChannelRetry.WrappedCount` | lib/voltage_control/vc_channel.c:351-362 | the wrapping count is never below the true count and equal exactly when no entry is aliased by the wrap |
| `ChannelRetry.BufferRefinesLog` | lib/voltage_control/vc_channel.c:351-373 | the count over the shifting buffer equals min(capacity, in-window entries of the whole log) exactly when no covered entry is aliased, and is never below it |
| `ChannelRetry.NoAliasesBeforeWrap` | lib/voltage_control/vc_channel.c:351-362 | below 2^32 ms of uptime nothing is aliased |
| `ChannelRetry.DecisionMatchesLog` | lib/voltage_control/vc_channel.c:410-417 | for a limit within the capacity, retry or exhaust is decided as the unbounded log would decide it |
| `ChannelRetry.LimitOutOfReach` | lib/voltage_control/vc_channel.c:410-417 | a limit above the capacity is never reached |
| `ChannelRetry.DecidesAsLogExactly` | lib/voltage_control/vc_channel.c:410-417 | for every log the decision is that of the unbounded log if and only if the limit does not exceed the capacity |
| `ChannelRetryRuns.EagerAccepted` | lib/voltage_control/vc_channel.c:522-547 | a whole configuration with any retry limit is accepted |
| `ChannelRetryRuns.UnlimitedRetries` | lib/voltage_control/vc_channel.c:410-431 | after such a configuration with a limit above the capacity any number of retries is recorded in one millisecond |
| `ChannelRetryRuns.EagerlyAccepted` | lib/voltage_control/vc_channel.c:522-547 | the same on any channel, with only the retry and protection fields of its configuration changed |
| `ChannelRetryRuns.Burst` | lib/voltage_control/vc_channel.c:410-431 | so limit + 1 retries fall inside the window with the limit in force throughout |
| `ChannelRetryRuns.RateLimitExactly` | lib/voltage_control/vc_channel.c:351-431 | window and limit bound the retry rate in every run if and only if the limit does not exceed the capacity |
| `ChannelRetryRuns.AliasingIsReached` | lib/voltage_control/vc_channel.c:351-362 | a run of an accepted configuration, readings and ticks after which an old entry is counted again |
| `ChannelRetry.AliasingHappens` | lib/voltage_control/vc_channel.c:351-362 | an entry exactly 2^32 ms old is counted again |
| `ChannelRetry.StepKeepsRetry` | lib/voltage_control/vc_channel.c:351-431 | buffer, log and clock stay consistent under every event, and a retry is recorded only below the limit |
| `ChannelRetry.RetryInvOnEveryRun` | lib/voltage_control/vc_channel.c:351-431 | that consistency in every state of every run |
| `ChannelRetry.AdmittedRetryIsSpaced` | lib/voltage_control/vc_channel.c:410-431 | for a limit within the capacity, an admitted retry lies outside the window of the one limit places before it |
| `ChannelRetry.RetryRateLimit` | lib/voltage_control/vc_channel.c:351-431 | for limits within the capacity, over whole runs any limit + 1 consecutive retries span more than the window, also across the wrap of the 32-bit uptime and through configurations without retries |
| `ChannelRecovery.CoolDownAccounting` | lib/voltage_control/vc_channel.c:375-408 | for any ramp steps, elapsed plus remaining cool-down equals the delay until the delay is over, and nothing else changes |
| `ChannelRecovery.FirstEligibleTickDecides` | lib/voltage_control/vc_channel.c:375-438 | for any ramp steps, the first tick past the delay with a safe reading retries (derated target = configured - (k + 1) * step, in (0, configured]) or exhausts |
| `ChannelRecovery.RetriesExactly` | lib/voltage_control/vc_channel.c:375-438 | a recovery tick records a retry if and only if mode, fault, policy, ramp, cool-down, reading, window and derated target all allow it; otherwise it leaves the output alone |
| `ChannelRecovery.RecoveryKeepsRecord` | lib/voltage_control/vc_channel.c:375-438 | whatever it decides, a recovery tick keeps history, readings, session, configuration and calibration |
| `ChannelSafety.StepKeepsRange` | lib/voltage_control/vc_channel.c:252-933 | whatever the ramp steps, every event keeps the configuration in range and a stopped disable at zero |
| `ChannelSafety.RangeOnEveryRun` | lib/voltage_control/vc_channel.c:483-506 | the same over every run |
| `ChannelRecovery.ExhaustedStaysOff` | lib/voltage_control/vc_channel.c:412-431 | whatever the ramp steps, after exhaustion ticks and readings leave an off output and its device untouched |
| `ChannelRecoveryRamp.RecoveryClosedForm` | lib/voltage_control/vc_channel.c:811-908 | up to its arrival the recovery ramp has the closed form towards the recovery target; then it goes on to the configured one |
| `ChannelRecoveryRamp.RecoveryArrives` | lib/voltage_control/vc_channel.c:811-908 | a recovery ramp reaches its target under some sequence of ticks |
| `ChannelRecoveryRamp.RetryStaysAtZero` | lib/voltage_control/vc_channel.c:375-438 | for any ramp steps: after the decision of the first eligible tick a voltage whose disable ramp was cut short stays at zero under all ramp ticks |
| `ChannelRecoveryRamp.RecoveryRampsExactly` | lib/voltage_control/vc_channel.c:811-832 | a channel that has just retried reaches its recovery target if and only if no disable ramp was left unfinished |
| `ChannelRecoveryRamp.RetryRampsExactly` | lib/voltage_control/vc_channel.c:375-438 | the same from the latched fault: the retry of the first eligible tick ramps exactly when the fault did not cut a disable ramp short |
| `ChannelRecoveryRamp.RetryCanGoNowhere` | lib/voltage_control/vc_channel.c:318-329 | a run of accepted writes, a fault and a tick after which the output is on, recovering, and stays at zero under every sequence of ramp ticks |
| `ChannelRecovery.ExhaustionIsFinal` | lib/voltage_control/vc_channel.c:412-431 | after exhaustion no run of ticks and readings enables an off output or raises the target |
| `ControllerImpl.Controller.constructor` | lib/voltage_control/vc_controller.c:74-106 | power-on: fresh separate channels, NORMAL mode, locked, empty storage |
| `ControllerImpl.Controller.Restart` | lib/voltage_control/vc_controller.c:74-106 | initialising again: power-on state over the same storage, with the registers that the devices had |
| `ControllerImpl.Controller.SetOperatingMode` | lib/voltage_control/vc_controller.c:171-266 | every refusal, and the channel loops of an accepted mode change in source order |
| `ControllerImpl.Controller.CalibrationUnlock` | lib/voltage_control/vc_controller.c:274-290 | the two-step unlock machine |
| `ControllerImpl.Controller.CalExit` | lib/voltage_control/vc_controller.c:292-298 | leaves calibration for the remembered mode, and is refused elsewhere |
| `ControllerImpl.Controller.Tick` | lib/voltage_control/vc_controller.c:153-167 | watchdog in calibration, channel runs otherwise |
| `ControllerImpl.Controller.CalHeartbeat` | lib/voltage_control/vc_controller.c:31-41 | refreshes the watchdog in calibration only |
| `ControllerImpl.Controller.ChannelOutputAction` | lib/voltage_control/vc_controller.c:110-120 | refused in calibration; otherwise one channel changes and no other |
| `ControllerImpl.Controller.ChannelFaultCommand` | lib/voltage_control/vc_controller.c:122-129 | one channel changes and no other |
| `ControllerImpl.Controller.ChannelSetField` | lib/voltage_control/vc_controller.c:131-149 | an accepted non-zero target in AUTOMATIC also enables a healthy channel |
| `ControllerImpl.Controller.ConsumeFault` | lib/voltage_control/vc_channel.c:803-809 | a reported fault reaches one channel and no other |
| `ControllerImpl.Controller.ChannelSetCalField` | lib/voltage_control/vc_controller.c:393-409 | only in calibration; success refreshes the watchdog |
| `ControllerImpl.Controller.OtherBusy` | lib/voltage_control/vc_controller.c:555-565 | the loop finds whether another channel holds the calibration output |
| `ControllerImpl.Controller.CalOutputEnable` | lib/voltage_control/vc_controller.c:545-571 | refused while another channel holds the calibration output; success refreshes the watchdog |
| `ControllerImpl.Controller.CalRawDac` | lib/voltage_control/vc_controller.c:573-588 | only in calibration; success refreshes the watchdog |
| `ControllerImpl.Controller.CalSample` | lib/voltage_control/vc_controller.c:590-605 | only in calibration; success refreshes the watchdog |
| `ControllerImpl.Controller.CalCommit` | lib/voltage_control/vc_controller.c:607-631 | stores the calibration when the backend accepts it; the watchdog is refreshed even when it does not |
| `ControllerImpl.Controller.SetSystemConfig` | lib/voltage_control/vc_controller.c:309-323 | the persisted mode never becomes calibration; a mode change is attempted |
| `ControllerImpl.Controller.SetSystemField` | lib/voltage_control/vc_controller.c:325-344 | dispatch of the two system fields |
| `ControllerImpl.Controller.SystemParamAction` | lib/voltage_control/vc_controller.c:426-466 | save, load and factory reset with a failing or missing backend |
| `ControllerImpl.Controller.ChannelParamAction` | lib/voltage_control/vc_controller.c:468-541 | save, load with calibration reload, and factory reset of one channel |
| `ControllerImpl.Controller.Perform` | lib/voltage_control/vc_runtime.c:731-782 | one dispatched command does what the run semantics says, so whole-run theorems cover the class |
| `ControllerInv.DoKeeps` | lib/voltage_control/vc_controller.c:110-631 | every command keeps the joint invariant of channels and stored records |
| `ControllerInv.InvOnEveryRun` | lib/voltage_control/vc_controller.c:110-631 | the joint invariant in every state of every run |
| `ControllerInv.PowerOn` | lib/voltage_control/vc_controller.c:74-106 | power-on with an empty store establishes it |
| `ControllerRuns.ReachableIsSafe` | lib/voltage_control/vc_controller.c:545-588 | in every reachable state the gains cannot overflow, at most one channel holds a calibration output or raw code, a raw code needs the enabled output, and that channel has no hard fault |
| `ControllerRuns.ReachableChannels` | lib/voltage_control/vc_controller.c:153-631 | in every reachable controller every channel has a consistent retry log and a configuration it may hold, with a limit within the capacity and every value in range |
| `ControllerRuns.ReachableSafety` | lib/voltage_control/vc_controller.c:153-631 | for supported ramp steps every channel of every reachable controller satisfies the safety invariant |
| `ControllerTrace.CommandRuns` | lib/voltage_control/vc_controller.c:110-631 | every command but a restart does to a channel exactly what the listed channel events do |
| `ControllerTrace.ChannelRuns` | lib/voltage_control/vc_controller.c:110-631 | in a run without restart a channel inside the controller runs as the channel alone on its events |
| `ControllerChannels.RestartCoherentExactly` | lib/voltage_control/vc_channel.c:454-481 | after a restart the DAC register holds the code of the state if and only if the old code was zero, and likewise the pin |
| `ControllerChannels.CoherentExactly` | lib/voltage_control/vc_controller.c:74-631 | throughout a run the DAC register of a channel is coherent if and only if no restart finds its code other than zero |
| `ControllerChannels.ReachableCoherence` | lib/voltage_control/vc_controller.c:74-631 | the same for every run from power-on |
| `ControllerChannels.RestartLeavesOutputDriven` | lib/voltage_control/vc_controller.c:74-106 | a concrete run (two writes, enable, tick, restart) that leaves a disabled channel driving its old code with the pin on |
| `ControllerChannels.ControllerRateLimit` | lib/voltage_control/vc_channel.c:351-431 | the retry rate limit for a channel inside a controller, in every run without a restart |
| `ControllerHistory.RestartKeepsHistory` | lib/voltage_control/vc_channel.c:454-481 | the history of retries and uptime through all initialisations is unchanged by a restart |
| `ControllerHistory.LimitSpansRestartExactly` | lib/voltage_control/vc_channel.c:454-481 | for every channel and devicetree configuration: window and limit hold across a restart, whatever stays configured within them, if and only if the limit is zero, or the last retry is outside the window at the restart, or the devicetree configuration itself is not within them (one without retries is) |
| `ControllerRestartRun.RestartDefeatsLimit` | lib/voltage_control/vc_channel.c:351-481 | a concrete run from power-on with devicetree defaults (load, retry, restart, load, retry): configured for one retry per window throughout, two retries in one millisecond |
| `ControllerHistory.RateLimitAcrossRestarts` | lib/voltage_control/vc_channel.c:351-431 | the rate limit of the whole history in every controller run whose restarts find the last retry outside the window, also through configurations without retries such as the defaults |
| `ControllerChannels.PinExactly` | lib/voltage_control/vc_controller.c:74-631 | throughout a run the pin of a channel is exact if and only if no event leaves it stale and no restart finds it on |
| `ControllerChannels.ReachablePin` | lib/voltage_control/vc_controller.c:74-631 | the same for every run from power-on |
| `ControllerChannels.ControllerDecides` | lib/voltage_control/vc_channel.c:375-438 | inside an AUTOMATIC controller the first eligible tick retries or gives up |
| `ControllerChannels.ControllerDisableCompletes` | lib/voltage_control/vc_channel.c:811-908 | inside a ticking controller a graceful disable reaches off exactly when the closed form does |
| `ControllerChannels.ControllerExhaustionIsFinal` | lib/voltage_control/vc_channel.c:412-431 | inside a ticking controller exhaustion is final |
| `ControllerRuns.CalibrationToAutomatic` | lib/voltage_control/vc_controller.c:196-263 | never refused; afterwards an output is enabled if and only if it is wanted and the channel has no active fault |
| `ControllerRuns.NormalToAutomatic` | lib/voltage_control/vc_controller.c:196-208 | refused exactly when some channel is faulted, and then nothing changes |
| `ControllerModes.ToAutomaticEnables` | lib/voltage_control/vc_controller.c:185-245 | from NORMAL exactly the channels that want output are switched on, the others stay as they were |
| `ControllerModes.ToNormalDisables` | lib/voltage_control/vc_controller.c:217-225 | from AUTOMATIC to NORMAL is never refused: channels with raw drive ramp to zero, others are off, and those that cannot be switched stay |
| `ControllerModes.EnteringSilences` | lib/voltage_control/vc_controller.c:247-268 | entering calibration uses the unlock up and leaves every device silent |
| `ControllerModes.LeavingSilences` | lib/voltage_control/vc_controller.c:199-214 | leaving it for NORMAL leaves every device silent |
| `ControllerModes.TargetWriteEnables` | lib/voltage_control/vc_controller.c:131-151 | an accepted target write switches on if and only if AUTOMATIC, non-zero and healthy; else the output stays as it was |
| `ControllerModes.ModeAcceptedExactly` | lib/voltage_control/vc_controller.c:171-272 | the error of every refused change of mode; the mode is the requested one exactly when accepted |
| `ControllerModes.RoutedExactly` | lib/voltage_control/vc_controller.c:110-605 | a command to one channel gets the answer of the channel if and only if the channel exists, the mode is right and no other one is in a session; the others never change |
| `ControllerModes.RefusedChangesNoChannel` | lib/voltage_control/vc_controller.c:110-634 | a refused command changes no channel, no record and not the mode; the three that leave a mark |
| `ControllerModes.PolicyWriteEndsSession` | lib/voltage_control/vc_controller.c:309-346 | a write of the start-up policy during a session ends the session |
| `ControllerModes.SessionsEndExactly` | lib/voltage_control/vc_controller.c:171-634 | after a command no channel holds a calibration output outside calibration, except exactly after a system factory reset in a session |
| `ControllerModes.SessionsEndOnEveryRun` | lib/voltage_control/vc_controller.c:171-634 | over every run, if and only if no such reset comes in a session |
| `ControllerModes.ResetLeavesCodeDriven` | lib/voltage_control/vc_controller.c:455-461 | after such a reset the device keeps the raw code through every run of ticks, without watchdog |
| `ControllerModes.SessionIsReached` | lib/voltage_control/vc_controller.c:274-588 | a run of accepted commands from power-on that reaches such a session, for every code within the limit |
| `ControllerRuns.WatchdogAccounting` | lib/voltage_control/vc_controller.c:153-167 | remaining time plus tick time since the last accepted calibration command equals the timeout, and time remains |
| `ControllerRuns.WatchdogExpiry` | lib/voltage_control/vc_controller.c:153-167 | a tick leaves calibration exactly when it reaches the remaining time; the earlier mode is back and every channel is cleared |
| `ControllerRuns.WatchdogEndsSession` | lib/voltage_control/vc_controller.c:153-266 | over a whole session: the first tick that makes the idle time reach the timeout ends it and restores the mode from before |
| `ControllerRuns.UnlockUntouched` | lib/voltage_control/vc_controller.c:171-290 | only unlock writes, an entry and a restart touch the unlock state |
| `ControllerRuns.EntryNeedsUnlock` | lib/voltage_control/vc_controller.c:171-182 | a command enters calibration exactly when it asks for it and the controller is unlocked |
| `ControllerRuns.UnlockLanguage` | lib/voltage_control/vc_controller.c:274-290 | for every interleaving: entry succeeds exactly when the last two unlock writes since the previous entry are step 1 then step 2 |
| `ControllerRuns.SavedModeIsNeverCalibration` | lib/voltage_control/vc_controller.c:309-323 | neither the system configuration nor its stored record ever holds calibration |
| `ControllerRuns.SaveRunLoad` | lib/voltage_control/vc_controller.c:468-512 | SAVE, any run that does not re-save or erase, LOAD restores exactly the saved configuration |
| `ControllerStorage.CommitStoresExactly` | lib/voltage_control/vc_controller.c:607-634 | when a commit is accepted, and that exactly an accepted one writes the record of its channel and no other |
| `ControllerStorage.CommitRunLoad` | lib/voltage_control/vc_controller.c:468-634 | an accepted commit, any run without another commit of the channel or an erase, then LOAD restores exactly the committed calibration |
| `ControllerStorage.SystemSaveRunLoad` | lib/voltage_control/vc_controller.c:426-455 | a saved system configuration is back after any run without re-save or erase, with the saved mode exactly when LOAD reports success |
| `ControllerStorage.ErasedLoadsNothing` | lib/voltage_control/vc_controller.c:455-512 | after an erase and any run that stores nothing the loads succeed and change nothing |
| `ControllerStorage.ChannelResetTakes` | lib/voltage_control/vc_controller.c:514-538 | a channel factory reset leaves the defaults and the committed calibration, or nothing changed |
| `ControllerStorage.SaveStoresExactly` | lib/voltage_control/vc_controller.c:478-489 | a save writes the record of its channel and no other |
| `RuntimeInv.PointersAlwaysValid` | lib/voltage_control/vc_runtime.c:791-958 | in every interleaving every queued or executing command belongs to an operation that still waits, with no duplicates |
| `RuntimeInv.StepKeepsInv` | lib/voltage_control/vc_runtime.c:69-96 | one atomic move keeps counter, phases, token, order and wake-up invariants |
| `RuntimeInv.InvOnEveryRun` | lib/voltage_control/vc_runtime.c:69-96 | the counter equals the operations between increment and decrement, commands execute in order of admission and none is lost, in every orderly run |
| `RuntimeInv.OneCycleIsOrderly` | lib/voltage_control/vc_runtime.c:866-909 | within one start-stop cycle every run is orderly: nothing is inside when the counter is cleared |
| `RuntimeInv.ClearBreaksCount` | lib/voltage_control/vc_runtime.c:878-879 | a start keeps the count exactly when it finds no operation inside |
| `RuntimeInv.HolderSawRuntime` | lib/voltage_control/vc_runtime.c:77-96 | whoever comes to hold the runtime passed both checks and saw it published |
| `RuntimeShutdown.NoneAdmittedAfterStopping` | lib/voltage_control/vc_runtime.c:77-96 | no operation becomes admitted while the runtime is not RUNNING again |
| `RuntimeShutdown.RankNeverGrows` | lib/voltage_control/vc_runtime.c:911-929 | during a shutdown no move increases the remaining work and every useful move decreases it |
| `RuntimeShutdown.SomeMoveAdvances` | lib/voltage_control/vc_runtime.c:911-929 | in every state of a shutdown some enabled move decreases it |
| `RuntimeShutdown.ShutdownFinishes` | lib/voltage_control/vc_runtime.c:911-929 | a run within the rank bound lets the destroyer return |
| `RuntimeShutdown.EnoughMovesFinish` | lib/voltage_control/vc_runtime.c:911-929 | a run with more advancing moves than the rank has ended the shutdown on the way, whatever the schedule |
| `RuntimeShutdown.DestroyerNeverStranded` | lib/voltage_control/vc_runtime.c:911-929 | in every orderly run a destroyer that has begun can still return |
| `RuntimeShutdown.FusedReleaseIsQuiescent` | lib/voltage_control/vc_runtime.c:69-75 | with decrement and check in one step nobody holds the runtime and no command is pending when the worker is told to stop |
| `RuntimeShutdown.ShutdownSafeExactly` | lib/voltage_control/vc_runtime.c:69-96 | at single-atomic granularity a shutdown is quiescent in every continuation if and only if at its start there is not both an operation between decrement-to-zero and check and another one admitted |
| `RuntimeShutdown.RaceIsReachable` | lib/voltage_control/vc_runtime.c:69-96 | a concrete run of two operations reaches that situation |
| `RuntimeShutdown.QuiescenceCanFail` | lib/voltage_control/vc_runtime.c:911-929 | so some run tells the worker to stop while an operation holds the runtime |
| `RuntimeShutdown.EarlyStopLosesCommand` | lib/voltage_control/vc_runtime.c:911-958 | after that the holder queues a command that no continuation executes, and it waits for ever |
| `RuntimeShutdown.LateOperationMeetsStart` | lib/voltage_control/vc_runtime.c:866-879 | a concrete run in which the next start clears the counter under an operation |
| `RuntimeShutdown.LateOperationStrandsDestroyer` | lib/voltage_control/vc_runtime.c:866-929 | after that the counter is -1 and a later destroyer waits in every continuation |
| `RuntimeShutdown.LateOperationHidesHolder` | lib/voltage_control/vc_runtime.c:866-929 | or one operation inside brings it to zero and the worker is told to stop under its holder |
| `TopologySpec.FindGroup` | tools/psb_modbus_core/topology_rules.cpp:30-40 | the least group that contains the channel, or -1 |
| `TopologySpec.Locate` | tools/psb_modbus_core/topology_rules.cpp:98-108 | the place of a board with the nickname, or none when it is unused |
| `TopologySpec.FirstPlace` | tools/psb_modbus_core/topology_rules.cpp:246-265 | the first place of a board with the nickname, or none when it is unused |
| `TopologyImpl.TopologyConfig.BoardNicknameInUse` | tools/psb_modbus_core/topology_rules.cpp:7-12 | true exactly when some board has the nickname |
| `TopologyImpl.TopologyConfig.SlaveIdInUse` | tools/psb_modbus_core/topology_rules.cpp:14-18 | true exactly when some board of the bus has the ID |
| `TopologyImpl.TopologyConfig.GroupNameInUse` | tools/psb_modbus_core/topology_rules.cpp:20-24 | true exactly when another group has the name |
| `TopologyImpl.TopologyConfig.GroupAliasInUse` | tools/psb_modbus_core/topology_rules.cpp:42-50 | true exactly when another channel of the group has the alias |
| `TopologyImpl.TopologyConfig.FindGroupForBoardChannel` | tools/psb_modbus_core/topology_rules.cpp:30-40 | the nested loops find the first group that contains the channel |
| `TopologyImpl.TopologyConfig.AddBus` | tools/psb_modbus_core/topology_rules.cpp:52-66 | new topology and error, port collisions named by the first bus |
| `TopologyImpl.TopologyConfig.RemoveBus` | tools/psb_modbus_core/topology_rules.cpp:68-73 | new topology and error |
| `TopologyImpl.TopologyConfig.AddBoard` | tools/psb_modbus_core/topology_rules.cpp:75-92 | new topology and error in the order of the checks |
| `TopologyImpl.TopologyConfig.RenameBoard` | tools/psb_modbus_core/topology_rules.cpp:94-116 | the board and every reference to it are renamed in place, or nothing changes |
| `TopologyImpl.TopologyConfig.RemoveBoard` | tools/psb_modbus_core/topology_rules.cpp:118-126 | the board goes, references to it stay |
| `TopologyImpl.TopologyConfig.AddGroup` | tools/psb_modbus_core/topology_rules.cpp:128-136 | new topology and error |
| `TopologyImpl.TopologyConfig.RenameGroup` | tools/psb_modbus_core/topology_rules.cpp:138-149 | new topology and error |
| `TopologyImpl.TopologyConfig.RemoveGroup` | tools/psb_modbus_core/topology_rules.cpp:151-156 | new topology and error |
| `TopologyImpl.TopologyConfig.AddChannelToGroup` | tools/psb_modbus_core/topology_rules.cpp:158-184 | new topology and error in the order of the checks |
| `TopologyImpl.TopologyConfig.RenameGroupChannelAlias` | tools/psb_modbus_core/topology_rules.cpp:186-204 | new topology and error |
| `TopologyImpl.TopologyConfig.RenameAliasForBoardChannel` | tools/psb_modbus_core/topology_rules.cpp:206-221 | renames through the found group; the fall-through at its end is unreachable |
| `TopologyImpl.TopologyConfig.RemoveChannelFromGroup` | tools/psb_modbus_core/topology_rules.cpp:223-231 | new topology and error |
| `TopologyImpl.TopologyConfig.AvailableGroupChannels` | tools/psb_modbus_core/topology_rules.cpp:233-244 | the loops deliver the offered channels in order |
| `TopologyImpl.TopologyConfig.ResolveBoardEndpoint` | tools/psb_modbus_core/topology_rules.cpp:246-285 | endpoint or failure of the nested searches |
| `TopologyImpl.TopologyConfig.Perform` | tools/psb_modbus_core/topology_rules.cpp:52-231 | one edit does what the run semantics says, so the run theorems cover the class |
| `TopologyRules.EditKeepsExactly` | tools/psb_modbus_core/topology_rules.cpp:52-231 | an edit keeps all six uniqueness properties if and only if it does not merge two references |
| `TopologyRules.FiveOnEveryRun` | tools/psb_modbus_core/topology_rules.cpp:52-231 | five of the six hold after every run of edits from the empty topology |
| `TopologyRules.WellFormedOnEveryRun` | tools/psb_modbus_core/topology_rules.cpp:52-231 | all six hold after every run without a merge |
| `TopologyRules.RenameKeepsRefsExactly` | tools/psb_modbus_core/topology_rules.cpp:94-116 | a rename keeps each channel in one place if and only if no channel was referenced under both nicknames |
| `TopologyRules.RenameCanMerge` | tools/psb_modbus_core/topology_rules.cpp:94-126 | a concrete run with a removed board and a rename merges two references |
| `TopologyRules.ErrorChangesNothing` | tools/psb_modbus_core/topology_rules.cpp:52-231 | a returned error means nothing changed |
| `TopologyEdits.AddBusExactly` | tools/psb_modbus_core/topology_rules.cpp:52-66 | accepted exactly for a new port; the new bus comes last with its port, rate and name, and a collision names the first bus |
| `TopologyEdits.RemoveBusExactly` | tools/psb_modbus_core/topology_rules.cpp:68-73 | exactly that bus goes, the others keep their order |
| `TopologyEdits.AddBoardExactly` | tools/psb_modbus_core/topology_rules.cpp:75-92 | accepted exactly for a new nickname and a free slave ID in range; only that bus grows |
| `TopologyEdits.AddedBoardResolves` | tools/psb_modbus_core/topology_rules.cpp:75-285 | an added board resolves to port and rate of its bus and its own slave ID; every other nickname resolves as before |
| `TopologyEdits.RenameBoardExactly` | tools/psb_modbus_core/topology_rules.cpp:94-108 | accepted exactly when the old nickname is used and the new one is free |
| `TopologyEdits.RemoveBoardExactly` | tools/psb_modbus_core/topology_rules.cpp:118-126 | exactly that board goes |
| `TopologyEdits.RemovedBoardIsGone` | tools/psb_modbus_core/topology_rules.cpp:118-285 | a removed board no longer resolves |
| `TopologyEdits.AddGroupExactly` | tools/psb_modbus_core/topology_rules.cpp:128-136 | accepted exactly for a new name; an empty group comes last |
| `TopologyEdits.RenameGroupExactly` | tools/psb_modbus_core/topology_rules.cpp:138-149 | accepted exactly when no other group has the name; only the name changes |
| `TopologyEdits.RemoveGroupExactly` | tools/psb_modbus_core/topology_rules.cpp:151-156 | exactly that group goes |
| `TopologyEdits.AddChannelExactly` | tools/psb_modbus_core/topology_rules.cpp:158-184 | accepted exactly when no group holds the channel and the alias is free in the group; a refusal names a group that holds it |
| `TopologyEdits.RenameAliasExactly` | tools/psb_modbus_core/topology_rules.cpp:186-204 | accepted exactly when no other channel of the group has the alias; only the alias changes |
| `TopologyEdits.RenameAliasOfExactly` | tools/psb_modbus_core/topology_rules.cpp:206-221 | by board and channel, the one place that holds it is renamed |
| `TopologyEdits.RenameAliasNeedsGroup` | tools/psb_modbus_core/topology_rules.cpp:206-221 | a channel in no group is refused and nothing changes |
| `TopologyEdits.RemoveChannelExactly` | tools/psb_modbus_core/topology_rules.cpp:223-231 | exactly that reference goes |
| `TopologyEdits.FindAfterRemove` | tools/psb_modbus_core/topology_rules.cpp:30-231 | a removed channel is in no group, every other one is found where it was |
| `TopologyLookup.FindAfterRename` | tools/psb_modbus_core/topology_rules.cpp:94-116 | what was found under the old nickname is found under the new one; with both referenced the earlier group wins |
| `TopologyLookup.RenameCommutesWithFind` | tools/psb_modbus_core/topology_rules.cpp:94-116 | renaming and finding commute when no group refers to the new nickname |
| `TopologyLookup.AvailableExact` | tools/psb_modbus_core/topology_rules.cpp:233-244 | offered are exactly the unassigned channels of live boards with their default aliases |
| `TopologyLookup.UnassignedIncreases` | tools/psb_modbus_core/topology_rules.cpp:233-244 | the channels of one board are offered in increasing order |
| `TopologyLookup.FindAfterAdd` | tools/psb_modbus_core/topology_rules.cpp:158-184 | an accepted assignment changes the lookup of that channel and of no other |
| `TopologyLookup.AddingShrinksOffer` | tools/psb_modbus_core/topology_rules.cpp:158-244 | assigning a channel takes it, and only it, off the offer |
| `TopologyLookup.OfferedCanBeAdded` | tools/psb_modbus_core/topology_rules.cpp:158-244 | an offered channel can be assigned unless its alias is taken in that group |
| `TopologyLookup.DecimalReads` | tools/psb_modbus_core/topology_config.h:40-42 | the numeral in an alias reads as the channel number, in digits and without leading zero |
| `TopologyLookup.DefaultAliasInjective` | tools/psb_modbus_core/topology_config.h:40-42 | different channels have different default aliases |
| `TopologyLookup.WholeBoardFits` | tools/psb_modbus_core/topology_rules.cpp:158-184 | an empty group takes a whole unassigned board with default aliases |
| `TopologyLookup.ResolveFindsBoard` | tools/psb_modbus_core/topology_rules.cpp:246-285 | a nickname resolves to the board that carries it |
| `TopologyLookup.ResolveInjective` | tools/psb_modbus_core/topology_rules.cpp:246-285 | two boards never resolve to the same port and slave ID |
| `TopologyLookup.ResolveAfterRename` | tools/psb_modbus_core/topology_rules.cpp:94-285 | a rename keeps the address of every board |
| `TopologyLookup.ResolveWithoutBoards` | tools/psb_modbus_core/topology_rules.cpp:246-276 | a topology without boards resolves nothing, with the error of the case |
| `TopologyLookup.ResolveWithoutName` | tools/psb_modbus_core/topology_rules.cpp:266-276 | without a nickname the lookup succeeds exactly when there is one board in all |
| `AdapterImpl.Adapter.Create` | lib/modbus_adapter/modbus_adapter.c:530-549 | loads, or falls back to the default and persists it, or returns no adapter with the pointer left set |
| `AdapterImpl.Adapter.Start` | lib/modbus_adapter/modbus_adapter.c:627-655 | creation, interface lookup and first server start |
| `AdapterImpl.Adapter.ApplyConfig` | lib/modbus_adapter/modbus_adapter.c:599-625 | restart with the new configuration, or back to the previous one, or no server |
| `AdapterImpl.Adapter.SetSlaveAddress` | lib/modbus_adapter/modbus_adapter.c:657-672 | range check, then apply |
| `AdapterImpl.Adapter.SetBaudRateCode` | lib/modbus_adapter/modbus_adapter.c:674-690 | range check, then apply |
| `AdapterImpl.Adapter.WriteNextBootField` | lib/modbus_adapter/modbus_adapter.c:354-389 | validated, persisted, then kept; a failure changes nothing |
| `AdapterImpl.Adapter.ConfigSave` | lib/modbus_adapter/modbus_adapter.c:692-709 | persists the active configuration |
| `AdapterImpl.Adapter.ConfigLoad` | lib/modbus_adapter/modbus_adapter.c:711-735 | validated and applied before the next boot follows |
| `AdapterImpl.Adapter.ConfigFactory` | lib/modbus_adapter/modbus_adapter.c:737-757 | persisted before it is applied |
| `AdapterImpl.Adapter.HandleParamAction` | lib/modbus_adapter/modbus_adapter.c:395-446 | the adapter part of a system parameter action |
| `AdapterImpl.Adapter.Perform` | lib/modbus_adapter/modbus_adapter.c:354-757 | one event does what the run semantics says, so the run theorems cover the class |
| `AdapterRules.StepKeepsReady` | lib/modbus_adapter/modbus_adapter.c:354-757 | every request keeps: stored equals next boot, both configurations valid, a running server runs the active one |
| `AdapterRules.CreationIsReady` | lib/modbus_adapter/modbus_adapter.c:530-549 | a creation that delivers establishes it with active equal to next boot |
| `AdapterRules.ReadyOnEveryRun` | lib/modbus_adapter/modbus_adapter.c:354-757 | in every run of requests after delivering creations, whichever saves and restarts fail |
| `AdapterRules.CreationAppliesNextBoot` | lib/modbus_adapter/modbus_adapter.c:530-549 | a later creation that reads its record makes the next-boot configuration active |
| `AdapterRules.NextBootLeavesActive` | lib/modbus_adapter/modbus_adapter.c:354-389 | no run of next-boot writes, saves and parameter actions changes the active configuration |
| `AdapterRules.ActiveLeavesNextBoot` | lib/modbus_adapter/modbus_adapter.c:599-690 | no run of active writes changes next boot or storage |
| `AdapterRules.NextBootTakesEffect` | lib/modbus_adapter/modbus_adapter.c:354-655 | an accepted next-boot write survives active writes and takes effect at the next start |
| `AdapterRules.SaveThenStart` | lib/modbus_adapter/modbus_adapter.c:530-709 | what was active when saved is active after the next start |
| `AdapterRules.AcceptedExactly` | lib/modbus_adapter/modbus_adapter.c:354-757 | which requests are accepted, by value range, saves, loads and server starts |
| `AdapterRules.AcceptedTakesEffect` | lib/modbus_adapter/modbus_adapter.c:354-757 | an accepted request changes exactly its field of its configuration, or copies or resets whole ones; the server runs what became active and the store holds the next boot |
| `AdapterRules.ParamLoadTakes` | lib/modbus_adapter/modbus_adapter.c:412-426 | a parameter load takes over the stored record exactly when it can be read and is valid |
| `AdapterRules.LoadTakes` | lib/modbus_adapter/modbus_adapter.c:711-735 | a load makes active and next boot the stored record together, or leaves both |
| `AdapterRules.StartServesExactly` | lib/modbus_adapter/modbus_adapter.c:627-655 | a start succeeds exactly with a delivered adapter, an interface and a started server, which runs the active configuration |
| `AdapterRules.RefusedChangesNothingExactly` | lib/modbus_adapter/modbus_adapter.c:354-757 | a refused request changes no configuration, except exactly a persisted factory reset whose restart failed |
| `AdapterRules.ServerDownExactly` | lib/modbus_adapter/modbus_adapter.c:599-625 | the server is down exactly when both starts failed, or it was down and not restarted |
| `AdapterRules.FailedCreation` | lib/modbus_adapter/modbus_adapter.c:530-549 | what a creation that returns nothing leaves behind, and exactly when that is consistent |
| `AdapterRules.AbsentRefuses` | lib/modbus_adapter/modbus_adapter.c:354-757 | without an adapter every request answers that there is no device |
| `AdapterRules.FailedStartRefuses` | lib/modbus_adapter/modbus_adapter.c:627-655 | after a failed start every request is refused without effect |

## Left out

- Status bits, snapshots and read paths of the registers: derived output that no modelled operation reads back, except the registers of configuration and calibration.
- Drivers: GPIO, SPI, ADC, DAC, work queues and timers; the device is the pair of DAC code and enable pin, both zero at power-on and kept over a later initialisation, and driver calls do not fail.
- Devices without the optional driver functions, and a driver that refuses `set_output`.
- Measurement timestamps: a run receives an optional fresh voltage and current reading.
- Waiting for a fresh sample in the runtime: `ControllerImpl.Controller.CalSample` takes the readings it would find, and no other command interleaves with the wait.
- `vc_runtime_auto_load`: its effect is that of the load and configuration commands it issues.
- Storage backends whose single functions are missing, and erasing that fails half-way: a backend is present or not, and each call works or changes nothing.
- The devicetree configuration of a channel: an arbitrary in-range value per board, and a later initialisation gives the same one again.
- Kconfig values outside their stated ranges; the default operating mode is assumed not to be calibration.
- ChannelImpl.Channel.LoadCal: requires exponents in [-9, 4], because with others the code indexes outside its table of powers; the controller only loads records that satisfy it.
- ChannelGains.GainExactly: for exponents in [-9, 9], those the table of powers covers.
- ChannelGains.DriveCodeExactly: for exponents in [-9, 4], which every reachable calibration has; likewise ChannelGains.VoltageReadingExactly, ChannelGains.CurrentReadingExactly and ChannelGains.DeviceCodeExactly.
- ChannelFields.FieldAgreesWithConfig: for writes that change a consistent configuration; a write of the present value is refused without the capability, while the whole configuration is accepted.
- ChannelRamp.RampClosedForm: assumes the accumulated plus elapsed milliseconds stay below 2^32, where `ramp_accum_ms` would wrap, and supported ramp steps.
- ChannelRamp.GracefulDisableCompletes: the same two assumptions.
- ChannelSafety.SafetyOnEveryRun: assumes supported ramp steps, because the claim is false without them.
- ControllerChannels.ControllerRateLimit: for runs without a restart; `ControllerHistory.RateLimitAcrossRestarts` covers the runs whose restarts find the last retry outside the window, and for the others the claim is false (`ControllerRestartRun.RestartDefeatsLimit`).
- ChannelRecoveryRamp.RecoveryClosedForm: the assumptions of ChannelRamp.RampClosedForm.
- ChannelRecoveryRamp.RecoveryArrives: assumes supported ramp steps; with others the ramp may leave the range.
- ChannelRecoveryRamp.RecoveryRampsExactly: the same assumption, for reaching the target.
- ChannelRecoveryRamp.RetryRampsExactly: the same assumption, for reaching the target; `ChannelRecoveryRamp.RetryStaysAtZero` does without it.
- ChannelRamp.CodesNeverDecrease: for one upward ramp with its target and calibration fixed.
- Message texts, TOML files, register address decoding and the message log.
- The `channelAliases` of a board: no topology rule touches them.
- The controller mutex: commands and ticks are atomic steps of the runtime.
- `vc_runtime_submit_command` called without the catalog, and several concurrent callers of create: one creator and one destroyer at a time.
- The steps of `vc_runtime_create_static` between claiming and opening are grouped; the clears of counter, semaphore and queue are one move.
- Adapter builds without CONFIG_SETTINGS or CONFIG_MODBUS, and the part of a parameter action that is delegated to the voltage controller.
- Self-calibration scripts, user interfaces, shells and the Modbus and settings libraries.
