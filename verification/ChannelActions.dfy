/**
  How a channel is switched on and off: by a trip, by the host, by a reported
  fault and by calibration, and what can drive it again afterwards
  (lib/voltage_control/vc_channel.c:252-344, 685-776, 803-809, 912-1011).
 */
module ChannelActions {
  import opened CInt
  import opened VcTypes
  import opened ChannelSpec
  import opened ChannelSafety
  import opened ChannelGains

  // Configuration, capabilities, retry records and clocks are untouched.
  predicate SameRecord(c: State, c': State) {
    && c'.caps == c.caps && c'.cfg == c.cfg && c'.cal == c.cal
    && c'.retries == c.retries && c'.log == c.log && c'.uptime == c.uptime && c'.now == c.now
  }

  // The ramp accumulator and an unfinished recovery stay as they were.
  predicate SameProgress(d: Drive, d': Drive) {
    d'.rampAccum == d.rampAccum && d'.recovering == d.recovering && d'.recoveryTarget == d.recoveryTarget
  }

  // Off for good: not ramping, target zero; the device is at zero, or at the
  // raw code of a calibration session.
  predicate Off(c: State) {
    && !c.drive.outputEnabled && !c.drive.ramping && c.drive.opTarget == 0
    && c.dev.dacCode == (if c.session.calOutput then c.session.rawDac else 0)
  }

  // On its way to zero.
  predicate RampsToZero(c: State, voltage: int16) {
    && c.drive.outputEnabled && c.drive.ramping && c.drive.rampToDisable
    && c.drive.opTarget == voltage && c.drive.gracefulDest == 0
    && c.dev.hvEnable
  }

  // ---- Over-current ----

  // The stored reading is above the limit.
  predicate Over(c: State) {
    c.meas.measuredI > c.cfg.currentLimit
  }

  /**
    A reading latches an over-current fault if and only if none is active, no
    ramp runs, the protection may act, and the stored value is above the limit.
    With any other protection mode but DISABLED it is noted in the history.
   */
  lemma TripsExactly(c: State, raw: int32)
    ensures var c' := ConsumeCurrent(c, raw);
            var watched := c.fault.active == {} && !c.drive.ramping;
            var trips := watched && c.cfg.protectionMode == PROTECTION_APPLY_OUTPUT_ACTION && Over(c');
            && c'.fault.active == (if trips then {Current} else c.fault.active)
            && c'.fault.history == c.fault.history +
                 (if watched && c.cfg.protectionMode != PROTECTION_DISABLED && Over(c') then {Current} else {})
            && c'.fault.lastFaultAt == (if trips then c.uptime else c.fault.lastFaultAt)
            && c'.fault.lastProtection == (if trips then c.cfg.protectionAction else c.fault.lastProtection)
            && c'.session == c.session && SameRecord(c, c')
            && (trips ==> c'.drive.smf == FaultLatched)
            && (!trips ==> c'.drive == c.drive && c'.dev == c.dev)
  {
    hide HwCode, HwEnable, Gain;
  }

  // The reading trips a channel that must switch off at once.
  predicate TripsOff(c: State, raw: int32) {
    && c.fault.active == {} && Current in ConsumeCurrent(c, raw).fault.active
    && (!c.caps.rawDrive || c.cfg.protectionAction == ACTION_DISABLE_IMMEDIATE ||
        c.cfg.protectionAction == ACTION_DISABLE_FORCE)
  }

  /**
    A trip without raw drive, or with the immediate or the forced action,
    switches off; only the immediate one leaves the pin on.
   */
  lemma TripSwitchesOff(c: State, raw: int32)
    requires TripsOff(c, raw)
    ensures var c' := ConsumeCurrent(c, raw);
            && Off(c') && !c'.drive.rampToDisable && SameProgress(c.drive, c'.drive)
            && (c'.dev.hvEnable <==>
                  c.session.calOutput || (c.caps.rawDrive && c.cfg.protectionAction == ACTION_DISABLE_IMMEDIATE))
  {
    hide Gain;
  }

  // With raw drive the graceful action ramps down from the present voltage,
  // even an output that was off, and none leaves the output as it is.
  lemma TripRampsDown(c: State, raw: int32)
    requires c.fault.active == {} && Current in ConsumeCurrent(c, raw).fault.active && c.caps.rawDrive
    ensures var c' := ConsumeCurrent(c, raw);
            && (c.cfg.protectionAction == ACTION_DISABLE_GRACEFUL ==> RampsToZero(c', c.drive.opTarget))
            && (c.cfg.protectionAction == ACTION_NONE ==> c'.drive == c.drive.(smf := FaultLatched))
            && HwCode(c') == c'.dev.dacCode && SameProgress(c.drive, c'.drive)
  {
    hide Gain, RawDrive;
  }

  // With the default configuration a channel neither trips nor retries, and
  // wants no voltage.
  lemma DefaultIsPassive(c: State, raw: int32, mode: uint16, dt: uint32)
    requires c.cfg == DefaultConfig()
    ensures ConsumeCurrent(c, raw).fault == c.fault && TickRecovery(c, mode, dt) == c
    ensures c.cfg.target == 0 && c.cfg.retryMax == 0 && ConfigInRange(c.cfg)
  {
    hide HwCode, HwEnable, Gain;
  }

  // ---- The host ----

  predicate Disable(action: uint16) {
    action == ACTION_DISABLE_GRACEFUL || action == ACTION_DISABLE_IMMEDIATE || action == ACTION_DISABLE_FORCE
  }

  /**
    Which actions are accepted: any disable where the output can be switched,
    an enable without active fault, and the empty action. Whatever is refused
    leaves the channel and its device alone.
   */
  lemma ActionAcceptedExactly(c: State, action: uint16)
    ensures var (c', st) := OutputAction(c, action);
            && (st == Ok <==> action == ACTION_NONE || (Disable(action) && c.caps.outputEnable) ||
                              (action == ACTION_ENABLE && c.fault.active == {}))
            && (st == UnsupportedCapability <==> Disable(action) && !c.caps.outputEnable)
            && (st == UnsafeState <==> action == ACTION_ENABLE && c.fault.active != {})
            && (st == InvalidCommand <==> action > ACTION_DISABLE_FORCE)
            && (st != Ok || action == ACTION_NONE ==> c' == c)
            && SameRecord(c, c') && c'.fault == c.fault && c'.meas == c.meas && c'.session == c.session
  {
    hide HwCode, HwEnable;
  }

  // Every accepted disable switches off at once, except the graceful one of a
  // channel with raw drive.
  lemma DisableSwitchesOff(c: State, action: uint16)
    requires Disable(action) && c.caps.outputEnable
    requires c.caps.rawDrive ==> action != ACTION_DISABLE_GRACEFUL
    ensures var (c', st) := OutputAction(c, action);
            && st == Ok && Off(c') && !c'.drive.rampToDisable && SameProgress(c.drive, c'.drive)
            && (c'.dev.hvEnable <==>
                  c.session.calOutput || (c.caps.rawDrive && action == ACTION_DISABLE_IMMEDIATE))
  {
  }

  lemma DisableRampsDown(c: State)
    requires c.caps.outputEnable && c.caps.rawDrive
    ensures var (c', st) := OutputAction(c, ACTION_DISABLE_GRACEFUL);
            && st == Ok && RampsToZero(c', c.drive.opTarget) && c'.drive.cooldown == 0 && HwInv(c')
            && SameProgress(c.drive, c'.drive)
  {
    hide RawDrive;
  }

  /**
    An accepted enable starts a ramp from the present voltage; nothing of a
    disable is left, and the device is driven with the code of that voltage.
   */
  lemma EnableSwitchesOn(c: State)
    requires c.fault.active == {}
    ensures var (c', st) := OutputAction(c, ACTION_ENABLE);
            && st == Ok && c'.drive.outputEnabled && c'.drive.ramping && !c'.drive.rampToDisable
            && c'.drive.opTarget == c.drive.opTarget && c'.dev.hvEnable && HwInv(c')
            && SameProgress(c.drive, c'.drive)
  {
    hide RawDrive;
  }

  /**
    A graceful disable of an output that is off switches it on: until the next
    ramp tick, which switches it off, the device is driven with the code of
    voltage zero, the saturated offset of its calibration.
   */
  lemma GracefulWhileOff(c: State, dt: uint32)
    requires c.caps.outputEnable && c.caps.rawDrive && CalibrationOk(c.cal)
    requires Off(c) && !c.session.calOutput
    ensures var c1 := OutputAction(c, ACTION_DISABLE_GRACEFUL).0;
            && c1.drive.outputEnabled && c1.dev.hvEnable
            && Saturates(c.cal.outputB, c1.dev.dacCode, 0, UINT16_MAX)
            && Off(TickRamp(c1, dt)) && TickRamp(c1, dt).dev == Device(0, false)
  {
    hide RawDrive;
    ScaledZero(c.cal);
    DriveCodeExactly(c.cal, 0, 0);
  }

  lemma ScaledZero(cal: Calibration)
    requires CalibrationOk(cal)
    ensures Scaled(0, 0 * cal.outputK, cal.outputKExp)
  {
    assert 0 * cal.outputK == 0;
  }

  // ---- Reported faults ----

  // A fault that the hardware reports ends everything at once, a calibration
  // session included.
  lemma ReportedFaultSwitchesOff(c: State, cause: Faults)
    ensures var c' := ConsumeFault(c, cause);
            && Off(c') && !c'.dev.hvEnable && c'.session == CalSession(0, false) && c'.dev.dacCode == 0
            && !c'.drive.recovering && c'.drive.cooldown == 0
            && c'.drive.rampToDisable == c.drive.rampToDisable
            && cause <= c'.fault.active && cause <= c'.fault.history
            && c'.fault.active - cause == c.fault.active - cause
            && c'.fault.history - cause == c.fault.history - cause
            && c'.meas == c.meas && SameRecord(c, c')
  {
  }

  // ---- Clearing ----

  /**
    The safe band in whole numbers: the division by hundred drops the fraction
    towards zero, so a band above 100 % rounds the (negative) bound up.
   */
  lemma SafeExactly(c: State)
    requires Current in c.fault.active
    ensures var scaled := c.cfg.currentLimit * (100 - c.cfg.safeBandPct);
            SafeToClear(c) <==>
            if scaled >= 0 then c.meas.measuredI * 100 <= scaled else c.meas.measuredI * 100 < scaled + 100
  {
    TruncDivExact(c.cfg.currentLimit * (100 - c.cfg.safeBandPct), 100);
  }

  /**
    Clearing forgets the active causes if and only if the reading is back in the
    safe band, or no cause was the current; it never touches the device or the
    history. Clearing the history changes nothing else.
   */
  lemma ClearExactly(c: State, cmd: uint16)
    ensures var (c', st) := FaultCommand(c, cmd);
            && (st == InvalidCommand <==> cmd > FAULT_COMMAND_CLEAR_HISTORY)
            && (st == UnsafeState <==>
                  cmd == FAULT_COMMAND_CLEAR_ACTIVE && Current in c.fault.active && !SafeToClear(c))
            && (st == InvalidCommand || st == UnsafeState || st == Ok)
            && (st != Ok ==> c' == c)
            && (st == Ok && cmd == FAULT_COMMAND_CLEAR_ACTIVE ==> c'.fault.active == {})
            && (cmd != FAULT_COMMAND_CLEAR_ACTIVE ==> c'.fault.active == c.fault.active && c'.drive == c.drive)
            && c'.fault.history == (if cmd == FAULT_COMMAND_CLEAR_HISTORY then {} else c.fault.history)
            && c'.drive == c.drive.(smf := c'.drive.smf) && c'.dev == c.dev
            && c'.session == c.session && c'.meas == c.meas && SameRecord(c, c')
  {
    hide SafeLimit;
  }

  // ---- Calibration ----

  // Entering or leaving a session leaves a silent device and no readings.
  lemma SessionEdgeSwitchesOff(c: State, entering: bool)
    ensures var c' := ResetCalibration(c, entering);
            && Off(c') && c'.dev == Device(0, false) && c'.session == CalSession(0, false)
            && c'.meas == Readings(0, 0, 0, 0) && c'.fault == c.fault && SameRecord(c, c')
            && (c'.drive.smf == CalibrationOutput <==> entering)
            && c'.drive.rampAccum == 0 && c'.drive.cooldown == 0
            && c'.drive.rampToDisable == c.drive.rampToDisable && c'.drive.recovering == c.drive.recovering
  {
  }

  /**
    A raw code other than zero reaches the device if and only if the channel
    has raw drive, the code is within the limit, no hardware or interlock fault
    is active and the calibration output is on; zero needs only the first.
   */
  lemma RawCodeExactly(c: State, code: uint32)
    ensures var (c', st) := CalSetRawDac(c, code);
            && (st == Ok <==> c.caps.rawDrive && code <= CAL_MAX_RAW_DAC &&
                              (code == 0 || (c.session.calOutput && !HardFault(c.fault.active))))
            && (st != Ok ==> c' == c)
            && (st == Ok ==> c'.session == CalSession(code, c.session.calOutput) && HwInv(c'))
            && (st == Ok && c.session.calOutput ==> c'.dev == Device(code, true))
            && c'.drive == c.drive && c'.meas == c.meas && c'.fault == c.fault && SameRecord(c, c')
  {
    hide RawDrive;
  }

  lemma CalibrationOutputExactly(c: State, enable: bool)
    ensures var (c', st) := CalSetOutputEnable(c, enable);
            && (st == Ok <==> c.caps.rawDrive && !(enable && HardFault(c.fault.active)))
            && (st != Ok ==> c' == c)
            && (st == Ok && enable ==>
                  c'.session == CalSession(c.session.rawDac, true) && c'.meas == c.meas &&
                  c'.dev == Device(c.session.rawDac, true))
            && (st == Ok && !enable ==>
                  c'.session == CalSession(0, false) && c'.meas == c.meas.(rawAdcV := 0, rawAdcI := 0) && HwInv(c'))
            && c'.drive == c.drive && c'.fault == c.fault && SameRecord(c, c')
  {
    hide RawDrive;
  }

  // A sample latches what the channel measures and nothing else.
  lemma SampleExactly(c: State, v: int32, i: int32)
    ensures var (c', st) := CalSample(c, v, i);
            && (st == Ok <==> c.caps.voltage || c.caps.current)
            && c' == c.(meas := c'.meas)
            && c'.meas == c.meas.(rawAdcV := if c.caps.voltage then v else c.meas.rawAdcV,
                                  rawAdcI := if c.caps.current then i else c.meas.rawAdcI)
  {
  }

  lemma CommitExactly(c: State)
    ensures CalCommit(c) == Ok <==>
            c.session == CalSession(0, false) && Hardware !in c.fault.active && Interlock !in c.fault.active
  {
  }

  // ---- What can drive a latched channel again ----

  // The four requests that can: a graceful disable (which passes through the
  // ramp), automatic recovery, clearing, and the calibration output.
  predicate CanDrive(e: Event) {
    || e == Action(ACTION_DISABLE_GRACEFUL)
    || (e.RecoveryTick? && e.mode == MODE_AUTOMATIC)
    || e == FaultCmd(FAULT_COMMAND_CLEAR_ACTIVE)
    || e == CalEnable(true)
  }

  predicate LatchedOff(c: State) {
    Off(c) && c.fault.active != {} && c.session == CalSession(0, false)
  }

  lemma LatchedOffStep(c: State, e: Event)
    requires LatchedOff(c) && !CanDrive(e)
    ensures LatchedOff(Step(c, e))
  {
    hide RawDrive, Gain, SetField, CountActiveRetries;
    match e {
      case Field(field, value) => FieldKeepsOff(c, field, value);
      case _ =>
    }
  }

  lemma FieldKeepsOff(c: State, field: ConfigField, value: uint16)
    requires LatchedOff(c)
    ensures LatchedOff(SetField(c, field, value).0)
  {
    hide RawDrive, FieldStatus, WithField;
  }

  /**
    After a fault that switched the channel off: whatever the host writes,
    configures, loads or commands, whatever is measured and however time
    passes, the device stays at code zero until one of those four.
   */
  lemma {:induction false} LatchedStaysOff(c: State, es: seq<Event>)
    requires LatchedOff(c) && forall e | e in es :: !CanDrive(e)
    ensures LatchedOff(Exec(c, es)) && Exec(c, es).dev.dacCode == 0
  {
    hide Step, CanDrive;
    if es != [] {
      var last := |es| - 1;
      assert es[last] in es;
      LatchedStaysOff(c, es[..last]);
      LatchedOffStep(Exec(c, es[..last]), es[last]);
    }
  }

  // In particular after a trip, or a reported fault.
  lemma TripStaysOff(c: State, raw: int32, es: seq<Event>)
    requires TripsOff(c, raw) && c.session == CalSession(0, false)
    requires forall e | e in es :: !CanDrive(e)
    ensures Exec(ConsumeCurrent(c, raw), es).dev.dacCode == 0
  {
    hide Exec, ConsumeCurrent, CanDrive;
    TripSwitchesOff(c, raw);
    TripsExactly(c, raw);
    LatchedStaysOff(ConsumeCurrent(c, raw), es);
  }

  lemma ReportedFaultStaysOff(c: State, cause: Faults, es: seq<Event>)
    requires cause != {} && forall e | e in es :: !CanDrive(e)
    ensures Exec(ConsumeFault(c, cause), es).dev.dacCode == 0
  {
    hide Exec, CanDrive;
    ReportedFaultSwitchesOff(c, cause);
    assert exists f :: f in cause;
    LatchedStaysOff(ConsumeFault(c, cause), es);
  }
}
