/**
  The enable pin, exactly: which steps leave it different from what the state
  asks for (lib/voltage_control/vc_channel.c:113-147, 289-316, 375-438, 750-776).
 */
module ChannelPin {
  import opened CInt
  import opened VcTypes
  import opened ChannelSpec
  import opened ChannelSafety

  predicate PinExact(c: State) {
    c.dev.hvEnable == HwEnable(c)
  }

  // Only the state DISABLED_HV_ON asks for the pin.
  predicate HvOnOnly(c: State) {
    c.drive.smf == DisabledHvOn && !c.drive.outputEnabled && !c.session.calOutput
  }

  // The reading trips the protection of a channel with raw drive.
  predicate Trips(c: State, raw: int32) {
    && c.caps.rawDrive
    && c.fault.active == {} && !c.drive.ramping
    && c.cfg.protectionMode == PROTECTION_APPLY_OUTPUT_ACTION
    && ClampInt16(Gain(raw, c.cal.currentK, c.cal.currentKExp) + c.cal.currentB) > c.cfg.currentLimit
  }

  // The recovery tick gets as far as an admitted retry.
  predicate Retries(c: State, dt: uint32) {
    var cool := if c.drive.smf == RetryCooldown then c.drive.cooldown else c.cfg.retryDelay * 1000;
    cool <= dt && SafeToClear(c) && RetryAllowed(c)
  }

  /**
    The steps that change the state machine without writing the pin: a trip
    with the immediate action (which passes through DISABLED_HV_ON), and three
    ways of leaving DISABLED_HV_ON.
   */
  predicate Stales(c: State, e: Event) {
    match e
    case ReadCurrent(raw) =>
      Trips(c, raw) && !c.session.calOutput &&
      (c.cfg.protectionAction == ACTION_DISABLE_IMMEDIATE ||
       (HvOnOnly(c) && c.cfg.protectionAction != ACTION_DISABLE_GRACEFUL &&
        c.cfg.protectionAction != ACTION_DISABLE_FORCE))
    case FaultCmd(cmd) =>
      cmd == FAULT_COMMAND_CLEAR_ACTIVE && c.fault.active != {} && SafeToClear(c) && HvOnOnly(c)
    case RecoveryTick(mode, dt) =>
      RecoveryActive(c, mode) && HvOnOnly(c) && !Retries(c, dt)
    case _ => false
  }

  lemma ReadingPinExactly(c: State, raw: int32)
    requires PinExact(c)
    ensures PinExact(ConsumeCurrent(c, raw)) <==> !Stales(c, ReadCurrent(raw))
  {
    hide HwCode, Gain;
  }

  lemma RecoveryPinExactly(c: State, mode: uint16, dt: uint32)
    requires PinExact(c)
    ensures PinExact(TickRecovery(c, mode, dt)) <==> !Stales(c, RecoveryTick(mode, dt))
  {
    hide HwCode, CountActiveRetries;
    if RecoveryActive(c, mode) {
      var c1 := if c.drive.smf == RetryCooldown then c
                else c.(drive := c.drive.(cooldown := c.cfg.retryDelay * 1000, smf := RetryCooldown));
      var c2 := c1.(drive := c1.drive.(cooldown := 0));
      SameCount(c, c2);
    }
  }

  lemma SameCount(c: State, c': State)
    requires c'.retries == c.retries && c'.uptime == c.uptime && c'.cfg == c.cfg
    ensures CountActiveRetries(c) == CountActiveRetries(c')
  {
  }

  lemma OtherPinExactly(c: State, e: Event)
    requires PinExact(c) && !e.ReadCurrent? && !e.RecoveryTick?
    ensures PinExact(Step(c, e)) <==> !Stales(c, e)
  {
    hide HwCode, Gain, SetField, TickRamp, SafeToClear;
    match e {
      case Field(field, value) => FieldPin(c, field, value);
      case RampTick(dt) => RampPin(c, dt);
      case _ =>
    }
  }

  lemma FieldPin(c: State, field: ConfigField, value: uint16)
    requires PinExact(c)
    ensures PinExact(SetField(c, field, value).0)
  {
    hide HwCode, FieldStatus, WithField;
  }

  lemma RampPin(c: State, dt: uint32)
    requires PinExact(c)
    ensures PinExact(TickRamp(c, dt))
  {
    hide HwCode, RampMove;
  }

  // After one step the pin is what the state asks for if and only if the step
  // is none of those.
  lemma StepPinExactly(c: State, e: Event)
    requires PinExact(c)
    ensures PinExact(Step(c, e)) <==> !Stales(c, e)
  {
    hide PinExact, Stales, ConsumeCurrent, TickRecovery;
    match e {
      case ReadCurrent(raw) => ReadingPinExactly(c, raw);
      case RecoveryTick(mode, dt) => RecoveryPinExactly(c, mode, dt);
      case _ => OtherPinExactly(c, e);
    }
  }

  ghost predicate AlwaysExact(c: State, es: seq<Event>) {
    forall n :: 0 <= n <= |es| ==> PinExact(Exec(c, es[..n]))
  }

  ghost predicate NeverStales(c: State, es: seq<Event>) {
    forall n :: 0 <= n < |es| ==> !Stales(Exec(c, es[..n]), es[n])
  }

  // One more step of a run.
  lemma ExactNext(c: State, es: seq<Event>)
    requires es != []
    ensures AlwaysExact(c, es) <==> AlwaysExact(c, es[..|es| - 1]) && PinExact(Exec(c, es))
  {
    hide PinExact, Exec;
    var before := es[..|es| - 1];
    assert forall n | 0 <= n <= |before| :: before[..n] == es[..n];
    assert es[..|es|] == es;
  }

  lemma StalesNext(c: State, es: seq<Event>)
    requires es != []
    ensures var last := |es| - 1;
            NeverStales(c, es) <==> NeverStales(c, es[..last]) && !Stales(Exec(c, es[..last]), es[last])
  {
    hide Stales, Exec;
    var before := es[..|es| - 1];
    assert forall n | 0 <= n < |before| :: before[..n] == es[..n] && before[n] == es[n];
  }

  lemma AlwaysExactNow(c: State, es: seq<Event>)
    ensures AlwaysExact(c, es) ==> PinExact(Exec(c, es))
  {
    hide PinExact, Exec;
    assert es[..|es|] == es;
  }

  /**
    Over a run from an exact state: the pin is exact throughout if and only if
    no step of the run is one of those.
   */
  lemma {:induction false} PinExactlyOnEveryRun(c: State, es: seq<Event>)
    requires PinExact(c)
    ensures AlwaysExact(c, es) <==> NeverStales(c, es)
  {
    if es != [] {
      hide PinExact, Stales, Step, AlwaysExact, NeverStales;
      var last := |es| - 1;
      var before := es[..last];
      PinExactlyOnEveryRun(c, before);
      ExactNext(c, es);
      StalesNext(c, es);
      AlwaysExactNow(c, before);
      if PinExact(Exec(c, before)) {
        StepPinExactly(Exec(c, before), es[last]);
      }
    }
  }

  lemma InitPinExact(caps: Caps, cfg: Config, cal: Calibration)
    ensures PinExact(Init(caps, cfg, cal))
  {
  }

  // The trip, in full: the pin stays on, with code zero, although the fault
  // is latched and nothing asks for it.
  lemma StaleEnablePin(c: State, raw: int32)
    requires c.caps.rawDrive && !c.session.calOutput && c.fault.active == {} && !c.drive.ramping
    requires c.cfg.protectionMode == PROTECTION_APPLY_OUTPUT_ACTION
    requires c.cfg.protectionAction == ACTION_DISABLE_IMMEDIATE
    requires ClampInt16(Gain(raw, c.cal.currentK, c.cal.currentKExp) + c.cal.currentB) > c.cfg.currentLimit
    ensures var c' := ConsumeCurrent(c, raw);
            c'.dev.hvEnable && !HwEnable(c') && c'.dev.dacCode == 0 && c'.drive.smf == FaultLatched
  {
  }

  // ---- Accepted writes that leave the pin on ----

  // A measurement fault, an immediate disable, and the fault is cleared.
  const PIN_LEFT_ON: seq<Event> :=
    [External({Measurement}), Action(ACTION_DISABLE_IMMEDIATE), FaultCmd(FAULT_COMMAND_CLEAR_ACTIVE)]

  // Both writes are accepted, and the channel ends in DISABLED_SAFE, without
  // fault, and with its pin on (the code is zero).
  lemma PinLeftOn(caps: Caps, cfg: Config, cal: Calibration)
    requires caps.outputEnable && caps.rawDrive
    ensures var c1 := Exec(Init(caps, cfg, cal), PIN_LEFT_ON[..1]);
            var c2 := Exec(Init(caps, cfg, cal), PIN_LEFT_ON[..2]);
            var c3 := Exec(Init(caps, cfg, cal), PIN_LEFT_ON);
            && OutputAction(c1, ACTION_DISABLE_IMMEDIATE).1 == Ok
            && FaultCommand(c2, FAULT_COMMAND_CLEAR_ACTIVE).1 == Ok
            && c3.drive.smf == DisabledSafe && c3.fault.active == {}
            && c3.dev == Device(0, true) && !HwEnable(c3)
  {
    hide Exec, Step, ConsumeFault, OutputAction, FaultCommand;
    var c := Init(caps, cfg, cal);
    ThreeEvents(c, PIN_LEFT_ON);
    MeasurementFault(c);
    var c1 := ConsumeFault(c, {Measurement});
    ImmediateThenClear(c1);
    StepsOfRun(c, c1, OutputAction(c1, ACTION_DISABLE_IMMEDIATE).0);
  }

  lemma ThreeEvents(c: State, es: seq<Event>)
    requires |es| == 3
    ensures Exec(c, es[..1]) == Step(c, es[0])
    ensures Exec(c, es[..2]) == Step(Step(c, es[0]), es[1])
    ensures Exec(c, es) == Step(Step(Step(c, es[0]), es[1]), es[2])
  {
    hide Step;
    assert es[..1][..0] == [] && es[..2][..1] == es[..1];
    assert Exec(c, es[..1]) == Step(Exec(c, []), es[0]);
    assert Exec(c, es[..2]) == Step(Exec(c, es[..1]), es[1]);
    assert Exec(c, es) == Step(Exec(c, es[..2]), es[2]);
  }

  lemma StepsOfRun(c0: State, c1: State, c2: State)
    ensures Step(c0, PIN_LEFT_ON[0]) == ConsumeFault(c0, {Measurement})
    ensures Step(c1, PIN_LEFT_ON[1]) == OutputAction(c1, ACTION_DISABLE_IMMEDIATE).0
    ensures Step(c2, PIN_LEFT_ON[2]) == FaultCommand(c2, FAULT_COMMAND_CLEAR_ACTIVE).0
  {
    hide ConsumeFault, OutputAction, FaultCommand;
  }

  lemma MeasurementFault(c: State)
    requires c.fault.active == {}
    ensures var c1 := ConsumeFault(c, {Measurement});
            c1.caps == c.caps && c1.fault.active == {Measurement} && !c1.session.calOutput
  {
    hide HwCode, HwEnable;
  }

  lemma ImmediateThenClear(c: State)
    requires c.caps.outputEnable && c.caps.rawDrive && c.fault.active == {Measurement} && !c.session.calOutput
    ensures var (c2, st2) := OutputAction(c, ACTION_DISABLE_IMMEDIATE);
            var (c3, st3) := FaultCommand(c2, FAULT_COMMAND_CLEAR_ACTIVE);
            && st2 == Ok && st3 == Ok
            && c3.drive.smf == DisabledSafe && c3.fault.active == {}
            && c3.dev == Device(0, true) && !HwEnable(c3)
  {
  }
}
