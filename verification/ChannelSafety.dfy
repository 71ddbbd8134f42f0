/**
  What every reachable channel state satisfies, whatever the order of ticks,
  measurements, faults and host commands.
 */
module ChannelSafety {
  import opened CInt
  import opened VcTypes
  import opened ChannelSpec
  import opened Wrappers

  // ---- Which ramp steps the int16_t arithmetic supports ----

  predicate UpStepSafe(step: uint16) {
    step <= 32768 - MAX_TARGET
  }

  predicate DownStepSafe(step: uint16) {
    step <= 32769
  }

  ghost predicate StepsTowards(step: uint16, up: bool) {
    forall c: int16, t: int16 | 0 <= c <= MAX_TARGET && 0 <= t <= MAX_TARGET && (if up then c < t else t < c) ::
      var next := RampStep(c, t, step);
      if up then c <= next <= t else t <= next <= c
  }

  // An upward step stays between the voltage and its target for all voltages
  // exactly when it cannot overflow just below the highest target.
  lemma UpStepExact(step: uint16)
    ensures StepsTowards(step, true) <==> UpStepSafe(step)
  {
    if !UpStepSafe(step) {
      var c: int16 := if step <= 32767 then MAX_TARGET - 1 else 0;
      var next := RampStep(c, c + 1, step);
      assert next < c;
      assert !StepsTowards(step, true);
    }
  }

  // Downward, the cast also tolerates 32768 and 32769, which wrap below zero.
  lemma DownStepExact(step: uint16)
    ensures StepsTowards(step, false) <==> DownStepSafe(step)
  {
    if !DownStepSafe(step) {
      var one: int16, zero: int16 := 1, 0;
      var next := RampStep(one, zero, step);
      assert next > 1;
      assert !StepsTowards(step, false);
    }
  }

  predicate StepsSafe(cfg: Config) {
    UpStepSafe(cfg.rampUpStep) && DownStepSafe(cfg.rampDownStep)
  }

  // ---- The safety invariant ----

  predicate SafetyInv(c: State) {
    var d := c.drive;
    && 0 <= d.opTarget <= MAX_TARGET
    && 0 <= d.recoveryTarget <= MAX_TARGET
    && d.gracefulDest == 0
    && (!d.outputEnabled ==> d.opTarget == 0 && !d.ramping)
    && (d.smf == EnabledHolding ==> d.outputEnabled && c.fault.active == {})
    && (d.smf == Ramping ==> d.outputEnabled && d.ramping)
    && (d.smf == DisabledHvOn ==> !d.outputEnabled)
    && (d.rampToDisable && !d.ramping ==> d.opTarget == 0)
    && ConfigInRange(c.cfg)
    && StepsSafe(c.cfg)
  }

  // Host writes that keep both ramp steps supported.
  predicate Admissible(e: Event) {
    && (e.Configure? ==> StepsSafe(e.cfg))
    && (e.Field? && e.field == RampUpStep ==> UpStepSafe(e.value))
    && (e.Field? && e.field == RampDownStep ==> DownStepSafe(e.value))
  }

  lemma RampStepStaysBetween(c: int16, t: int16, step: uint16)
    requires 0 <= c <= MAX_TARGET && 0 <= t <= MAX_TARGET
    requires c < t ==> UpStepSafe(step)
    requires c > t ==> DownStepSafe(step)
    ensures c < t ==> c <= RampStep(c, t, step) <= t
    ensures c > t ==> t <= RampStep(c, t, step) <= c
  {
  }

  lemma {:induction false} RampStepsStayBetween(accum: uint32, c: int16, t: int16, step: uint16, intervalMs: uint32)
    requires intervalMs > 0 && 0 <= c <= MAX_TARGET && 0 <= t <= MAX_TARGET
    requires c < t ==> UpStepSafe(step)
    requires c > t ==> DownStepSafe(step)
    ensures var v := RampSteps(accum, c, t, step, intervalMs).1;
            if c <= t then c <= v <= t else t <= v <= c
    decreases accum
  {
    hide RampStep;
    if accum >= intervalMs && c != t {
      RampStepStaysBetween(c, t, step);
      RampStepsStayBetween(accum - intervalMs, RampStep(c, t, step), t, step, intervalMs);
    }
  }

  lemma TickRampKeepsSafety(c: State, dt: uint32)
    requires SafetyInv(c)
    ensures SafetyInv(TickRamp(c, dt))
    ensures TickRamp(c, dt).drive.opTarget > c.drive.opTarget ==> c.drive.outputEnabled && c.fault.active == {}
  {
    if !RampGated(c) && c.drive.opTarget != RampTarget(c) && StepFor(c) != 0 && IntervalFor(c) != 0 {
      RampStepsStayBetween(ToUint32(c.drive.rampAccum + dt), c.drive.opTarget, RampTarget(c),
                           StepFor(c), IntervalFor(c) * 1000);
    }
  }

  lemma RetryTargetInRange(c: State)
    requires SafetyInv(c) && RetryAllowed(c)
    ensures 0 <= RetryTarget(c.cfg, CountActiveRetries(c)) <= MAX_TARGET
  {
    var k := CountActiveRetries(c);
    assert (k + 1) * c.cfg.derateStep >= 0 by {
      MulMonotone(0, c.cfg.derateStep, k + 1);
    }
  }

  lemma TickRecoveryKeepsSafety(c: State, mode: uint16, dt: uint32)
    requires SafetyInv(c)
    ensures SafetyInv(TickRecovery(c, mode, dt))
    ensures TickRecovery(c, mode, dt).drive.opTarget == c.drive.opTarget
  {
    hide HwCode, HwEnable, CountActiveRetries;
    if RecoveryActive(c, mode) {
      var cool := if c.drive.smf == RetryCooldown then c.drive.cooldown else c.cfg.retryDelay * 1000;
      var c2 := c.(drive := c.drive.(cooldown := 0, smf := RetryCooldown));
      if cool <= dt && SafeToClear(c2) && RetryAllowed(c2) {
        RetryTargetInRange(c2);
      }
    }
  }

  lemma ConsumeCurrentKeepsSafety(c: State, raw: int32)
    requires SafetyInv(c)
    ensures SafetyInv(ConsumeCurrent(c, raw))
    ensures ConsumeCurrent(c, raw).drive.opTarget <= c.drive.opTarget
  {
  }

  // What a configuration write leaves alone.
  lemma FieldWrite(c: State, field: ConfigField, value: uint16)
    ensures var c' := SetField(c, field, value).0;
            && c'.drive == c.drive && c'.fault == c.fault && c'.caps == c.caps
            && c'.cfg == (if FieldStatus(c.caps, field, value) == Ok then WithField(c.cfg, field, value) else c.cfg)
  {
  }

  lemma FieldKeepsSafety(c: State, field: ConfigField, value: uint16)
    requires SafetyInv(c) && Admissible(Field(field, value))
    ensures SafetyInv(SetField(c, field, value).0)
  {
    FieldWrite(c, field, value);
    match field { case _ => }
  }

  lemma ActionKeepsSafety(c: State, action: uint16)
    requires SafetyInv(c)
    ensures SafetyInv(OutputAction(c, action).0)
    ensures OutputAction(c, action).0.drive.opTarget <= c.drive.opTarget
  {
  }

  lemma CalibrationKeepsSafety(c: State, e: Event)
    requires SafetyInv(c)
    requires e.Reset? || e.CalEnable? || e.CalDac? || e.Sample? || e.CalWrite? || e.CalLoad?
    ensures SafetyInv(Step(c, e))
    ensures Step(c, e).drive.opTarget <= c.drive.opTarget
  {
    match e {
      case Reset(_) =>
      case CalEnable(_) => assert Step(c, e).drive == c.drive;
      case CalDac(_) => assert Step(c, e).drive == c.drive;
      case Sample(_, _) => assert Step(c, e).drive == c.drive;
      case CalWrite(_, _) => assert Step(c, e).drive == c.drive;
      case CalLoad(_) => assert Step(c, e).drive == c.drive;
    }
  }

  /**
    One step keeps the invariant, and raises the operational target only in a
    ramp tick that starts with the output on and no active fault.
   */
  lemma StepKeepsSafety(c: State, e: Event)
    requires SafetyInv(c) && Admissible(e)
    ensures SafetyInv(Step(c, e))
    ensures Step(c, e).drive.opTarget > c.drive.opTarget ==>
              e.RampTick? && c.drive.outputEnabled && c.fault.active == {}
  {
    match e {
      case RampTick(dt) => TickRampKeepsSafety(c, dt);
      case RecoveryTick(mode, dt) => TickRecoveryKeepsSafety(c, mode, dt);
      case ReadCurrent(raw) => ConsumeCurrentKeepsSafety(c, raw);
      case Elapse(_) =>
      case ReadVoltage(_) =>
      case External(_) =>
      case Action(action) => ActionKeepsSafety(c, action);
      case FaultCmd(_) =>
      case Field(field, value) => FieldKeepsSafety(c, field, value); FieldWrite(c, field, value);
      case Configure(_) =>
      case _ => CalibrationKeepsSafety(c, e);
    }
  }

  // Every state of every run from power-on.
  lemma {:induction false} SafetyOnEveryRun(c: State, es: seq<Event>)
    requires SafetyInv(c)
    requires forall e | e in es :: Admissible(e)
    ensures SafetyInv(Exec(c, es))
  {
    if es != [] {
      var last := |es| - 1;
      SafetyOnEveryRun(c, es[..last]);
      StepKeepsSafety(Exec(c, es[..last]), es[last]);
    }
  }

  lemma InitIsSafe(caps: Caps, cfg: Config, cal: Calibration)
    requires ConfigInRange(cfg) && StepsSafe(cfg)
    ensures SafetyInv(Init(caps, cfg, cal))
  {
  }

  lemma ExecAppend(c: State, es: seq<Event>, e: Event)
    ensures Exec(c, es + [e]) == Step(Exec(c, es), e)
  {
    assert (es + [e])[..|es|] == es;
  }

  lemma {:induction false} ExecConcat(c: State, es: seq<Event>, more: seq<Event>)
    ensures Exec(c, es + more) == Exec(Exec(c, es), more)
    decreases |more|
  {
    hide Step;
    if more == [] {
      assert es + more == es;
    } else {
      var last := |more| - 1;
      assert (es + more)[..|es| + last] == es + more[..last];
      ExecConcat(c, es, more[..last]);
    }
  }

  lemma OnlyWritesConfigure(c: State, e: Event)
    requires !e.Field? && !e.Configure?
    ensures Step(c, e).cfg == c.cfg && Step(c, e).caps == c.caps
  {
    hide HwCode, HwEnable, Gain;
  }

  // The events that make up one `vc_channel_run`.
  function MicroSteps(dt: uint32, v: Option<int32>, i: Option<int32>, mode: uint16): seq<Event> {
    [Elapse(dt)] +
    (if v.Some? then [ReadVoltage(v.value)] else []) +
    (if i.Some? then [ReadCurrent(i.value)] else []) +
    [RampTick(dt)] + [RecoveryTick(mode, dt)]
  }

  lemma RunIsMicroSteps(c: State, dt: uint32, v: Option<int32>, i: Option<int32>, mode: uint16)
    ensures Exec(c, MicroSteps(dt, v, i, mode)) == Run(c, dt, v, i, mode)
  {
    hide TickRamp, TickRecovery, ConsumeVoltage, ConsumeCurrent, Advance;
    var c1 := Advance(c, dt);
    var c2 := Consume(c1, v, None);
    var c3 := Consume(c1, v, i);
    var es1: seq<Event> := [Elapse(dt)];
    var es2 := es1 + if v.Some? then [ReadVoltage(v.value)] else [];
    var es3 := es2 + if i.Some? then [ReadCurrent(i.value)] else [];
    ExecAppend(c, [], Elapse(dt));
    assert [] + es1 == es1;
    assert Exec(c, es1) == c1;
    assert Exec(c, es2) == c2 by {
      if v.Some? {
        ExecAppend(c, es1, ReadVoltage(v.value));
      } else {
        assert es2 == es1;
      }
    }
    assert Exec(c, es3) == c3 by {
      if i.Some? {
        ExecAppend(c, es2, ReadCurrent(i.value));
      } else {
        assert es3 == es2;
      }
    }
    ExecAppend(c, es3, RampTick(dt));
    ExecAppend(c, es3 + [RampTick(dt)], RecoveryTick(mode, dt));
  }

  // ---- The step bound is needed ----

  // Reaching `start` at once with a zero step, then switching to `step`.
  function JumpThenRamp(step: uint16, start: uint16): seq<Event>
    requires start < MAX_TARGET
  {
    [Field(RampUpStep, 0), Field(ConfiguredTarget, start), Action(ACTION_ENABLE), RampTick(0),
     Field(RampUpStep, step), Field(ConfiguredTarget, start + 1), RampTick(1000)]
  }

  lemma ExecSeven(c: State, es: seq<Event>)
    requires |es| == 7
    ensures Exec(c, es) ==
            Step(Step(Step(Step(Step(Step(Step(c, es[0]), es[1]), es[2]), es[3]), es[4]), es[5]), es[6])
  {
    hide Step;
    assert es[..6][..5] == es[..5] && es[..5][..4] == es[..4] && es[..4][..3] == es[..3];
    assert es[..3][..2] == es[..2] && es[..2][..1] == es[..1] && es[..1][..0] == [];
    var c1 := Exec(c, es[..1]);
    assert Exec(c, es[..1][..0]) == c;
    assert c1 == Step(c, es[0]);
    var c2, c3 := Exec(c, es[..2]), Exec(c, es[..3]);
    assert c2 == Step(c1, es[1]) && c3 == Step(c2, es[2]);
    var c4, c5 := Exec(c, es[..4]), Exec(c, es[..5]);
    assert c4 == Step(c3, es[3]) && c5 == Step(c4, es[4]);
    assert Exec(c, es[..6]) == Step(c5, es[5]);
  }

  lemma TwoWrites(c: State, v: uint16, start: uint16)
    requires c.caps.rawDrive && start <= MAX_TARGET
    ensures var c' := Step(Step(c, Field(RampUpStep, v)), Field(ConfiguredTarget, start));
            && c'.drive == c.drive && c'.fault == c.fault && c'.caps == c.caps
            && c'.cfg == c.cfg.(rampUpStep := v, target := start)
  {
    FieldWrite(c, RampUpStep, v);
    FieldWrite(SetField(c, RampUpStep, v).0, ConfiguredTarget, start);
  }

  lemma EnableThenJump(c: State)
    requires c.fault.active == {} && c.cfg.rampUpStep == 0 && c.cfg.target >= 0
    requires c.drive == Drive(false, false, false, 0, 0, 0, false, 0, 0, DisabledSafe)
    ensures var c' := TickRamp(OutputAction(c, ACTION_ENABLE).0, 0);
            && c'.drive == c.drive.(outputEnabled := true, opTarget := c.cfg.target, smf := EnabledHolding)
            && c'.fault == c.fault && c'.caps == c.caps && c'.cfg == c.cfg
  {
    var c1 := OutputAction(c, ACTION_ENABLE).0;
    assert c1.drive == c.drive.(outputEnabled := true, ramping := true, smf := Ramping);
  }

  /**
    For every upward step above the bound there is a run from power-on, made of
    accepted host writes and ticks, that leaves [0, MAX_TARGET].
   */
  lemma UnsafeUpStepEscapes(step: uint16, cal: Calibration) returns (start: uint16)
    requires !UpStepSafe(step)
    ensures start < MAX_TARGET
    ensures var c := Init(Caps(true, true, true, true), DefaultConfig(), cal);
            !(0 <= Exec(c, JumpThenRamp(step, start)).drive.opTarget <= MAX_TARGET)
  {
    var c := Init(Caps(true, true, true, true), DefaultConfig(), cal);
    start := if step <= 32767 then MAX_TARGET - 1 else 0;
    var es := JumpThenRamp(step, start);
    assert es == [Field(RampUpStep, 0), Field(ConfiguredTarget, start), Action(ACTION_ENABLE), RampTick(0),
                  Field(RampUpStep, step), Field(ConfiguredTarget, start + 1), RampTick(1000)];
    hide Step, Exec, SetField;
    ExecSeven(c, es);
    var c4 := Jumped(c, start);
    JumpedState(c, start);
    TwoWrites(c4, step, start + 1);
    var c6 := Step(Step(c4, Field(RampUpStep, step)), Field(ConfiguredTarget, start + 1));
    WrappingTick(c6, step);
    TickIsStep(c6);
  }

  lemma WrappingTick(c: State, step: uint16)
    requires !UpStepSafe(step) && c.cfg.rampUpStep == step && c.cfg.rampUpInterval == 1
    requires c.drive.outputEnabled && c.fault.active == {} && c.drive.rampAccum == 0
    requires !c.drive.rampToDisable && !c.drive.recovering && c.cfg.target == c.drive.opTarget + 1
    requires c.drive.opTarget == if step <= 32767 then MAX_TARGET - 1 else 0
    ensures !(0 <= TickRamp(c, 1000).drive.opTarget <= MAX_TARGET)
  {
    var wrapped := RampStep(c.drive.opTarget, c.cfg.target, step);
    assert wrapped < 0;
    assert RampSteps(1000, c.drive.opTarget, c.cfg.target, step, 1000) ==
           RampSteps(0, wrapped, c.cfg.target, step, 1000) == (0, wrapped);
  }

  // Reaching `start` at once with a zero step, then a graceful disable with `step`.
  function JumpThenDisable(step: uint16, start: uint16): seq<Event>
    requires start <= MAX_TARGET
  {
    [Field(RampUpStep, 0), Field(ConfiguredTarget, start), Action(ACTION_ENABLE), RampTick(0),
     Field(RampDownStep, step), Action(ACTION_DISABLE_GRACEFUL), RampTick(1000)]
  }

  /**
    For every downward step above the bound there is a run from power-on, made
    of accepted host writes and ticks, in which a graceful disable raises the
    voltage; it leaves [0, MAX_TARGET] unless that is all of int16_t.
   */
  lemma UnsafeDownStepRises(step: uint16, cal: Calibration) returns (start: uint16)
    requires !DownStepSafe(step)
    ensures 0 < start <= MAX_TARGET
    ensures var c := Init(Caps(true, true, true, true), DefaultConfig(), cal);
            var v := Exec(c, JumpThenDisable(step, start)).drive.opTarget;
            v > start && (MAX_TARGET < INT16_MAX ==> v > MAX_TARGET)
  {
    var c := Init(Caps(true, true, true, true), DefaultConfig(), cal);
    var rise := 0x1_0000 - step;
    start := if MAX_TARGET == INT16_MAX || MAX_TARGET <= rise then 1 else MAX_TARGET - rise + 1;
    var es := JumpThenDisable(step, start);
    assert es == [Field(RampUpStep, 0), Field(ConfiguredTarget, start), Action(ACTION_ENABLE), RampTick(0),
                  Field(RampDownStep, step), Action(ACTION_DISABLE_GRACEFUL), RampTick(1000)];
    hide Step, Exec, SetField;
    ExecSeven(c, es);
    var c4 := Jumped(c, start);
    JumpedState(c, start);
    DisableAfterJump(c4, step);
    RisingTick(Step(Step(c4, Field(RampDownStep, step)), Action(ACTION_DISABLE_GRACEFUL)), step);
    TickIsStep(Step(Step(c4, Field(RampDownStep, step)), Action(ACTION_DISABLE_GRACEFUL)));
  }

  lemma TickIsStep(c: State)
    ensures Step(c, RampTick(1000)) == TickRamp(c, 1000)
  {
  }

  // Enabled at `start` by a zero step.
  function Jumped(c: State, start: uint16): State {
    Step(Step(Step(Step(c, Field(RampUpStep, 0)), Field(ConfiguredTarget, start)), Action(ACTION_ENABLE)), RampTick(0))
  }

  lemma JumpedState(c: State, start: uint16)
    requires start <= MAX_TARGET && c.caps.rawDrive && c.fault.active == {}
    requires c.drive == Drive(false, false, false, 0, 0, 0, false, 0, 0, DisabledSafe)
    ensures var c' := Jumped(c, start);
            && c'.drive == c.drive.(outputEnabled := true, opTarget := start, smf := EnabledHolding)
            && c'.fault == c.fault && c'.caps == c.caps
            && c'.cfg == c.cfg.(rampUpStep := 0, target := start)
  {
    TwoWrites(c, 0, start);
    EnableThenJump(Step(Step(c, Field(RampUpStep, 0)), Field(ConfiguredTarget, start)));
  }

  lemma DisableAfterJump(c: State, step: uint16)
    requires c.caps.rawDrive && c.caps.outputEnable
    ensures var c' := Step(Step(c, Field(RampDownStep, step)), Action(ACTION_DISABLE_GRACEFUL));
            && c'.cfg == c.cfg.(rampDownStep := step)
            && c'.drive == StartGraceful(c.drive).(cooldown := 0)
  {
    FieldWrite(c, RampDownStep, step);
  }

  lemma RisingTick(c: State, step: uint16)
    requires !DownStepSafe(step) && c.cfg.rampDownStep == step && c.cfg.rampDownInterval == 1
    requires c.drive.outputEnabled && c.drive.rampToDisable && c.drive.gracefulDest == 0 && c.drive.rampAccum == 0
    requires 0 < c.drive.opTarget <= INT16_MAX - (0x1_0000 - step)
    ensures TickRamp(c, 1000).drive.opTarget == c.drive.opTarget + (0x1_0000 - step)
  {
    var risen := RampStep(c.drive.opTarget, 0, step);
    assert risen == c.drive.opTarget + (0x1_0000 - step);
    assert RampSteps(1000, c.drive.opTarget, 0, step, 1000) == RampSteps(0, risen, 0, step, 1000) == (0, risen);
  }

  // ---- What needs no bound on the ramp steps ----

  // The configuration is in range, and a disable that has stopped ramping is
  // at zero.
  predicate RangeInv(c: State) {
    && c.drive.gracefulDest == 0
    && (c.drive.rampToDisable && !c.drive.ramping ==> c.drive.opTarget == 0)
    && ConfigInRange(c.cfg)
  }

  lemma FieldKeepsRange(c: State, field: ConfigField, value: uint16)
    requires RangeInv(c)
    ensures RangeInv(SetField(c, field, value).0)
  {
    FieldWrite(c, field, value);
    match field { case _ => }
  }

  lemma RampTickKeepsRange(c: State, dt: uint32)
    requires RangeInv(c)
    ensures RangeInv(TickRamp(c, dt))
  {
    hide HwCode, HwEnable, RampSteps;
  }

  lemma RecoveryKeepsRange(c: State, mode: uint16, dt: uint32)
    requires RangeInv(c)
    ensures RangeInv(TickRecovery(c, mode, dt))
  {
    hide HwCode, HwEnable, CountActiveRetries;
  }

  // Every step keeps it, whatever the ramp steps.
  lemma StepKeepsRange(c: State, e: Event)
    requires RangeInv(c)
    ensures RangeInv(Step(c, e))
  {
    hide HwCode, HwEnable, Gain, SetField, TickRamp, TickRecovery;
    match e {
      case Field(field, value) => FieldKeepsRange(c, field, value);
      case RampTick(dt) => RampTickKeepsRange(c, dt);
      case RecoveryTick(mode, dt) => RecoveryKeepsRange(c, mode, dt);
      case _ =>
    }
  }

  lemma {:induction false} RangeOnEveryRun(c: State, es: seq<Event>)
    requires RangeInv(c)
    ensures RangeInv(Exec(c, es))
  {
    hide Step, RangeInv;
    if es != [] {
      var last := |es| - 1;
      RangeOnEveryRun(c, es[..last]);
      StepKeepsRange(Exec(c, es[..last]), es[last]);
    }
  }

  lemma InitInRange(caps: Caps, cfg: Config, cal: Calibration)
    requires ConfigInRange(cfg)
    ensures RangeInv(Init(caps, cfg, cal))
  {
  }

  // ---- Hardware coherence ----

  /**
    The DAC register holds the code that the channel's state determines, and
    the enable pin is on whenever the state asks for it.
   */
  predicate HwInv(c: State) {
    c.dev.dacCode == HwCode(c) && (HwEnable(c) ==> c.dev.hvEnable)
  }

  // So with calibration and output off the code is zero.
  lemma IdleCodeIsZero(c: State)
    requires HwInv(c) && !c.session.calOutput && !c.drive.outputEnabled
    ensures c.dev.dacCode == 0
  {
  }

  lemma StepKeepsHw(c: State, e: Event)
    requires HwInv(c)
    ensures HwInv(Step(c, e))
  {
    hide RawDrive, Gain, SetField, TickRamp, TickRecovery;
    match e {
      case Field(field, value) => FieldKeepsHw(c, field, value);
      case RampTick(dt) => TickRampKeepsHw(c, dt);
      case RecoveryTick(mode, dt) => TickRecoveryKeepsHw(c, mode, dt);
      case _ =>
    }
  }

  lemma TickRampKeepsHw(c: State, dt: uint32)
    requires HwInv(c)
    ensures HwInv(TickRamp(c, dt))
  {
    hide RawDrive, RampSteps;
  }

  lemma TickRecoveryKeepsHw(c: State, mode: uint16, dt: uint32)
    requires HwInv(c)
    ensures HwInv(TickRecovery(c, mode, dt))
  {
    hide RawDrive, CountActiveRetries;
  }

  lemma FieldKeepsHw(c: State, field: ConfigField, value: uint16)
    requires HwInv(c)
    ensures HwInv(SetField(c, field, value).0)
  {
    hide RawDrive, Gain;
    match field { case _ => }
  }

  lemma {:induction false} CoherentOnEveryRun(c: State, es: seq<Event>)
    requires HwInv(c)
    ensures HwInv(Exec(c, es))
  {
    if es != [] {
      var last := |es| - 1;
      CoherentOnEveryRun(c, es[..last]);
      StepKeepsHw(Exec(c, es[..last]), es[last]);
    }
  }
}
