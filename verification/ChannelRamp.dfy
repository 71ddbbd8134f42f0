/**
  Timing of the voltage ramp (lib/voltage_control/vc_channel.c:811-908): a
  closed form that does not depend on how the elapsed time is cut into ticks,
  completion of a graceful disable, and the codes written on the way up.
 */
module ChannelRamp {
  import opened CInt
  import opened VcTypes
  import opened ChannelSpec
  import opened ChannelSafety
  import ChannelGains

  // `start` moved by `distance` towards `target`, never past it.
  function Toward(start: int, target: int, distance: int): int {
    if start <= target
    then if start + distance < target then start + distance else target
    else if start - distance > target then start - distance else target
  }

  lemma TowardAdds(start: int, target: int, a: nat, b: nat)
    ensures Toward(Toward(start, target, a), target, b) == Toward(start, target, a + b)
  {
  }

  // ---- One tick ----

  lemma StepIsToward(c: int16, t: int16, step: uint16)
    requires 0 <= c <= MAX_TARGET && 0 <= t <= MAX_TARGET && c != t
    requires if c < t then UpStepSafe(step) else DownStepSafe(step)
    ensures RampStep(c, t, step) == Toward(c, t, step)
  {
    hide ToInt16;
    if step <= INT16_MAX {
      CastKeeps(step);
      CastKeeps(if c < t then c + step else c - step);
    } else {
      CastWraps(step);
      CastWraps(c - ToInt16(step));
    }
  }

  lemma CastKeeps(x: int)
    requires -0x8000 <= x <= 0x7FFF
    ensures ToInt16(x) == x
  {
  }

  lemma CastWraps(x: int)
    requires 0x8000 <= x <= 0xFFFF
    ensures ToInt16(x) == x - 0x1_0000
  {
  }

  lemma DivShift(a: int, d: int, n: int)
    requires d > 0
    ensures (a + n * d) / d == a / d + n
  {
    var q := a / d;
    assert d * q <= a < d * q + d;
    assert d * (q + n) == d * q + n * d;
    QuotientIs(a + n * d, d, q + n);
  }

  lemma WholeIntervals(accum: nat, intervalMs: int)
    requires intervalMs > 0
    ensures 0 <= accum / intervalMs
    ensures accum < intervalMs ==> accum / intervalMs == 0
    ensures accum >= intervalMs ==> accum / intervalMs == (accum - intervalMs) / intervalMs + 1
  {
    DivNonNegative(accum, intervalMs);
    if accum < intervalMs {
      QuotientIs(accum, intervalMs, 0);
    } else {
      DivShift(accum - intervalMs, intervalMs, 1);
    }
  }

  /**
    The loop of one tick makes as many whole steps as the accumulator holds
    intervals; unless the target is reached, what is left is the remainder.
   */
  lemma {:induction false} RampStepsClosed(accum: uint32, c: int16, t: int16, step: uint16, intervalMs: uint32, k: int)
    requires intervalMs > 0 && 0 <= c <= MAX_TARGET && 0 <= t <= MAX_TARGET
    requires c < t ==> UpStepSafe(step)
    requires c > t ==> DownStepSafe(step)
    requires k == accum / intervalMs
    ensures 0 <= k * step
    ensures RampSteps(accum, c, t, step, intervalMs).1 == Toward(c, t, k * step)
    ensures RampSteps(accum, c, t, step, intervalMs).1 != t ==>
              RampSteps(accum, c, t, step, intervalMs).0 == accum - k * intervalMs
    decreases accum
  {
    hide RampStep;
    WholeIntervals(accum, intervalMs);
    MulMonotone(0, k, step);
    if c != t && accum >= intervalMs {
      var next := RampStep(c, t, step);
      StepIsToward(c, t, step);
      assert t <= next <= c || c <= next <= t;
      RampStepsClosed(accum - intervalMs, next, t, step, intervalMs, k - 1);
      ProductsShift(k, step, intervalMs);
      TowardAdds(c, t, step, (k - 1) * step);
    }
  }

  lemma ProductsShift(k: int, step: int, intervalMs: int)
    ensures k * step == (k - 1) * step + step && k * intervalMs == (k - 1) * intervalMs + intervalMs
  {
  }

  // ---- Any number of ticks ----

  function Ramps(c: State, dts: seq<uint32>): State
    decreases |dts|
  {
    if dts == [] then c else Ramps(TickRamp(c, dts[0]), dts[1..])
  }

  function Total(dts: seq<uint32>): nat {
    if dts == [] then 0 else dts[0] + Total(dts[1..])
  }

  // Where the voltage is after `elapsed` ms of ramping.
  function RampAfter(c: State, elapsed: nat): int {
    var step, intervalMs := StepFor(c), IntervalFor(c) * 1000;
    if step == 0 || intervalMs == 0 then RampTarget(c)
    else Toward(c.drive.opTarget, RampTarget(c), (c.drive.rampAccum + elapsed) / intervalMs * step)
  }

  // An ungated ramp whose target will not change on arrival.
  predicate RampReady(c: State) {
    && SafetyInv(c)
    && !RampGated(c)
    && (c.drive.rampToDisable || !c.drive.recovering)
  }

  predicate SameRamp(c0: State, c: State) {
    RampTarget(c) == RampTarget(c0) && StepFor(c) == StepFor(c0) && IntervalFor(c) == IntervalFor(c0)
  }

  // The ramp of `c0`, further on but not at its target.
  predicate Underway(c0: State, c: State) {
    && RampReady(c)
    && c.drive.opTarget != RampTarget(c)
    && SameRamp(c0, c)
    && c.cal == c0.cal && c.session == c0.session
  }

  // Nothing left to do: ramp ticks no longer move the voltage.
  predicate AtRest(c: State) {
    RampGated(c) || (RampReady(c) && c.drive.opTarget == RampTarget(c))
  }

  // What the whole intervals of `dt` leave in the accumulator.
  predicate LeftOver(c: State, c': State, dt: uint32)
    requires IntervalFor(c) > 0
  {
    var intervalMs := IntervalFor(c) * 1000;
    var accum := c.drive.rampAccum + dt;
    c'.drive.rampAccum == accum - accum / intervalMs * intervalMs
  }

  // The loop of one tick in closed form.
  lemma LoopOutcome(c: State, dt: uint32)
    requires SafetyInv(c) && c.drive.rampAccum + dt < TWO_32
    requires StepFor(c) > 0 && IntervalFor(c) > 0
    ensures var intervalMs := IntervalFor(c) * 1000;
            var accum := c.drive.rampAccum + dt;
            var (rest, v) := RampSteps(accum, c.drive.opTarget, RampTarget(c), StepFor(c), intervalMs);
            && v == RampAfter(c, dt)
            && (v != RampTarget(c) ==> rest == accum - accum / intervalMs * intervalMs <= accum)
  {
    hide RampSteps;
    var accum := c.drive.rampAccum + dt;
    var intervalMs := IntervalFor(c) * 1000;
    RampStepsClosed(accum, c.drive.opTarget, RampTarget(c), StepFor(c), intervalMs, accum / intervalMs);
    DivNonNegative(accum, intervalMs);
    MulMonotone(0, accum / intervalMs, intervalMs);
  }

  // A ramp that has not arrived is on the side it started from.
  lemma SameSide(c: State, elapsed: nat)
    ensures c.drive.opTarget < RampTarget(c) != RampAfter(c, elapsed) ==> RampAfter(c, elapsed) < RampTarget(c)
    ensures c.drive.opTarget > RampTarget(c) != RampAfter(c, elapsed) ==> RampAfter(c, elapsed) > RampTarget(c)
  {
    hide RampTarget;
  }

  // The drive after one tick towards another voltage.
  lemma MoveOutcome(c: State, dt: uint32)
    requires SafetyInv(c) && c.drive.rampAccum + dt < TWO_32
    ensures var d := RampMove(c, dt);
            && d.opTarget == RampAfter(c, dt)
            && (d.opTarget == RampTarget(c) ==>
                  d == Arrive(c.drive.(opTarget := RampTarget(c), rampAccum := d.rampAccum)))
            && (d.opTarget != RampTarget(c) ==>
                  && StepFor(c) > 0 && IntervalFor(c) > 0
                  && d == c.drive.(ramping := true, rampAccum := d.rampAccum, opTarget := d.opTarget)
                  && d.rampAccum <= c.drive.rampAccum + dt
                  && LeftOver(c, c.(drive := d), dt))
  {
    hide RampSteps, Toward, SafetyInv;
    if StepFor(c) > 0 && IntervalFor(c) > 0 {
      LoopOutcome(c, dt);
    }
  }

  lemma AlreadyThere(c: State, dt: nat)
    requires SafetyInv(c) && c.drive.opTarget == RampTarget(c)
    ensures RampAfter(c, dt) == RampTarget(c)
  {
    hide RampTarget;
    if StepFor(c) > 0 && IntervalFor(c) > 0 {
      var intervalMs := IntervalFor(c) * 1000;
      DivNonNegative(c.drive.rampAccum + dt, intervalMs);
      MulMonotone(0, (c.drive.rampAccum + dt) / intervalMs, StepFor(c));
    }
  }

  lemma OneTick(c: State, dt: uint32)
    requires RampReady(c) && c.drive.rampAccum + dt < TWO_32
    ensures var c' := TickRamp(c, dt);
            && c'.drive.opTarget == RampAfter(c, dt)
            && SafetyInv(c')
            && (c'.drive.opTarget == RampTarget(c) ==> AtRest(c'))
            && (c'.drive.opTarget != RampTarget(c) ==>
                  && RampReady(c') && Underway(c, c') && StepFor(c) > 0 && IntervalFor(c) > 0
                  && c'.drive.rampAccum <= c.drive.rampAccum + dt
                  && LeftOver(c, c', dt))
  {
    hide HwCode, HwEnable, RampMove, RampAfter;
    TickRampKeepsSafety(c, dt);
    MoveOutcome(c, dt);
    SameSide(c, dt);
    if c.drive.opTarget == RampTarget(c) {
      AlreadyThere(c, dt);
    }
  }

  lemma RestStays(c: State, dts: seq<uint32>)
    requires SafetyInv(c) && AtRest(c)
    ensures Ramps(c, dts).drive.opTarget == c.drive.opTarget
    decreases |dts|
  {
    if dts != [] {
      TickRampKeepsSafety(c, dts[0]);
      RestStays(TickRamp(c, dts[0]), dts[1..]);
    }
  }

  lemma TimeSplits(accum: int, dt: int, rest: int, intervalMs: int, step: int, left: int)
    requires intervalMs > 0
    requires left == accum + dt - (accum + dt) / intervalMs * intervalMs
    ensures (accum + dt) / intervalMs * step + (left + rest) / intervalMs * step
            == (accum + (dt + rest)) / intervalMs * step
  {
    var n := (accum + dt) / intervalMs;
    DivShift(left + rest, intervalMs, n);
    var m := (left + rest) / intervalMs;
    assert accum + (dt + rest) == left + rest + n * intervalMs;
    assert (n + m) * step == n * step + m * step;
  }

  /**
    Closed form of a ramp. After any non-empty split of the elapsed time into
    ticks, the target voltage is the start moved towards the target by the
    whole intervals that elapsed times the step, never overshooting.
   */
  lemma {:induction false} RampClosedForm(c: State, dts: seq<uint32>)
    requires RampReady(c) && dts != []
    requires c.drive.rampAccum + Total(dts) < TWO_32
    ensures Ramps(c, dts).drive.opTarget == RampAfter(c, Total(dts))
    decreases |dts|
  {
    hide RampAfter, SameRamp, LeftOver, TickRamp, RampReady, AtRest, SafetyInv, StepFor, IntervalFor;
    var dt, rest := dts[0], dts[1..];
    var c1 := TickRamp(c, dt);
    OneTick(c, dt);
    if rest == [] {
      assert Total(dts) == dt;
    } else if c1.drive.opTarget == RampTarget(c) {
      RestStays(c1, rest);
      ArrivedEarlier(c, dt, Total(rest));
    } else {
      assert RampTarget(c1) == RampTarget(c) by { SameTarget(c, c1); }
      RampClosedForm(c1, rest);
      Compose(c, c1, dt, Total(rest));
    }
  }

  lemma SameTarget(c0: State, c: State)
    requires SameRamp(c0, c)
    ensures RampTarget(c) == RampTarget(c0)
  {
  }

  lemma Compose(c: State, c1: State, dt: uint32, rest: nat)
    requires SameRamp(c, c1) && StepFor(c) > 0 && IntervalFor(c) > 0
    requires c1.drive.opTarget == RampAfter(c, dt) != RampTarget(c)
    requires LeftOver(c, c1, dt)
    ensures RampAfter(c1, rest) == RampAfter(c, dt + rest)
  {
    var step, intervalMs := StepFor(c), IntervalFor(c) * 1000;
    var a := (c.drive.rampAccum + dt) / intervalMs;
    var b := (c1.drive.rampAccum + rest) / intervalMs;
    TimeSplits(c.drive.rampAccum, dt, rest, intervalMs, step, c1.drive.rampAccum);
    DivNonNegative(c.drive.rampAccum + dt, intervalMs);
    DivNonNegative(c1.drive.rampAccum + rest, intervalMs);
    MulMonotone(0, a, step);
    MulMonotone(0, b, step);
    TowardAdds(c.drive.opTarget, RampTarget(c), a * step, b * step);
  }

  lemma ArrivedEarlier(c: State, dt: nat, rest: nat)
    requires RampAfter(c, dt) == RampTarget(c)
    ensures RampAfter(c, dt + rest) == RampTarget(c)
  {
    var step, intervalMs := StepFor(c), IntervalFor(c) * 1000;
    if step > 0 && intervalMs > 0 {
      var a, b := (c.drive.rampAccum + dt) / intervalMs, (c.drive.rampAccum + (dt + rest)) / intervalMs;
      DivMonotone(c.drive.rampAccum + dt, c.drive.rampAccum + (dt + rest), intervalMs);
      MulMonotone(a, b, step);
      assert a * step == step * a && b * step == step * b;
    }
  }

  // The voltage after whole steps of `step` each `interval` seconds, from
  // `start` towards `target`; a zero step or interval jumps.
  function Stepped(start: int, target: int, step: nat, interval: nat, elapsed: nat): int {
    if step == 0 || interval == 0 then target
    else
      var moved := elapsed / (interval * 1000) * step;
      if start <= target then if start + moved <= target then start + moved else target
      else if start - moved >= target then start - moved else target
  }

  /**
    The closed form read off the configuration: upwards with the two up fields,
    downwards with the two down fields, and to zero for a disable, else to the
    recovery target while recovering, else to the configured target.
   */
  lemma RampReadsConfig(c: State, elapsed: nat)
    requires SafetyInv(c)
    ensures var target: int := if c.drive.rampToDisable then 0
                               else if c.drive.recovering then c.drive.recoveryTarget
                               else c.cfg.target;
            var start, time := c.drive.opTarget, c.drive.rampAccum + elapsed;
            && (start < target ==>
                  RampAfter(c, elapsed) == Stepped(start, target, c.cfg.rampUpStep, c.cfg.rampUpInterval, time))
            && (start > target ==>
                  RampAfter(c, elapsed) == Stepped(start, target, c.cfg.rampDownStep, c.cfg.rampDownInterval, time))
            && (start == target ==> RampAfter(c, elapsed) == target)
  {
    if c.drive.opTarget == RampTarget(c) {
      AlreadyThere(c, elapsed);
    }
  }

  /**
    What ends a ramp: a disable switches the output and its pin off, any other
    arrival is held, and a recovery is over with it.
   */
  lemma ArrivalExactly(c: State, dt: uint32)
    requires SafetyInv(c) && !RampGated(c) && c.drive.rampAccum + dt < TWO_32
    requires c.drive.opTarget != RampTarget(c) == TickRamp(c, dt).drive.opTarget
    ensures var c' := TickRamp(c, dt);
            if c.drive.rampToDisable
            then && !c'.drive.outputEnabled && !c'.drive.ramping && !c'.drive.rampToDisable
                 && c'.drive.opTarget == 0 && c'.drive.smf == DisabledSafe
                 && (!c.session.calOutput ==> c'.dev == Device(0, false))
            else && c'.drive.outputEnabled && !c'.drive.ramping && !c'.drive.recovering
                 && c'.drive.smf == EnabledHolding && HwInv(c') && c'.dev.hvEnable
  {
    hide RampMove, RampAfter, RawDrive;
    MoveOutcome(c, dt);
  }

  // An output that is off, or under a fault that no disable follows, is not ramped.
  lemma RampWaits(c: State, dt: uint32)
    ensures !c.drive.outputEnabled || (c.fault.active != {} && !c.drive.rampToDisable) ==> TickRamp(c, dt) == c
  {
  }

  // Two splits of the same time end at the same voltage.
  lemma GranularityIrrelevant(c: State, dts1: seq<uint32>, dts2: seq<uint32>)
    requires RampReady(c) && dts1 != [] && dts2 != [] && Total(dts1) == Total(dts2)
    requires c.drive.rampAccum + Total(dts1) < TWO_32
    ensures Ramps(c, dts1).drive.opTarget == Ramps(c, dts2).drive.opTarget
  {
    RampClosedForm(c, dts1);
    RampClosedForm(c, dts2);
  }

  // ---- The codes written during one upward ramp ----

  // A plain ramp or a recovery ramp (whose target is at most the configured one).
  predicate UpRamp(c: State) {
    && SafetyInv(c) && HwInv(c)
    && !RampGated(c) && !c.drive.rampToDisable
    && c.drive.opTarget <= RampTarget(c) <= c.cfg.target
  }

  lemma {:induction false} CodesNeverDecrease(c: State, dts: seq<uint32>)
    requires UpRamp(c)
    ensures UpRamp(Ramps(c, dts))
    ensures c.dev.dacCode <= Ramps(c, dts).dev.dacCode
    decreases |dts|
  {
    if dts != [] {
      var c1 := TickRamp(c, dts[0]);
      UpTick(c, dts[0]);
      CodesNeverDecrease(c1, dts[1..]);
    }
  }

  lemma UpTick(c: State, dt: uint32)
    requires UpRamp(c)
    ensures UpRamp(TickRamp(c, dt))
    ensures c.dev.dacCode <= TickRamp(c, dt).dev.dacCode
  {
    hide RawDrive, RampSteps;
    var c1 := TickRamp(c, dt);
    TickRampKeepsSafety(c, dt);
    StepKeepsHw(c, RampTick(dt));
    if c.drive.opTarget != RampTarget(c) && StepFor(c) != 0 && IntervalFor(c) != 0 {
      RampStepsStayBetween(ToUint32(c.drive.rampAccum + dt), c.drive.opTarget, RampTarget(c),
                           StepFor(c), IntervalFor(c) * 1000);
    }
    ChannelGains.RawDriveMonotone(c.cal, c.drive.opTarget, c1.drive.opTarget);
  }

  // ---- A graceful disable completes ----

  // What happens without the host: time, readings, and the two ticks.
  predicate Autonomous(e: Event) {
    e.Elapse? || e.ReadVoltage? || e.ReadCurrent? || e.RampTick? || e.RecoveryTick?
  }

  predicate Disabling(c: State) {
    SafetyInv(c) && c.drive.outputEnabled && c.drive.ramping && c.drive.rampToDisable
  }

  lemma HostStartsDisable(c: State)
    requires SafetyInv(c) && c.caps.rawDrive && c.caps.outputEnable
    ensures OutputAction(c, ACTION_DISABLE_GRACEFUL).1 == Ok
    ensures Disabling(OutputAction(c, ACTION_DISABLE_GRACEFUL).0)
  {
  }

  lemma TripStartsDisable(c: State, raw: int32)
    requires SafetyInv(c) && c.caps.rawDrive
    requires c.cfg.protectionMode == PROTECTION_APPLY_OUTPUT_ACTION
    requires c.cfg.protectionAction == ACTION_DISABLE_GRACEFUL
    ensures var c' := ConsumeCurrent(c, raw);
            c'.fault.active != c.fault.active ==> Disabling(c') && Current in c'.fault.active
  {
  }

  function RampTimes(es: seq<Event>): seq<uint32> {
    if es == [] then []
    else
      var last := |es| - 1;
      RampTimes(es[..last]) + if es[last].RampTick? then [es[last].dt] else []
  }

  predicate IsOff(c: State) {
    !c.drive.outputEnabled && c.drive.opTarget == 0
  }

  ghost predicate ReachesOff(c: State, es: seq<Event>) {
    exists n :: 0 <= n <= |es| && IsOff(Exec(c, es[..n]))
  }

  lemma RampsAppend(c: State, dts: seq<uint32>, dt: uint32)
    ensures Ramps(c, dts + [dt]) == TickRamp(Ramps(c, dts), dt)
    decreases |dts|
  {
    if dts != [] {
      assert (dts + [dt])[0] == dts[0] && (dts + [dt])[1..] == dts[1..] + [dt];
      RampsAppend(TickRamp(c, dts[0]), dts[1..], dt);
    } else {
      assert [] + [dt] == [dt] && [dt][1..] == [];
      assert Ramps(TickRamp(c, dt), []) == TickRamp(c, dt);
    }
  }

  // While the disable ramp runs, nothing but ramp ticks touches the drive.
  lemma OnlyTicksMove(c: State, e: Event)
    requires Disabling(c) && Autonomous(e) && !e.RampTick?
    ensures Step(c, e).drive == c.drive && Step(c, e).cfg == c.cfg
  {
  }

  lemma TickDependsOnDrive(a: State, b: State, dt: uint32)
    requires a.drive == b.drive && a.cfg == b.cfg && a.drive.rampToDisable
    ensures TickRamp(a, dt).drive == TickRamp(b, dt).drive && TickRamp(a, dt).cfg == a.cfg == TickRamp(b, dt).cfg
  {
    hide HwCode, HwEnable, RampSteps;
  }

  // One tick of a disable ramp either goes on or ends with the output off.
  lemma DisableTick(c: State, dt: uint32)
    requires Disabling(c)
    ensures var c' := TickRamp(c, dt);
            if c'.drive.opTarget == 0 then !c'.drive.outputEnabled else Disabling(c')
  {
    hide HwCode, HwEnable, RampSteps;
    TickRampKeepsSafety(c, dt);
  }

  lemma OffStays(c: State, dts: seq<uint32>)
    requires !c.drive.outputEnabled
    ensures Ramps(c, dts) == c
    decreases |dts|
  {
    if dts != [] {
      OffStays(TickRamp(c, dts[0]), dts[1..]);
    }
  }

  lemma {:induction false} DisableRamps(c: State, dts: seq<uint32>)
    requires Disabling(c) && dts != []
    ensures var c' := Ramps(c, dts);
            if c'.drive.outputEnabled then Disabling(c') && c'.drive.opTarget != 0
            else c'.drive.opTarget == 0
    decreases |dts|
  {
    hide TickRamp;
    var c1 := TickRamp(c, dts[0]);
    DisableTick(c, dts[0]);
    TickRampKeepsSafety(c, dts[0]);
    if !c1.drive.outputEnabled {
      OffStays(c1, dts[1..]);
    } else if |dts| > 1 {
      DisableRamps(c1, dts[1..]);
    }
  }

  // The run and the bare sequence of its ramp ticks agree until the output is off.
  lemma {:induction false} RunFollowsTicks(c: State, es: seq<Event>)
    requires Disabling(c)
    requires forall e | e in es :: Autonomous(e)
    ensures ReachesOff(c, es) <==> !Ramps(c, RampTimes(es)).drive.outputEnabled
    ensures !ReachesOff(c, es) ==>
              var a, b := Exec(c, es), Ramps(c, RampTimes(es));
              Disabling(a) && a.drive == b.drive && a.cfg == b.cfg && SafetyInv(b)
    decreases |es|
  {
    hide Step, TickRamp, SafetyInv, Autonomous, ReachesOff;
    if es == [] {
      StillOn(c);
    } else {
      var last := |es| - 1;
      var before, e := es[..last], es[last];
      var dts := RampTimes(before);
      RunFollowsTicks(c, before);
      ReachedLast(c, es);
      if e.RampTick? {
        RampsAppend(c, dts, e.dt);
      } else {
        assert RampTimes(es) == dts + [] == dts;
      }
      if ReachesOff(c, before) {
        OffStaysOneTick(Ramps(c, dts), if e.RampTick? then e.dt else 0);
      } else {
        NextEvent(c, Exec(c, before), Ramps(c, dts), e);
      }
    }
  }

  lemma StillOn(c: State)
    requires Disabling(c)
    ensures c.drive.outputEnabled && SafetyInv(c) && !ReachesOff(c, [])
  {
    hide SafetyInv;
    var none: seq<Event> := [];
    assert forall n | 0 <= n <= |none| :: none[..n] == none;
  }

  lemma OffStaysOneTick(c: State, dt: uint32)
    requires !c.drive.outputEnabled
    ensures TickRamp(c, dt) == c
  {
  }

  // A run reaches the off state before its last event or with it.
  lemma ReachedLast(c: State, es: seq<Event>)
    requires es != []
    ensures ReachesOff(c, es) <==> ReachesOff(c, es[..|es| - 1]) || IsOff(Exec(c, es))
  {
    hide Exec, IsOff;
    var before := es[..|es| - 1];
    assert es[..|es|] == es;
    assert forall n | 0 <= n < |es| :: es[..n] == before[..n];
  }

  lemma NextEvent(c: State, a: State, b: State, e: Event)
    requires Disabling(a) && Autonomous(e) && a.drive == b.drive && a.cfg == b.cfg && SafetyInv(b)
    ensures var a' := Step(a, e);
            var b' := if e.RampTick? then TickRamp(b, e.dt) else b;
            && a'.drive == b'.drive && a'.cfg == b'.cfg && SafetyInv(b')
            && (if a'.drive.outputEnabled then Disabling(a') else IsOff(a'))
  {
    if e.RampTick? {
      TickDependsOnDrive(a, b, e.dt);
      DisableTick(a, e.dt);
      TickRampKeepsSafety(b, e.dt);
    } else {
      OnlyTicksMove(a, e);
      StepKeepsSafety(a, e);
    }
  }

  /**
    A graceful disable, host-issued or from protection and even with an active
    fault: whatever readings and recovery ticks come in between, the output has
    been off with target zero exactly when at least one ramp tick happened and
    the closed form of the ramp has come down to zero.
   */
  lemma GracefulDisableCompletes(c: State, es: seq<Event>)
    requires Disabling(c)
    requires forall e | e in es :: Autonomous(e)
    requires c.drive.rampAccum + Total(RampTimes(es)) < TWO_32
    ensures ReachesOff(c, es) <==> RampTimes(es) != [] && RampAfter(c, Total(RampTimes(es))) == 0
  {
    hide RampAfter, SafetyInv, TickRamp;
    RunFollowsTicks(c, es);
    var dts := RampTimes(es);
    if dts != [] {
      DisableIsReady(c);
      RampClosedForm(c, dts);
      DisableRamps(c, dts);
    }
  }

  lemma DisableIsReady(c: State)
    requires Disabling(c)
    ensures RampReady(c)
  {
  }

  // The time that always suffices: one interval for each (started) step.
  lemma DisableTime(c: State, elapsed: nat, steps: nat)
    requires Disabling(c) && steps * c.cfg.rampDownStep >= c.drive.opTarget
    requires elapsed >= steps * (c.cfg.rampDownInterval * 1000)
    ensures RampAfter(c, elapsed) == 0
  {
    var step, intervalMs := StepFor(c), IntervalFor(c) * 1000;
    if step > 0 && intervalMs > 0 {
      var k := (c.drive.rampAccum + elapsed) / intervalMs;
      DivShift(0, intervalMs, steps);
      DivMonotone(steps * intervalMs, c.drive.rampAccum + elapsed, intervalMs);
      MulMonotone(steps, k, step);
      assert steps * step == step * steps && k * step == step * k;
    }
  }
}
