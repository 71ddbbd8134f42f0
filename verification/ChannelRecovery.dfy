/**
  Automatic recovery from a latched current fault (lib/voltage_control/
  vc_channel.c:331-438) with no host command in between: when it is decided and
  how, for any ramp steps, and that giving up is final.
 */
module ChannelRecovery {
  import opened CInt
  import opened VcTypes
  import opened ChannelSpec
  import opened ChannelSafety
  import opened ChannelRamp
  import opened Wrappers

  datatype Tick = Tick(dt: uint32, v: Option<int32>, i: Option<int32>)

  // `vc_channel_run` once per tick, in AUTOMATIC mode.
  function RunAll(c: State, ticks: seq<Tick>): State {
    if ticks == [] then c
    else
      var last := |ticks| - 1;
      Run(RunAll(c, ticks[..last]), ticks[last].dt, ticks[last].v, ticks[last].i, MODE_AUTOMATIC)
  }

  function Elapsed(ticks: seq<Tick>): nat {
    if ticks == [] then 0 else Elapsed(ticks[..|ticks| - 1]) + ticks[|ticks| - 1].dt
  }

  // The latest current reading, converted.
  function CurrentAfter(c: State, ticks: seq<Tick>): int16 {
    if ticks == [] then c.meas.measuredI
    else
      var last := ticks[|ticks| - 1];
      if last.i.Some?
      then ClampInt16(Gain(last.i.value, c.cal.currentK, c.cal.currentKExp) + c.cal.currentB)
      else CurrentAfter(c, ticks[..|ticks| - 1])
  }

  predicate Latched(c: State) {
    && RangeInv(c)
    && c.fault.active == {Current}
    && AutoRetryPolicy(c.cfg)
    && !c.drive.ramping
  }

  // What is left of the cool-down: all of it unless it already started.
  function CoolDown(c: State): nat {
    if c.drive.smf == RetryCooldown then c.drive.cooldown else c.cfg.retryDelay * 1000
  }

  // At the last of these ticks the delay is over and the reading is safe.
  predicate Eligible(c: State, ticks: seq<Tick>) {
    && ticks != []
    && Elapsed(ticks) >= CoolDown(c)
    && CurrentAfter(c, ticks) <= SafeLimit(c.cfg)
  }

  // `c'` is `c` after waiting: only time, readings and the cool-down moved.
  predicate Waited(c: State, c': State, elapsed: nat) {
    && c'.now == c.now + elapsed
    && c'.cfg == c.cfg && c'.cal == c.cal && c'.caps == c.caps
    && c'.fault == c.fault && c'.session == c.session && c'.dev == c.dev
    && c'.retries == c.retries && c'.log == c.log
    && c'.drive == c.drive.(smf := c'.drive.smf, cooldown := c'.drive.cooldown)
  }

  // ---- One tick of a latched channel ----

  // Readings do not re-trip a latched channel, and its ramp is gated or done.
  lemma LatchedUntilRecovery(c: State, t: Tick)
    requires Latched(c)
    ensures var c' := TickRamp(Consume(Advance(c, t.dt), t.v, t.i), t.dt);
            && Latched(c') && Waited(c, c', t.dt) && c'.drive == c.drive
            && c'.uptime == ToUint32(c.uptime + t.dt)
            && c'.meas.measuredI == CurrentAfter(c, [t])
  {
    hide Gain, HwCode, HwEnable;
    assert [t][..0] == [];
    var c1 := Advance(c, t.dt);
    var c2 := Consume(c1, t.v, t.i);
    assert c2.drive == c.drive && c2.fault == c.fault && c2.cfg == c.cfg && c2.cal == c.cal;
    assert TickRamp(c2, t.dt) == c2;
  }

  // Too early or not safe: the tick only counts down.
  lemma TickWaits(c: State, t: Tick)
    requires Latched(c) && (t.dt < CoolDown(c) || CurrentAfter(c, [t]) > SafeLimit(c.cfg))
    ensures var c' := Run(c, t.dt, t.v, t.i, MODE_AUTOMATIC);
            && Latched(c') && Waited(c, c', t.dt)
            && c'.meas.measuredI == CurrentAfter(c, [t])
            && c'.drive.smf == RetryCooldown
            && c'.drive.cooldown == if t.dt < CoolDown(c) then CoolDown(c) - t.dt else 0
  {
    hide TickRamp, Consume, RetryOrExhaust, SafeLimit;
    LatchedUntilRecovery(c, t);
  }

  // Late enough and safe: the tick retries or gives up.
  lemma TickDecides(c: State, t: Tick)
    requires Latched(c) && t.dt >= CoolDown(c) && CurrentAfter(c, [t]) <= SafeLimit(c.cfg)
    ensures var c2 := TickRamp(Consume(Advance(c, t.dt), t.v, t.i), t.dt);
            var c3 := c2.(drive := c2.drive.(smf := RetryCooldown, cooldown := 0));
            && Waited(c, c3, t.dt) && c3.uptime == ToUint32(c.uptime + t.dt)
            && Run(c, t.dt, t.v, t.i, MODE_AUTOMATIC) == RetryOrExhaust(c3)
  {
    hide TickRamp, Consume, RetryOrExhaust, SafeLimit;
    LatchedUntilRecovery(c, t);
  }

  // ---- Waiting ----

  /**
    While no tick so far was eligible: the elapsed time plus the remaining
    cool-down stays equal to the delay until the delay is over, the remaining
    time then stays zero, and nothing else about the channel changes.
   */
  lemma {:induction false} CoolDownAccounting(c: State, ticks: seq<Tick>)
    requires Latched(c) && ticks != []
    requires forall n :: 0 < n <= |ticks| ==> !Eligible(c, ticks[..n])
    ensures var c' := RunAll(c, ticks);
            && Latched(c') && Waited(c, c', Elapsed(ticks))
            && c'.meas.measuredI == CurrentAfter(c, ticks)
            && c'.drive.smf == RetryCooldown
            && (Elapsed(ticks) < CoolDown(c) ==> c'.drive.cooldown + Elapsed(ticks) == CoolDown(c))
            && (Elapsed(ticks) >= CoolDown(c) ==> c'.drive.cooldown == 0)
  {
    hide Run, Latched, SafeLimit, Gain;
    var last := |ticks| - 1;
    var before, t := ticks[..last], ticks[last];
    var c1 := RunAll(c, before);
    assert ticks[..|ticks|] == ticks;
    if before != [] {
      assert forall n | 0 < n <= last :: ticks[..n] == before[..n];
      CoolDownAccounting(c, before);
    }
    assert [t][..0] == [];
    assert CurrentAfter(c1, [t]) == CurrentAfter(c, ticks);
    assert !Eligible(c, ticks);
    TickWaits(c1, t);
  }

  // ---- The decision ----

  /**
    `c'` is what the deciding tick, at uptime `now`, makes of `c`. With the
    retries `k` then counted in the window: it retries when `k` is below the
    limit and a derated target is positive, else it gives up. A derated target
    is the configured one less (k + 1) steps and lies in (0, configured].
   */
  predicate Decided(c: State, c': State, now: nat) {
    var k := CountRecent(c.retries, c'.uptime, c.cfg.retryWindow * 1000);
    var derate := c.cfg.recoveryPolicy == RECOVERY_AUTO_DERATE_RETRY;
    var target := if derate then c.cfg.target - (k + 1) * c.cfg.derateStep else c.cfg.target;
    && c'.drive.opTarget == c.drive.opTarget
    && if k < c.cfg.retryMax && (derate ==> target > 0)
       then
         && c'.log == c.log + [now]
         && c'.fault.active == {} && c'.drive.outputEnabled && c'.drive.recovering
         && c'.drive.recoveryTarget == target <= c.cfg.target && (derate ==> 0 < target)
       else
         && c'.fault.active == {Current, RetryExhaust} && c'.log == c.log
         && c'.drive.outputEnabled == c.drive.outputEnabled
         && c'.drive.smf == FaultLatched
  }

  // The first eligible tick decides.
  lemma FirstEligibleTickDecides(c: State, before: seq<Tick>, t: Tick)
    requires Latched(c) && Eligible(c, before + [t])
    requires forall n :: 0 < n <= |before| ==> !Eligible(c, before[..n])
    ensures var c' := RunAll(c, before + [t]);
            && Decided(c, c', c.now + Elapsed(before + [t]))
            && c'.uptime == ToUint32(RunAll(c, before).uptime + t.dt)
  {
    hide Decided, RetryOrExhaust, Latched, Run, RunAll, Eligible, Elapsed;
    var c3 := DecidingState(c, before, t);
    LatchedIsInRange(c);
    Decision(c3);
    DecidedTransfers(c, c3, RunAll(c, before + [t]), c3.now);
  }

  // The state in which the first eligible tick takes its decision.
  lemma DecidingState(c: State, before: seq<Tick>, t: Tick) returns (c3: State)
    requires Latched(c) && Eligible(c, before + [t])
    requires forall n :: 0 < n <= |before| ==> !Eligible(c, before[..n])
    ensures Waited(c, c3, Elapsed(before + [t])) && c3.uptime == ToUint32(RunAll(c, before).uptime + t.dt)
    ensures RunAll(c, before + [t]) == RetryOrExhaust(c3)
  {
    hide Latched, SafeLimit, Gain, Run, RetryOrExhaust, TickRamp, Consume, Advance;
    var ticks := before + [t];
    assert ticks[..|before|] == before && ticks[|before|] == t;
    if before != [] {
      CoolDownAccounting(c, before);
    }
    var c1 := RunAll(c, before);
    assert [t][..0] == [];
    assert CurrentAfter(c1, [t]) == CurrentAfter(c, ticks);
    assert Elapsed(ticks) == Elapsed(before) + t.dt;
    assert CoolDown(c1) <= t.dt;
    TickDecides(c1, t);
    var c2 := TickRamp(Consume(Advance(c1, t.dt), t.v, t.i), t.dt);
    c3 := c2.(drive := c2.drive.(smf := RetryCooldown, cooldown := 0));
  }

  lemma Decision(c: State)
    requires 0 <= c.cfg.target <= MAX_TARGET && c.fault.active == {Current} && AutoRetryPolicy(c.cfg)
    ensures Decided(c, RetryOrExhaust(c), c.now) && RetryOrExhaust(c).uptime == c.uptime
  {
    hide HwCode, HwEnable, CountRecent;
    MulMonotone(0, c.cfg.derateStep, CountActiveRetries(c) + 1);
  }

  lemma DecidedTransfers(c: State, c3: State, c': State, now: nat)
    requires Decided(c3, c', now)
    requires c3.cfg == c.cfg && c3.retries == c.retries && c3.log == c.log
    requires c3.drive == c.drive.(smf := c3.drive.smf, cooldown := c3.drive.cooldown)
    ensures Decided(c, c', now)
  {
    hide CountRecent;
  }

  lemma LatchedIsInRange(c: State)
    requires Latched(c)
    ensures 0 <= c.cfg.target <= MAX_TARGET && c.fault.active == {Current} && AutoRetryPolicy(c.cfg)
  {
  }

  /**
    A recovery tick retries if and only if the controller runs automatically,
    the over-current fault is the only one, the policy retries, nothing ramps,
    the cool-down is over, the reading is safe, and the retries of the window
    and the derated target leave room. Only then does it touch the output.
   */
  lemma RetriesExactly(c: State, mode: uint16, dt: uint32)
    ensures var c' := TickRecovery(c, mode, dt);
            var recent := CountRecent(c.retries, c.uptime, c.cfg.retryWindow * 1000);
            && (c'.log != c.log <==>
                  && mode == MODE_AUTOMATIC && c.fault.active == {Current}
                  && (c.cfg.recoveryPolicy == RECOVERY_AUTO_RETRY ||
                      (c.cfg.recoveryPolicy == RECOVERY_AUTO_DERATE_RETRY &&
                       (recent + 1) * c.cfg.derateStep < c.cfg.target))
                  && !c.drive.ramping && CoolDown(c) <= dt
                  && c.meas.measuredI <= SafeLimit(c.cfg)
                  && recent < c.cfg.retryMax)
            && (c'.log == c.log ==>
                  c'.dev == c.dev && c'.drive == c.drive.(smf := c'.drive.smf, cooldown := c'.drive.cooldown))
  {
    hide CountActiveRetries, SafeLimit, RetryOrExhaust, RetryAllowed;
    var c2 := c.(drive := c.drive.(smf := RetryCooldown, cooldown := 0));
    if AutoRetryPolicy(c.cfg) {
      AllowedExactly(c2);
    }
    OnlyRetriesRecord(c2);
  }

  // Whatever it decides, a recovery tick keeps the fault history, readings,
  // configuration and calibration.
  lemma RecoveryKeepsRecord(c: State, mode: uint16, dt: uint32)
    ensures var c' := TickRecovery(c, mode, dt);
            && c'.fault == c.fault.(active := c'.fault.active)
            && c'.meas == c.meas && c'.session == c.session
            && c'.cfg == c.cfg && c'.cal == c.cal && c'.caps == c.caps
  {
    hide HwCode, HwEnable, RetryAllowed, CountActiveRetries, SafeToClear;
  }

  lemma AllowedExactly(c: State)
    requires AutoRetryPolicy(c.cfg)
    ensures var recent := CountRecent(c.retries, c.uptime, c.cfg.retryWindow * 1000);
            RetryAllowed(c) <==>
              && recent < c.cfg.retryMax
              && (c.cfg.recoveryPolicy == RECOVERY_AUTO_RETRY || (recent + 1) * c.cfg.derateStep < c.cfg.target)
  {
    hide CountRecent;
  }

  lemma OnlyRetriesRecord(c: State)
    ensures var c' := RetryOrExhaust(c);
            && (c'.log != c.log <==> RetryAllowed(c))
            && (c'.log == c.log ==> c'.dev == c.dev && c'.drive == c.drive.(smf := FaultLatched))
  {
    hide HwCode, HwEnable, RetryAllowed;
    assert |Retry(c).log| == |c.log| + 1;
  }

  // ---- Giving up is final ----

  lemma ExhaustedStep(c: State, e: Event)
    requires SafetyInv(c) && RetryExhaust in c.fault.active && Autonomous(e)
    ensures var c' := Step(c, e);
            && SafetyInv(c') && RetryExhaust in c'.fault.active
            && c'.drive.opTarget <= c.drive.opTarget
            && (c'.drive.outputEnabled ==> c.drive.outputEnabled)
  {
    StepKeepsSafety(c, e);
  }

  // Whatever the ramp steps: an output that is off stays off, untouched.
  lemma {:induction false} ExhaustedStaysOff(c: State, es: seq<Event>)
    requires RetryExhaust in c.fault.active && !c.drive.outputEnabled
    requires forall e | e in es :: Autonomous(e)
    ensures var c' := Exec(c, es);
            RetryExhaust in c'.fault.active && c'.drive == c.drive && c'.dev == c.dev
  {
    hide Step;
    if es != [] {
      var last := |es| - 1;
      assert es[last] in es;
      ExhaustedStaysOff(c, es[..last]);
      ExhaustedOffStep(Exec(c, es[..last]), es[last]);
    }
  }

  lemma ExhaustedOffStep(c: State, e: Event)
    requires RetryExhaust in c.fault.active && !c.drive.outputEnabled && Autonomous(e)
    ensures var c' := Step(c, e);
            RetryExhaust in c'.fault.active && c'.drive == c.drive && c'.dev == c.dev
  {
  }

  /**
    Once RETRY_EXHAUST is set, no sequence of ticks (in any mode) and readings
    switches an off output on or raises the target.
   */
  lemma {:induction false} ExhaustionIsFinal(c: State, es: seq<Event>)
    requires SafetyInv(c) && RetryExhaust in c.fault.active
    requires forall e | e in es :: Autonomous(e)
    ensures var c' := Exec(c, es);
            && SafetyInv(c') && RetryExhaust in c'.fault.active
            && c'.drive.opTarget <= c.drive.opTarget
            && (c'.drive.outputEnabled ==> c.drive.outputEnabled)
  {
    hide Step, SafetyInv;
    if es != [] {
      var last := |es| - 1;
      ExhaustionIsFinal(c, es[..last]);
      ExhaustedStep(Exec(c, es[..last]), es[last]);
    }
  }
}
