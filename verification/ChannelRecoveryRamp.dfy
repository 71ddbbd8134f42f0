/**
  Where an admitted retry ramps to (lib/voltage_control/vc_channel.c:375-438,
  811-908): the closed form of the recovery ramp, and exactly when there is one.
 */
module ChannelRecoveryRamp {
  import opened CInt
  import opened VcTypes
  import opened ChannelSpec
  import opened ChannelSafety
  import opened ChannelRamp
  import opened ChannelRecovery
  import opened ChannelRetryRuns

  // The output is on for a recovery, and nothing gates its ramp.
  predicate RecoveryRamp(c: State) {
    && SafetyInv(c)
    && c.drive.outputEnabled && c.drive.recovering && !c.drive.rampToDisable
    && c.fault.active == {}
  }

  // On its way: the target has not been reached.
  predicate OnTheWay(c0: State, c: State) {
    && RecoveryRamp(c)
    && c.drive.opTarget != RampTarget(c)
    && SameRamp(c0, c)
  }

  // Like OneTick: a recovery ramp differs only in what follows its arrival.
  lemma OneRecoveryTick(c: State, dt: uint32)
    requires RecoveryRamp(c) && c.drive.rampAccum + dt < TWO_32
    ensures var c' := TickRamp(c, dt);
            && c'.drive.opTarget == RampAfter(c, dt)
            && (c.drive.opTarget != RampTarget(c) == c'.drive.opTarget ==>
                  RampReady(c') && RampTarget(c') == c.cfg.target)
            && (c'.drive.opTarget != RampTarget(c) ==>
                  && OnTheWay(c, c') && StepFor(c) > 0 && IntervalFor(c) > 0
                  && c'.drive.rampAccum <= c.drive.rampAccum + dt
                  && LeftOver(c, c', dt))
  {
    hide HwCode, HwEnable, RampMove, RampAfter;
    TickRampKeepsSafety(c, dt);
    MoveOutcome(c, dt);
    SameSide(c, dt);
    if c.drive.opTarget == RampTarget(c) {
      AlreadyThere(c, dt);
    }
  }

  /**
    Closed form of the recovery ramp up to its arrival: as long as the ticks
    before the last one do not reach the recovery target, the voltage is the
    start moved towards it by whole intervals times the step. On arrival the
    recovery is over, and the ramp goes on to the configured target.
   */
  lemma {:induction false} RecoveryClosedForm(c: State, dts: seq<uint32>)
    requires RecoveryRamp(c) && dts != []
    requires c.drive.rampAccum + Total(dts) < TWO_32
    requires c.drive.opTarget != RampTarget(c)
    requires |dts| > 1 ==> RampAfter(c, Total(dts[..|dts| - 1])) != RampTarget(c)
    ensures var c' := Ramps(c, dts);
            && c'.drive.opTarget == RampAfter(c, Total(dts))
            && (c'.drive.opTarget == RampTarget(c) ==> RampReady(c') && RampTarget(c') == c.cfg.target)
    decreases |dts|
  {
    hide RampAfter, SameRamp, LeftOver, TickRamp, RampReady, RecoveryRamp, StepFor, IntervalFor, RampTarget;
    var dt, rest := dts[0], dts[1..];
    var c1 := TickRamp(c, dt);
    OneRecoveryTick(c, dt);
    if rest == [] {
      assert Total(dts) == dt;
      assert Ramps(c, dts) == c1;
    } else {
      var before := dts[..|dts| - 1];
      assert before[0] == dt && before[1..] == rest[..|rest| - 1];
      assert RampAfter(c, dt) != RampTarget(c) by {
        if RampAfter(c, dt) == RampTarget(c) {
          ArrivedEarlier(c, dt, Total(before[1..]));
        }
      }
      SameTarget(c, c1);
      Compose(c, c1, dt, Total(rest));
      Compose(c, c1, dt, Total(before[1..]));
      SameConfig(c, dt);
      RecoveryClosedForm(c1, rest);
    }
  }

  lemma SameConfig(c: State, dt: uint32)
    ensures TickRamp(c, dt).cfg == c.cfg
  {
    hide RampMove, HwCode, HwEnable;
  }

  // ---- It gets there ----

  function Distance(c: State): nat {
    if c.drive.opTarget <= RampTarget(c) then RampTarget(c) - c.drive.opTarget
    else c.drive.opTarget - RampTarget(c)
  }

  // A tick that completes an interval.
  function NextTick(c: State): uint32 {
    var intervalMs := IntervalFor(c) * 1000;
    if StepFor(c) == 0 || c.drive.rampAccum >= intervalMs then 0 else intervalMs - c.drive.rampAccum
  }

  lemma TickProgress(c: State)
    requires RecoveryRamp(c) && c.drive.opTarget != RampTarget(c)
    ensures c.drive.rampAccum + NextTick(c) < TWO_32
    ensures RampAfter(c, NextTick(c)) == RampTarget(c) ||
            (if c.drive.opTarget < RampTarget(c)
             then c.drive.opTarget < RampAfter(c, NextTick(c)) < RampTarget(c)
             else c.drive.opTarget > RampAfter(c, NextTick(c)) > RampTarget(c))
  {
    var step, intervalMs := StepFor(c), IntervalFor(c) * 1000;
    if step > 0 && intervalMs > 0 {
      var accum := c.drive.rampAccum + NextTick(c);
      DivMonotone(intervalMs, accum, intervalMs);
      QuotientIs(intervalMs, intervalMs, 1);
      MulMonotone(1, accum / intervalMs, step);
      assert accum / intervalMs * step == step * (accum / intervalMs);
    }
  }

  lemma {:induction false} RecoveryArrives(c: State) returns (dts: seq<uint32>)
    requires RecoveryRamp(c)
    ensures Ramps(c, dts).drive.opTarget == RampTarget(c)
    decreases Distance(c)
  {
    hide RampAfter, TickRamp, LeftOver, RecoveryRamp, NextTick, RampTarget, StepFor, IntervalFor, SameRamp;
    if c.drive.opTarget == RampTarget(c) {
      dts := [];
    } else {
      TickProgress(c);
      var dt := NextTick(c);
      OneRecoveryTick(c, dt);
      var c1 := TickRamp(c, dt);
      if c1.drive.opTarget == RampTarget(c) {
        dts := [dt];
        assert dts[1..] == [] && Ramps(c1, []) == c1;
      } else {
        SameTarget(c, c1);
        var rest := RecoveryArrives(c1);
        dts := [dt] + rest;
        assert dts[1..] == rest;
      }
    }
  }

  // ---- Exactly when there is a recovery ramp ----

  // An unfinished disable that no longer ramps holds the voltage.
  lemma {:induction false} StuckAtZero(c: State, dts: seq<uint32>)
    requires c.drive.rampToDisable && !c.drive.ramping && c.drive.opTarget == c.drive.gracefulDest
    ensures Ramps(c, dts) == c
    decreases |dts|
  {
    if dts != [] {
      assert TickRamp(c, dts[0]) == c;
      StuckAtZero(c, dts[1..]);
    }
  }

  /**
    A channel that has just retried (nothing ramps yet) reaches its recovery
    target under ramp ticks if and only if no disable ramp was left unfinished:
    a fault that cuts a graceful disable short leaves that flag set, and the
    output then stays on, recovering, at zero.
   */
  lemma RecoveryRampsExactly(c: State)
    requires SafetyInv(c) && c.fault.active == {}
    requires c.drive.outputEnabled && c.drive.recovering && !c.drive.ramping
    requires c.drive.opTarget != c.drive.recoveryTarget
    ensures (exists dts :: Ramps(c, dts).drive.opTarget == c.drive.recoveryTarget) <==> !c.drive.rampToDisable
  {
    if c.drive.rampToDisable {
      forall dts
        ensures Ramps(c, dts).drive.opTarget != c.drive.recoveryTarget
      {
        StuckAtZero(c, dts);
      }
    } else {
      var dts := RecoveryArrives(c);
    }
  }

  lemma {:induction false} RunAllKeepsSafety(c: State, ticks: seq<Tick>)
    requires SafetyInv(c)
    ensures SafetyInv(RunAll(c, ticks))
  {
    hide Run, SafetyInv, Admissible;
    if ticks != [] {
      var last := |ticks| - 1;
      RunAllKeepsSafety(c, ticks[..last]);
      RunKeepsSafety(RunAll(c, ticks[..last]), ticks[last]);
    }
  }

  lemma RunKeepsSafety(c: State, t: Tick)
    requires SafetyInv(c)
    ensures SafetyInv(Run(c, t.dt, t.v, t.i, MODE_AUTOMATIC))
  {
    hide Run, SafetyInv, Exec;
    RunIsMicroSteps(c, t.dt, t.v, t.i, MODE_AUTOMATIC);
    SafetyOnEveryRun(c, MicroSteps(t.dt, t.v, t.i, MODE_AUTOMATIC));
  }

  lemma RetryKeepsFlags(c: State)
    ensures var d := RetryOrExhaust(c).drive;
            && d.rampToDisable == c.drive.rampToDisable && d.ramping == c.drive.ramping
            && d.opTarget == c.drive.opTarget && d.gracefulDest == c.drive.gracefulDest
  {
    hide HwCode, HwEnable, RetryAllowed, CountActiveRetries;
  }

  // From the latched fault: whether the retry of the first eligible tick ramps
  // is decided by what the fault had cut short.
  lemma RetryRampsExactly(c: State, before: seq<Tick>, t: Tick)
    requires Latched(c) && SafetyInv(c) && Eligible(c, before + [t])
    requires forall n :: 0 < n <= |before| ==> !Eligible(c, before[..n])
    requires var c' := RunAll(c, before + [t]);
             c'.fault.active == {} && c'.drive.opTarget != c'.drive.recoveryTarget
    ensures var c' := RunAll(c, before + [t]);
            (exists dts :: Ramps(c', dts).drive.opTarget == c'.drive.recoveryTarget) <==> !c.drive.rampToDisable
  {
    hide Eligible, RunAll, SafetyInv, Latched;
    AfterDecision(c, before, t);
    AfterRetry(c, before, t);
    RunAllKeepsSafety(c, before + [t]);
    RecoveryRampsExactly(RunAll(c, before + [t]));
  }

  // For any ramp steps: what a fault cut short keeps the voltage at zero after
  // the decision, however many ramp ticks follow.
  lemma RetryStaysAtZero(c: State, before: seq<Tick>, t: Tick)
    requires Latched(c) && c.drive.rampToDisable && Eligible(c, before + [t])
    requires forall n :: 0 < n <= |before| ==> !Eligible(c, before[..n])
    ensures var c' := RunAll(c, before + [t]);
            c'.drive.opTarget == 0 && forall dts :: Ramps(c', dts) == c'
  {
    hide Eligible, RunAll;
    AfterDecision(c, before, t);
    var c' := RunAll(c, before + [t]);
    forall dts
      ensures Ramps(c', dts) == c'
    {
      StuckAtZero(c', dts);
    }
  }

  lemma AfterDecision(c: State, before: seq<Tick>, t: Tick)
    requires Latched(c) && Eligible(c, before + [t])
    requires forall n :: 0 < n <= |before| ==> !Eligible(c, before[..n])
    ensures var d := RunAll(c, before + [t]).drive;
            && d.rampToDisable == c.drive.rampToDisable && !d.ramping
            && d.opTarget == c.drive.opTarget && d.gracefulDest == c.drive.gracefulDest
  {
    hide RetryOrExhaust, Eligible, RunAll, Latched, Waited;
    var c3 := DecidingState(c, before, t);
    RetryKeepsFlags(c3);
    WaitedFlags(c, c3, Elapsed(before + [t]));
  }

  lemma AfterRetry(c: State, before: seq<Tick>, t: Tick)
    requires Latched(c) && Eligible(c, before + [t])
    requires forall n :: 0 < n <= |before| ==> !Eligible(c, before[..n])
    ensures var c' := RunAll(c, before + [t]);
            c'.fault.active == {} ==> c'.drive.outputEnabled && c'.drive.recovering
  {
    hide Eligible, RunAll, Latched, Decided, Elapsed;
    FirstEligibleTickDecides(c, before, t);
    var c' := RunAll(c, before + [t]);
    if c'.fault.active == {} {
      DecidedToRetry(c, c', c.now + Elapsed(before + [t]));
    }
  }

  lemma DecidedToRetry(c: State, c': State, now: nat)
    requires Decided(c, c', now) && c'.fault.active == {}
    ensures c'.drive.outputEnabled && c'.drive.recovering
  {
  }

  lemma WaitedFlags(c: State, c': State, elapsed: nat)
    requires Latched(c) && Waited(c, c', elapsed)
    ensures c'.drive.rampToDisable == c.drive.rampToDisable && !c'.drive.ramping
    ensures c'.drive.opTarget == c.drive.opTarget && c'.drive.gracefulDest == c.drive.gracefulDest
  {
  }

  // ---- A retry that goes nowhere ----

  function EagerAt(limit: uint16): Config {
    Eager(limit, 0).(target := 1)
  }

  // An accepted configuration, a graceful disable, a current fault, a retry.
  function CutShort(limit: uint16): seq<Event> {
    [Configure(EagerAt(limit)), Action(ACTION_DISABLE_GRACEFUL), External({Current}),
     RecoveryTick(MODE_AUTOMATIC, 0)]
  }

  lemma EagerAtAccepted(c: State, limit: uint16)
    requires c.caps == ALL_CAPS && c.cfg == DefaultConfig()
    ensures SetConfig(c, EagerAt(limit)) == (ApplyHw(c.(cfg := EagerAt(limit))), Ok)
  {
    hide ApplyHw;
  }

  // The retry itself, from what the fault leaves behind.
  lemma RetryFromCutShort(c: State, limit: uint16)
    requires c.cfg == EagerAt(limit) && limit > 0
    requires c.fault.active == {Current} && c.meas.measuredI == 0 && c.retries == [] && c.log == []
    requires c.drive.rampToDisable && !c.drive.ramping && c.drive.opTarget == 0
    requires c.drive.smf == DisabledSafe && c.drive.gracefulDest == 0
    ensures var c' := TickRecovery(c, MODE_AUTOMATIC, 0);
            && c'.fault.active == {} && c'.log == [c.now]
            && c'.drive.outputEnabled && c'.drive.recovering && c'.drive.recoveryTarget == 1
            && c'.drive.rampToDisable && !c'.drive.ramping && c'.drive.opTarget == 0 && c'.drive.gracefulDest == 0
  {
    hide HwCode, HwEnable;
    assert CountActiveRetries(c) == 0;
  }

  // What the disable and the fault leave of an idle channel.
  lemma DisableThenFault(c: State)
    requires c.caps == ALL_CAPS && c.fault.active == {}
    requires c.drive == Drive(false, false, false, 0, 0, 0, false, 0, 0, DisabledSafe)
    ensures OutputAction(c, ACTION_DISABLE_GRACEFUL).1 == Ok
    ensures var c' := ConsumeFault(OutputAction(c, ACTION_DISABLE_GRACEFUL).0, {Current});
            && c'.cfg == c.cfg && c'.fault.active == {Current} && c'.meas == c.meas
            && c'.retries == c.retries && c'.log == c.log && c'.now == c.now
            && c'.drive == c.drive.(rampToDisable := true)
  {
    hide HwCode, HwEnable;
  }

  /**
    After this run of accepted writes, a fault and a tick the channel has
    retried: its output is on, it is recovering towards one unit, and however
    many ramp ticks follow it stays at zero.
   */
  lemma RetryCanGoNowhere(limit: uint16)
    requires limit > 0
    ensures var c := Exec(Init(ALL_CAPS, DefaultConfig(), UNIT_GAIN), CutShort(limit));
            && c.log == [0] && c.fault.active == {}
            && c.drive.outputEnabled && c.drive.recovering && c.drive.recoveryTarget == 1
            && c.drive.opTarget == 0
            && forall dts :: Ramps(c, dts) == c
  {
    var c0 := Init(ALL_CAPS, DefaultConfig(), UNIT_GAIN);
    hide Exec, SetConfig, OutputAction, ConsumeFault, TickRecovery, EagerAt, DefaultConfig, HwCode, HwEnable;
    EagerAtAccepted(c0, limit);
    var c1 := ApplyHw(c0.(cfg := EagerAt(limit)));
    DisableThenFault(c1);
    var c3 := ConsumeFault(OutputAction(c1, ACTION_DISABLE_GRACEFUL).0, {Current});
    RetryFromCutShort(c3, limit);
    var es := CutShort(limit);
    ExecThree(c0, es[0], es[1], es[2]);
    ExecAppend(c0, [es[0], es[1], es[2]], es[3]);
    assert [es[0], es[1], es[2]] + [es[3]] == es;
    var c := Exec(c0, es);
    forall dts
      ensures Ramps(c, dts) == c
    {
      StuckAtZero(c, dts);
    }
  }
}
