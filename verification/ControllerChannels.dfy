/**
  The theorems about one channel, for a channel inside a controller: hardware
  coherence across restarts, the retry rate limit, recovery, graceful disable
  and exhaustion.
 */
module ControllerChannels {
  import opened CInt
  import opened VcTypes
  import opened Channel = ChannelSpec
  import opened ControllerSpec
  import opened ControllerTrace
  import opened ChannelSafety
  import ChannelPin
  import opened ChannelRamp
  import ChannelRecovery
  import ChannelRetry
  import ChannelRetryRuns
  import ControllerRuns
  import opened Wrappers

  // ---- Hardware coherence and restarts ----

  // A restart writes nothing to the device: the code is the state's (zero) if
  // and only if the channel before left zero, and likewise the pin.
  lemma RestartCoherentExactly(s: Ctrl, k: nat)
    requires k < |s.chans| && k < |s.boards|
    ensures var c := Reboot(s).chans[k];
            && (HwInv(c) <==> s.chans[k].dev.dacCode == 0)
            && (ChannelPin.PinExact(c) <==> !s.chans[k].dev.hvEnable)
  {
  }

  lemma ChannelCountStays(s: Ctrl, e: Command, k: nat)
    requires |s.chans| == |s.boards| && k < |s.chans|
    ensures |Do(s, e).0.chans| == |Do(s, e).0.boards| == |s.boards|
  {
    hide Do, Trace;
    ControllerRuns.BoardsStep(s, e);
    if e != Restart {
      CommandRuns(s, e, k);
    } else {
      RebootCount(s);
    }
  }

  lemma RebootCount(s: Ctrl)
    ensures Do(s, Restart).0 == Reboot(s) && |Reboot(s).chans| == |s.boards|
  {
  }

  lemma {:induction false} ChannelCountOnEveryRun(s: Ctrl, es: seq<Command>, k: nat)
    requires |s.chans| == |s.boards| && k < |s.chans|
    ensures |DoAll(s, es).chans| == |DoAll(s, es).boards| == |s.boards|
  {
    hide Do;
    if es != [] {
      ChannelCountOnEveryRun(s, es[..|es| - 1], k);
      ChannelCountStays(DoAll(s, es[..|es| - 1]), es[|es| - 1], k);
    }
  }

  // The channel's registers after the first `n` commands.
  function DeviceAfter(s: Ctrl, es: seq<Command>, k: nat, n: nat): Device
    requires n <= |es|
  {
    DeviceBefore(DoAll(s, es[..n]).chans, k)
  }

  ghost predicate CoherentAfter(s: Ctrl, es: seq<Command>, k: nat, n: nat)
    requires n <= |es|
  {
    var cs := DoAll(s, es[..n]).chans;
    k < |cs| && HwInv(cs[k])
  }

  // Whether command `n` is a restart that finds the channel's code not zero.
  ghost predicate LeavesStaleCode(s: Ctrl, es: seq<Command>, k: nat, n: nat)
    requires n < |es|
  {
    es[n] == Restart && DeviceAfter(s, es, k, n).dacCode != 0
  }

  lemma CommandCoherentExactly(s: Ctrl, e: Command, k: nat)
    requires |s.chans| == |s.boards| && k < |s.chans| && HwInv(s.chans[k])
    ensures var cs := Do(s, e).0.chans;
            k < |cs| && (HwInv(cs[k]) <==> !(e == Restart && s.chans[k].dev.dacCode != 0))
  {
    hide Do, Trace, HwInv;
    if e == Restart {
      RebootCount(s);
      RestartCoherentExactly(s, k);
    } else {
      CommandRuns(s, e, k);
      CoherentOnEveryRun(s.chans[k], Trace(s, e, k));
    }
  }

  /**
    Throughout a run the DAC register of channel `k` holds the code that its
    state determines if and only if no restart of the run finds that code other
    than zero.
   */
  lemma {:induction false} CoherentExactly(s: Ctrl, es: seq<Command>, k: nat)
    requires |s.chans| == |s.boards| && k < |s.chans| && HwInv(s.chans[k])
    ensures (forall n :: 0 <= n <= |es| ==> CoherentAfter(s, es, k, n)) <==>
            (forall n :: 0 <= n < |es| ==> !LeavesStaleCode(s, es, k, n))
  {
    hide Do, HwInv;
    if es == [] {
      assert forall n | 0 <= n <= |es| :: es[..n] == es;
    } else {
      var last := |es| - 1;
      var before := es[..last];
      assert forall n | 0 <= n <= last :: before[..n] == es[..n];
      CoherentExactly(s, before, k);
      assert es[..|es|] == es && before[..last] == before;
      ChannelCountOnEveryRun(s, before, k);
      assert forall n | 0 <= n <= last :: CoherentAfter(s, before, k, n) == CoherentAfter(s, es, k, n);
      assert forall n | 0 <= n < last :: LeavesStaleCode(s, before, k, n) == LeavesStaleCode(s, es, k, n);
      if CoherentAfter(s, es, k, last) {
        CommandCoherentExactly(DoAll(s, before), es[last], k);
        assert CoherentAfter(s, es, k, |es|) <==> !LeavesStaleCode(s, es, k, last);
      }
    }
  }

  // From power-on.
  lemma ReachableCoherence(boards: seq<Board>, hasStorage: bool, es: seq<Command>, k: nat)
    requires k < |boards|
    ensures var s := Boot(boards, hasStorage, EMPTY_STORE);
            (forall n :: 0 <= n <= |es| ==> CoherentAfter(s, es, k, n)) <==>
            (forall n :: 0 <= n < |es| ==> !LeavesStaleCode(s, es, k, n))
  {
    CoherentExactly(Boot(boards, hasStorage, EMPTY_STORE), es, k);
  }

  // ---- The pin and restarts ----

  // During command `n` the pin of channel `k` is exact after every event.
  ghost predicate PinExactDuring(s: Ctrl, es: seq<Command>, k: nat, n: nat)
    requires n < |es|
  {
    var t := DoAll(s, es[..n]);
    && k < |t.chans| && k < |Do(t, es[n]).0.chans|
    && ChannelPin.PinExact(Do(t, es[n]).0.chans[k])
    && forall j :: 0 <= j <= |Trace(t, es[n], k)| ==>
         ChannelPin.PinExact(Exec(t.chans[k], Trace(t, es[n], k)[..j]))
  }

  // Command `n` is a restart that finds the pin on, or one of its events
  // leaves the pin stale.
  ghost predicate LeavesStalePin(s: Ctrl, es: seq<Command>, k: nat, n: nat)
    requires n < |es|
  {
    var t := DoAll(s, es[..n]);
    || (es[n] == Restart && DeviceAfter(s, es, k, n).hvEnable)
    || (k < |t.chans| && StalesIn(t.chans[k], Trace(t, es[n], k)))
  }

  ghost predicate StalesIn(c: State, tr: seq<Event>) {
    exists j :: 0 <= j < |tr| && ChannelPin.Stales(Exec(c, tr[..j]), tr[j])
  }

  lemma CommandPinExactly(s: Ctrl, es: seq<Command>, k: nat, n: nat)
    requires n < |es|
    requires var t := DoAll(s, es[..n]);
             |t.chans| == |t.boards| && k < |t.chans| && ChannelPin.PinExact(t.chans[k])
    ensures PinExactDuring(s, es, k, n) <==> !LeavesStalePin(s, es, k, n)
  {
    hide DoAll, Do, Trace, ChannelPin.PinExact, ChannelPin.Stales;
    var t := DoAll(s, es[..n]);
    var tr := Trace(t, es[n], k);
    ChannelPin.PinExactlyOnEveryRun(t.chans[k], tr);
    if es[n] == Restart {
      RebootCount(t);
      RestartCoherentExactly(t, k);
      RestartTraceEmpty(t, k);
    } else {
      CommandRuns(t, es[n], k);
      assert tr[..|tr|] == tr;
    }
  }

  lemma RestartTraceEmpty(s: Ctrl, k: nat)
    ensures Trace(s, Restart, k) == []
  {
  }

  /**
    Throughout a run the pin of channel `k` is what its state asks for if and
    only if no event of the run leaves it stale and no restart finds it on.
   */
  lemma {:induction false} PinExactly(s: Ctrl, es: seq<Command>, k: nat)
    requires |s.chans| == |s.boards| && k < |s.chans| && ChannelPin.PinExact(s.chans[k])
    ensures (forall n :: 0 <= n < |es| ==> PinExactDuring(s, es, k, n)) <==>
            (forall n :: 0 <= n < |es| ==> !LeavesStalePin(s, es, k, n))
    ensures (forall n :: 0 <= n < |es| ==> PinExactDuring(s, es, k, n)) ==>
              k < |DoAll(s, es).chans| && ChannelPin.PinExact(DoAll(s, es).chans[k])
  {
    hide Do, Trace, ChannelPin.PinExact, StalesIn;
    if es != [] {
      var last := |es| - 1;
      var before := es[..last];
      assert forall n | 0 <= n <= last :: before[..n] == es[..n];
      PinExactly(s, before, k);
      ChannelCountOnEveryRun(s, before, k);
      assert forall n | 0 <= n < last :: PinExactDuring(s, before, k, n) == PinExactDuring(s, es, k, n);
      assert forall n | 0 <= n < last :: LeavesStalePin(s, before, k, n) == LeavesStalePin(s, es, k, n);
      if forall n :: 0 <= n < last ==> PinExactDuring(s, es, k, n) {
        CommandPinExactly(s, es, k, last);
      }
    }
  }

  // From power-on.
  lemma ReachablePin(boards: seq<Board>, hasStorage: bool, es: seq<Command>, k: nat)
    requires k < |boards|
    ensures var s := Boot(boards, hasStorage, EMPTY_STORE);
            (forall n :: 0 <= n < |es| ==> PinExactDuring(s, es, k, n)) <==>
            (forall n :: 0 <= n < |es| ==> !LeavesStalePin(s, es, k, n))
  {
    hide PinExactDuring, LeavesStalePin;
    ChannelPin.InitPinExact(boards[k].caps, boards[k].cfg, boards[k].cal);
    PinExactly(Boot(boards, hasStorage, EMPTY_STORE), es, k);
  }

  // ---- A restart that leaves the output driven ----

  const UNIT_BOARD: Board := Board(Caps(true, true, true, true), DefaultConfig(), ChannelRetryRuns.UNIT_GAIN)

  // Two accepted writes and an enable, one tick that ramps to the target, restart.
  const DRIVEN_RESTART: seq<Command> := [
    FieldAt(0, RampUpStep, 0), FieldAt(0, ConfiguredTarget, 1), Act(0, ACTION_ENABLE), TickAll(0, []), Restart]

  lemma DoNext(s: Ctrl, es: seq<Command>, n: nat)
    requires n < |es|
    ensures DoAll(s, es[..n + 1]) == Do(DoAll(s, es[..n]), es[n]).0
  {
    assert es[..n + 1][..n] == es[..n];
  }

  lemma FieldInNormal(s: Ctrl, field: ConfigField, value: uint16)
    requires |s.chans| == 1 && s.mode == MODE_NORMAL
    ensures var s' := Do(s, FieldAt(0, field, value)).0;
            s' == s.(chans := [SetField(s.chans[0], field, value).0])
  {
    hide SetField, OutputAction;
  }

  lemma EnableInNormal(s: Ctrl)
    requires |s.chans| == 1 && s.mode == MODE_NORMAL
    ensures Do(s, Act(0, ACTION_ENABLE)).0 == s.(chans := [OutputAction(s.chans[0], ACTION_ENABLE).0])
  {
    hide OutputAction;
  }

  lemma TickInNormal(s: Ctrl)
    requires |s.chans| == 1 && s.mode == MODE_NORMAL
    ensures Do(s, TickAll(0, [])).0 == s.(chans := [Run(s.chans[0], 0, None, None, s.sys.mode)])
  {
    hide Run;
    var cs := RunChannels(s.chans, 0, [], s.sys.mode);
    assert cs == [Run(s.chans[0], 0, None, None, s.sys.mode)];
  }

  // A channel that ramps to one unit at once drives code one.
  lemma RunDrives(c: State, mode: uint16)
    requires c.drive == Drive(false, false, false, 0, 0, 0, false, 0, 0, DisabledSafe)
    requires c.fault.active == {} && c.cfg.target == 1 && c.cfg.rampUpStep == 0
    requires c.cal == ChannelRetryRuns.UNIT_GAIN && !c.session.calOutput
    ensures Run(OutputAction(c, ACTION_ENABLE).0, 0, None, None, mode).dev == Device(1, true)
  {
    var c1 := OutputAction(c, ACTION_ENABLE).0;
    var c2 := Advance(c1, 0);
    var c3 := TickRamp(c2, 0);
    assert Run(c1, 0, None, None, mode) == TickRecovery(c3, mode, 0);
    assert c2.drive == c.drive.(outputEnabled := true, ramping := true, smf := Ramping);
    assert c3.drive.opTarget == 1 && c3.drive.outputEnabled && c3.fault.active == {};
    UnitDrive();
    assert c3.dev == Device(HwCode(c3), HwEnable(c3));
  }

  lemma UnitDrive()
    ensures RawDrive(ChannelRetryRuns.UNIT_GAIN, 1) == 1
  {
  }

  // The channel after the two writes.
  function Written(c: State): State {
    SetField(SetField(c, RampUpStep, 0).0, ConfiguredTarget, 1).0
  }

  lemma AfterOne(s: Ctrl, c: State)
    requires s.chans == [c] && s.mode == MODE_NORMAL
    ensures DoAll(s, DRIVEN_RESTART[..1]) == s.(chans := [SetField(c, RampUpStep, 0).0])
  {
    assert DoAll(s, DRIVEN_RESTART[..0]) == s;
    hide DoAll, Do, SetField, OutputAction, Run;
    DoNext(s, DRIVEN_RESTART, 0);
    FieldInNormal(s, RampUpStep, 0);
  }

  lemma AfterTwo(s: Ctrl, c: State)
    requires s.chans == [c] && s.mode == MODE_NORMAL
    ensures DoAll(s, DRIVEN_RESTART[..2]) == s.(chans := [Written(c)])
  {
    hide DoAll, Do, SetField, OutputAction, Run;
    AfterOne(s, c);
    DoNext(s, DRIVEN_RESTART, 1);
    FieldInNormal(s.(chans := [SetField(c, RampUpStep, 0).0]), ConfiguredTarget, 1);
  }

  lemma AfterThree(s: Ctrl, c: State)
    requires s.chans == [c] && s.mode == MODE_NORMAL
    ensures DoAll(s, DRIVEN_RESTART[..3]) == s.(chans := [OutputAction(Written(c), ACTION_ENABLE).0])
  {
    hide Written;
    hide DoAll, Do, SetField, OutputAction, Run;
    AfterTwo(s, c);
    DoNext(s, DRIVEN_RESTART, 2);
    EnableInNormal(s.(chans := [Written(c)]));
  }

  lemma DrivenByFour(s: Ctrl, c: State)
    requires s.chans == [c] && s.mode == MODE_NORMAL
    ensures DoAll(s, DRIVEN_RESTART[..4]) ==
            s.(chans := [Run(OutputAction(Written(c), ACTION_ENABLE).0, 0, None, None, s.sys.mode)])
  {
    hide Written;
    hide DoAll, Do, SetField, OutputAction, Run;
    AfterThree(s, c);
    DoNext(s, DRIVEN_RESTART, 3);
    TickInNormal(s.(chans := [OutputAction(Written(c), ACTION_ENABLE).0]));
  }

  lemma TwoFields(c: State)
    requires c == Init(UNIT_BOARD.caps, UNIT_BOARD.cfg, UNIT_BOARD.cal)
    ensures var c' := Written(c);
            && c'.drive == c.drive && c'.fault == c.fault && c'.cal == c.cal && c'.session == c.session
            && c'.cfg.target == 1 && c'.cfg.rampUpStep == 0
  {
    TwoWrites(c, 0, 1);
  }

  /**
    After this run the channel is in DISABLED_SAFE with its output off, and
    its device still drives code one with the pin on.
   */
  lemma RestartLeavesOutputDriven(hasStorage: bool)
    ensures var cs := DoAll(Boot([UNIT_BOARD], hasStorage, EMPTY_STORE), DRIVEN_RESTART).chans;
            && |cs| == 1 && cs[0].drive.smf == DisabledSafe && !cs[0].drive.outputEnabled
            && cs[0].dev == Device(1, true) && HwCode(cs[0]) == 0 && !HwEnable(cs[0])
  {
    hide DoAll, Reboot, Run, SetField, OutputAction;
    var s := Boot([UNIT_BOARD], hasStorage, EMPTY_STORE);
    var c := s.chans[0];
    assert s.chans == [c];
    DrivenByFour(s, c);
    TwoFields(c);
    RunDrives(Written(c), s.sys.mode);
    var s4 := DoAll(s, DRIVEN_RESTART[..4]);
    assert s4.chans[0].dev == Device(1, true);
    DoNext(s, DRIVEN_RESTART, 4);
    assert DRIVEN_RESTART[..5] == DRIVEN_RESTART;
    RebootCount(s4);
    RestartState(s4);
  }

  lemma RestartState(s: Ctrl)
    requires |s.boards| == 1 && |s.chans| == 1
    ensures var c := Reboot(s).chans[0];
            && c.dev == s.chans[0].dev && c.drive.smf == DisabledSafe && !c.drive.outputEnabled
            && HwCode(c) == 0 && !HwEnable(c)
  {
  }

  // ---- The retry rate limit ----

  // Only the first event of a command can write the configuration.
  predicate WritesAtMostFirst(es: seq<Event>) {
    forall i :: 1 <= i < |es| ==> !es[i].Field? && !es[i].Configure?
  }

  lemma ModeWritesNothing(s: Ctrl, mode: uint16, k: nat)
    requires k < |s.chans|
    ensures forall e | e in ModeEvents(s, mode, k) :: !e.Field? && !e.Configure?
  {
    hide ModeChanges, WantsOutput;
  }

  lemma TraceWritesFirst(s: Ctrl, e: Command, k: nat)
    ensures WritesAtMostFirst(Trace(s, e, k))
  {
    hide ModeEvents, SetField, SetConfig, OtherBusy, AutoEnables;
    if k < |s.chans| {
      forall mode
        ensures WritesAtMostFirst(ModeEvents(s, mode, k))
      {
        ModeWritesNothing(s, mode, k);
      }
    }
  }

  // During one command the configuration is the one before or the one after.
  lemma ConfigBeforeOrAfter(c: State, es: seq<Event>, j: nat)
    requires WritesAtMostFirst(es) && j <= |es|
    ensures Exec(c, es[..j]).cfg == c.cfg || Exec(c, es[..j]).cfg == Exec(c, es).cfg
  {
    hide Step;
    if j > 0 {
      var c1 := Exec(c, es[..1]);
      assert es[..j] == es[..1] + es[1..j] && es == es[..1] + es[1..];
      ExecConcat(c, es[..1], es[1..j]);
      ExecConcat(c, es[..1], es[1..]);
      ChannelRetryRuns.ConfigKept(c1, es[1..j]);
      ChannelRetryRuns.ConfigKept(c1, es[1..]);
    }
  }

  // Channel `k` is configured within window and limit before and after every
  // command of the run.
  ghost predicate ConfiguresChannel(s: Ctrl, es: seq<Command>, k: nat, window: nat, limit: nat) {
    forall n :: 0 <= n <= |es| ==>
      var cs := DoAll(s, es[..n]).chans;
      k < |cs| && ChannelRetry.Within(cs[k].cfg, window, limit)
  }

  lemma {:induction false} TracesConfigure(s: Ctrl, es: seq<Command>, k: nat, window: nat, limit: nat)
    requires k < |s.chans| && NoRestart(es) && ConfiguresChannel(s, es, k, window, limit)
    ensures ChannelRetryRuns.Configures(s.chans[k], Traces(s, es, k), window, limit)
  {
    hide Do, Trace, Exec, WritesAtMostFirst;
    if es != [] {
      var last := |es| - 1;
      var before := es[..last];
      assert forall n | 0 <= n <= last :: before[..n] == es[..n];
      TracesConfigure(s, before, k, window, limit);
      ChannelRuns(s, before, k);
      var t := DoAll(s, before);
      CommandRuns(t, es[last], k);
      TraceWritesFirst(t, es[last], k);
      assert es[..|es|] == es && before == es[..last];
      var done, tr := Traces(s, before, k), Trace(t, es[last], k);
      forall m | 0 <= m < |done + tr|
        ensures ChannelRetry.Within(Exec(s.chans[k], (done + tr)[..m]).cfg, window, limit)
      {
        if m < |done| {
          assert (done + tr)[..m] == done[..m];
        } else {
          var j := m - |done|;
          assert (done + tr)[..m] == done + tr[..j];
          ExecConcat(s.chans[k], done, tr[..j]);
          ConfigBeforeOrAfter(t.chans[k], tr, j);
        }
      }
    }
  }

  /**
    The rate limit inside a controller: in every run without a restart in which
    channel `k` stays configured within window and limit, any limit + 1
    consecutive retries of that channel span more than the window.
   */
  lemma ControllerRateLimit(s: Ctrl, es: seq<Command>, k: nat, window: nat, limit: nat)
    requires k < |s.chans| && NoRestart(es) && ChannelRetry.RetryInv(s.chans[k]) && limit <= MAX_RETRY_HISTORY
    requires ConfiguresChannel(s, es, k, window, limit)
    ensures var cs := DoAll(s, es).chans;
            k < |cs| && ChannelRetry.Spaced(cs[k].log, |s.chans[k].log|, window, limit)
  {
    hide DoAll, Exec, Traces, ChannelRetry.RetryInv, ChannelRetry.Spaced;
    ChannelRuns(s, es, k);
    TracesConfigure(s, es, k, window, limit);
    ChannelRetry.RetryRateLimit(s.chans[k], Traces(s, es, k), window, limit);
  }

  // ---- Ticks ----

  predicate OnlyTicks(es: seq<Command>) {
    forall n :: 0 <= n < |es| ==> es[n].TickAll?
  }

  function TicksOf(es: seq<Command>, k: nat): seq<ChannelRecovery.Tick>
    requires OnlyTicks(es)
  {
    seq(|es|, n requires 0 <= n < |es| =>
      ChannelRecovery.Tick(es[n].dt, ReadingAt(es[n].readings, k).v, ReadingAt(es[n].readings, k).i))
  }

  lemma {:induction false} TicksRun(s: Ctrl, es: seq<Command>, k: nat)
    requires k < |s.chans| && OnlyTicks(es) && s.mode != MODE_CALIBRATION && s.sys.mode == MODE_AUTOMATIC
    ensures var s' := DoAll(s, es);
            && s'.mode == s.mode && s'.sys == s.sys && |s'.chans| == |s.chans|
            && s'.chans[k] == ChannelRecovery.RunAll(s.chans[k], TicksOf(es, k))
  {
    hide Run;
    if es != [] {
      var last := |es| - 1;
      TicksRun(s, es[..last], k);
      assert TicksOf(es, k)[..last] == TicksOf(es[..last], k);
    }
  }

  /**
    Recovery inside a controller whose system mode is AUTOMATIC: the first tick
    past the delay whose reading of channel `k` is safe retries or gives up.
   */
  lemma ControllerDecides(s: Ctrl, before: seq<Command>, e: Command, k: nat)
    requires k < |s.chans| && s.mode != MODE_CALIBRATION && s.sys.mode == MODE_AUTOMATIC
    requires OnlyTicks(before + [e]) && OnlyTicks(before) && ChannelRecovery.Latched(s.chans[k])
    requires ChannelRecovery.Eligible(s.chans[k], TicksOf(before + [e], k))
    requires forall n :: 0 < n <= |before| ==> !ChannelRecovery.Eligible(s.chans[k], TicksOf(before, k)[..n])
    ensures var cs := DoAll(s, before + [e]).chans;
            && k < |cs|
            && ChannelRecovery.Decided(s.chans[k], cs[k],
                                       s.chans[k].now + ChannelRecovery.Elapsed(TicksOf(before + [e], k)))
  {
    hide DoAll, ChannelRecovery.Latched, ChannelRecovery.Eligible, ChannelRecovery.Decided;
    hide ChannelRecovery.RunAll, ChannelRecovery.Elapsed;
    TicksRun(s, before + [e], k);
    var ticks := TicksOf(before + [e], k);
    var t := ticks[|before|];
    assert ticks == TicksOf(before, k) + [t];
    ChannelRecovery.FirstEligibleTickDecides(s.chans[k], TicksOf(before, k), t);
  }

  // The events of a channel while the controller only ticks.
  lemma {:induction false} TickTraces(s: Ctrl, es: seq<Command>, k: nat)
    requires k < |s.chans| && OnlyTicks(es) && s.mode != MODE_CALIBRATION
    ensures var tr := Traces(s, es, k);
            && DoAll(s, es).mode == s.mode && |DoAll(s, es).chans| == |s.chans|
            && (forall e | e in tr :: Autonomous(e))
            && RampTimes(tr) == seq(|es|, n requires 0 <= n < |es| => es[n].dt)
  {
    hide Run, Step, MicroSteps, Autonomous, RampTimes;
    assert RampTimes([]) == [] by { NoTimes(); }
    if es != [] {
      var last := |es| - 1;
      TickTraces(s, es[..last], k);
      var r := ReadingAt(es[last].readings, k);
      var t := DoAll(s, es[..last]);
      MicroTimes(es[last].dt, r.v, r.i, t.sys.mode);
      RampTimesConcat(Traces(s, es[..last], k), MicroSteps(es[last].dt, r.v, r.i, t.sys.mode));
    }
  }

  lemma NoTimes()
    ensures RampTimes([]) == []
  {
  }

  lemma {:induction false} RampTimesConcat(a: seq<Event>, b: seq<Event>)
    ensures RampTimes(a + b) == RampTimes(a) + RampTimes(b)
    decreases |b|
  {
    if b == [] {
      assert a + b == a;
    } else {
      var last := |b| - 1;
      assert (a + b)[..|a| + last] == a + b[..last];
      RampTimesConcat(a, b[..last]);
    }
  }

  lemma MicroTimes(dt: uint32, v: Option<int32>, i: Option<int32>, mode: uint16)
    ensures RampTimes(MicroSteps(dt, v, i, mode)) == [dt]
    ensures forall e | e in MicroSteps(dt, v, i, mode) :: Autonomous(e)
  {
    var e1: seq<Event> := [Elapse(dt)];
    var e2: seq<Event> := if v.Some? then [ReadVoltage(v.value)] else [];
    var e3: seq<Event> := if i.Some? then [ReadCurrent(i.value)] else [];
    RampTimesConcat(e1, e2);
    RampTimesConcat(e1 + e2, e3);
    RampTimesConcat(e1 + e2 + e3, [RampTick(dt)]);
    RampTimesConcat(e1 + e2 + e3 + [RampTick(dt)], [RecoveryTick(mode, dt)]);
  }

  /**
    Graceful disable inside a ticking controller: channel `k` passes through
    off at target zero if and only if there was a tick and the closed form of
    its ramp has come down to zero.
   */
  lemma ControllerDisableCompletes(s: Ctrl, es: seq<Command>, k: nat)
    requires k < |s.chans| && OnlyTicks(es) && s.mode != MODE_CALIBRATION && Disabling(s.chans[k])
    requires s.chans[k].drive.rampAccum + Total(seq(|es|, n requires 0 <= n < |es| => es[n].dt)) < TWO_32
    ensures ReachesOff(s.chans[k], Traces(s, es, k)) <==>
            es != [] && RampAfter(s.chans[k], Total(seq(|es|, n requires 0 <= n < |es| => es[n].dt))) == 0
  {
    hide Traces, Disabling, RampAfter, ReachesOff, Total;
    TickTraces(s, es, k);
    GracefulDisableCompletes(s.chans[k], Traces(s, es, k));
  }

  // Exhaustion inside a ticking controller is final, in any mode but calibration.
  lemma ControllerExhaustionIsFinal(s: Ctrl, es: seq<Command>, k: nat)
    requires k < |s.chans| && OnlyTicks(es) && s.mode != MODE_CALIBRATION
    requires SafetyInv(s.chans[k]) && RetryExhaust in s.chans[k].fault.active
    ensures var cs := DoAll(s, es).chans;
            && k < |cs| && RetryExhaust in cs[k].fault.active
            && cs[k].drive.opTarget <= s.chans[k].drive.opTarget
            && (cs[k].drive.outputEnabled ==> s.chans[k].drive.outputEnabled)
  {
    hide DoAll, Traces, Exec, SafetyInv;
    TickTraces(s, es, k);
    ChannelRuns(s, es, k);
    ChannelRecovery.ExhaustionIsFinal(s.chans[k], Traces(s, es, k));
  }
}
