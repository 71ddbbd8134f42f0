/**
  What a change of mode and a refusal do to the channels, and calibration
  sessions outside calibration mode
  (lib/voltage_control/vc_controller.c:110-346, 426-466, 545-588).
 */
module ControllerModes {
  import opened CInt
  import opened VcTypes
  import opened Channel = ChannelSpec
  import opened ChannelSafety
  import opened ChannelActions
  import opened ControllerSpec
  import opened ControllerInv
  import opened ControllerRuns
  import opened Wrappers

  // ---- Changes of mode ----

  // A non-zero target, or the flag where there is no target.
  predicate Wants(c: State) {
    (c.caps.rawDrive && c.cfg.target != 0) || (!c.caps.rawDrive && c.cfg.outputEnabled)
  }

  lemma WantedAreEnabled(c: State)
    ensures var c' := EnableIfWanted(c);
            if Wants(c) && c.fault.active == {}
            then c'.drive.outputEnabled && c'.drive.ramping && !c'.drive.rampToDisable && c'.dev.hvEnable && HwInv(c')
            else c' == c
  {
    hide OutputAction;
    if c.fault.active == {} {
      EnableSwitchesOn(c);
    }
  }

  /**
    An accepted change from NORMAL to AUTOMATIC switches on exactly the
    channels that want output and leaves the others as they were.
   */
  lemma ToAutomaticEnables(s: Ctrl, k: nat)
    requires s.mode == MODE_NORMAL && k < |s.chans|
    ensures var (s', st) := SetMode(s, MODE_AUTOMATIC);
            && |s'.chans| == |s.chans|
            && (st == Ok <==> forall j :: 0 <= j < |s.chans| ==> s.chans[j].fault.active == {})
            && (st == Ok && Wants(s.chans[k]) ==>
                  s'.chans[k].drive.outputEnabled && s'.chans[k].drive.ramping && HwInv(s'.chans[k]))
            && (st != Ok || !Wants(s.chans[k]) ==> s'.chans[k] == s.chans[k])
  {
    hide EnableIfWanted;
    WantedAreEnabled(s.chans[k]);
    if !AnyFaulted(s.chans) {
      assert SetMode(s, MODE_AUTOMATIC).0.chans == EnableWanting(s.chans);
    }
  }

  /**
    From AUTOMATIC to NORMAL is never refused: channels with raw drive ramp to
    zero, the others are off, and those that cannot be switched stay on.
   */
  lemma ToNormalDisables(s: Ctrl, k: nat)
    requires s.mode == MODE_AUTOMATIC && k < |s.chans|
    ensures var (s', st) := SetMode(s, MODE_NORMAL);
            var c := s.chans[k];
            && st == Ok && s'.mode == s'.sys.mode == MODE_NORMAL && |s'.chans| == |s.chans|
            && (c.caps.outputEnable && c.caps.rawDrive ==> RampsToZero(s'.chans[k], c.drive.opTarget))
            && (c.caps.outputEnable && !c.caps.rawDrive ==> Off(s'.chans[k]))
            && (!c.caps.outputEnable ==> s'.chans[k] == c)
  {
    hide OutputAction, RampsToZero, Off;
    var c := s.chans[k];
    assert SetMode(s, MODE_NORMAL).0.chans == DisableAll(s.chans);
    ActionAcceptedExactly(c, ACTION_DISABLE_GRACEFUL);
    if c.caps.outputEnable && c.caps.rawDrive {
      DisableRampsDown(c);
    } else if c.caps.outputEnable {
      DisableSwitchesOff(c, ACTION_DISABLE_GRACEFUL);
    }
  }

  // Entering calibration uses the unlock up and leaves every device silent.
  lemma EnteringSilences(s: Ctrl, k: nat)
    requires s.mode != MODE_CALIBRATION && s.unlocked && k < |s.chans|
    ensures var (s', st) := SetMode(s, MODE_CALIBRATION);
            && st == Ok && s'.mode == MODE_CALIBRATION && s'.preCal == s.mode && s'.sys == s.sys
            && !s'.unlocked && |s'.chans| == |s.chans|
            && Off(s'.chans[k]) && s'.chans[k].dev == Device(0, false)
            && s'.chans[k].session == CalSession(0, false) && s'.chans[k].fault == s.chans[k].fault
  {
    hide ResetCalibration;
    assert SetMode(s, MODE_CALIBRATION).0.chans == ResetAll(s.chans, true);
    SessionEdgeSwitchesOff(s.chans[k], true);
  }

  // Leaving it for NORMAL does too.
  lemma LeavingSilences(s: Ctrl, k: nat)
    requires s.mode == MODE_CALIBRATION && k < |s.chans|
    ensures var (s', st) := SetMode(s, MODE_NORMAL);
            && st == Ok && s'.mode == s'.sys.mode == MODE_NORMAL && |s'.chans| == |s.chans|
            && Off(s'.chans[k]) && s'.chans[k].dev == Device(0, false)
  {
    hide ResetCalibration;
    assert SetMode(s, MODE_NORMAL).0.chans == ResetAll(s.chans, false);
    SessionEdgeSwitchesOff(s.chans[k], false);
  }

  /**
    An accepted target write stores the target. It also switches the channel on
    if and only if the mode is AUTOMATIC, the target is not zero and no fault is
    active; otherwise the output stays as it was.
   */
  lemma TargetWriteEnables(s: Ctrl, k: nat, value: uint16)
    requires k < |s.chans| && s.chans[k].caps.rawDrive && value <= MAX_TARGET
    ensures var (s', st) := ChannelSetField(s, k, ConfiguredTarget, value);
            var c, c' := s.chans[k], s'.chans[k];
            && st == Ok && |s'.chans| == |s.chans| && c'.cfg == c.cfg.(target := value)
            && (if s.mode == MODE_AUTOMATIC && value != 0 && c.fault.active == {}
                then c'.drive.outputEnabled && c'.drive.ramping && !c'.drive.rampToDisable
                else c'.drive == c.drive)
            && s' == s.(chans := s.chans[k := c'])
  {
    hide HwCode, HwEnable;
  }

  // ---- Refusals ----

  // Which changes of mode are accepted, and why the others are not.
  lemma ModeAcceptedExactly(s: Ctrl, mode: uint16)
    requires s.mode <= MODE_CALIBRATION
    ensures var (s', st) := SetMode(s, mode);
            && (st == InvalidValue <==> mode > MODE_CALIBRATION)
            && (st == InvalidCommand <==> mode == MODE_CALIBRATION && s.mode != MODE_CALIBRATION && !s.unlocked)
            && (st == UnsafeState <==>
                  mode == MODE_AUTOMATIC && s.mode == MODE_NORMAL &&
                  exists k :: 0 <= k < |s.chans| && s.chans[k].fault.active != {})
            && (st == Ok || st == InvalidValue || st == InvalidCommand || st == UnsafeState)
            && s'.mode == (if st == Ok then mode else s.mode)
  {
    hide Transition;
  }

  // The gate a command to one channel has to pass before the channel decides.
  predicate Gate(s: Ctrl, e: Command)
    requires ToOneChannel(e)
  {
    && e.k < |s.chans|
    && (e.Act? ==> s.mode != MODE_CALIBRATION)
    && (e.CalFieldAt? || e.CalEnableAt? || e.CalDacAt? || e.CalSampleAt? ==> s.mode == MODE_CALIBRATION)
    && (e.CalEnableAt? && e.enable ==>
          forall j :: 0 <= j < |s.chans| && j != e.k ==> s.chans[j].session == CalSession(0, false))
  }

  function ChannelStatus(c: State, e: Command): Status
    requires ToOneChannel(e)
  {
    match e
    case Act(_, action) => OutputAction(c, action).1
    case FaultCommandAt(_, cmd) => FaultCommand(c, cmd).1
    case FieldAt(_, field, value) => SetField(c, field, value).1
    case CalFieldAt(_, field, value) => SetCalField(c, field, value).1
    case CalEnableAt(_, enable) => CalSetOutputEnable(c, enable).1
    case CalDacAt(_, code) => CalSetRawDac(c, code).1
    case CalSampleAt(_, v, i) => CalSample(c, v, i).1
    case FaultAt(_, _) => Ok
  }

  /**
    A command to one channel gets the channel's own answer if and only if the
    channel exists, the mode is right, and no other channel is in a calibration
    session; the other channels never change.
   */
  lemma RoutedExactly(s: Ctrl, e: Command)
    requires ToOneChannel(e) && !e.FaultAt?
    ensures var (s', st) := Do(s, e);
            && (Gate(s, e) ==> st == ChannelStatus(s.chans[e.k], e))
            && (!Gate(s, e) ==>
                  s' == s && st == (if e.k >= |s.chans| then UnsupportedChannel
                                    else if e.CalEnableAt? && s.mode == MODE_CALIBRATION then UnsafeState
                                    else InvalidCommand))
            && |s'.chans| == |s.chans|
            && forall j :: 0 <= j < |s.chans| && j != e.k ==> s'.chans[j] == s.chans[j]
  {
    hide OutputAction, FaultCommand, SetField, SetCalField, CalSetOutputEnable, CalSetRawDac, CalSample;
  }

  /**
    A refused command changes no channel, no stored record and not the mode.
    Only three leave a mark: a wrong unlock write (it resets the sequence), a
    commit the store did not take (it counts as activity), and a system
    configuration whose mode is refused (the rest of it is kept).
   */
  lemma RefusedChangesNoChannel(s: Ctrl, e: Command)
    requires Do(s, e).1 != Ok
    ensures var s' := Do(s, e).0;
            && s'.chans == s.chans && s'.mode == s.mode && s'.store == s.store && s'.preCal == s.preCal
            && (s'.watchdog != s.watchdog ==> e.CalCommitAt?)
            && (s'.unlockStep != s.unlockStep || s'.unlocked != s.unlocked ==> e.UnlockWrite?)
            && (s'.sys != s.sys ==> e.SystemConfigure? || e.SystemParams? || e.SystemField?)
  {
    hide Transition, AnyFaulted, RunChannels, LoadCal, InitChannels, HardFault, CapabilityAllows, ConfigInRange;
    hide OutputAction, FaultCommand, ConsumeFault, SetField, SetConfig;
    hide SetCalField, CalSetOutputEnable, CalSetRawDac, CalSample, CalCommit;
    if ToOneChannel(e) && e.k < |s.chans| {
      RefusedByChannel(s, e);
    } else if e.ChannelParams? && e.k < |s.chans| {
      assert s.chans[e.k := s.chans[e.k]] == s.chans;
    }
  }

  lemma RefusedByChannel(s: Ctrl, e: Command)
    requires ToOneChannel(e) && e.k < |s.chans| && Do(s, e).1 != Ok
    ensures Do(s, e).0 == s
  {
    hide HwCode, HwEnable, FieldStatus, HardFault;
    assert s.chans[e.k := s.chans[e.k]] == s.chans;
  }

  /**
    A write of the start-up policy is a whole system configuration with the
    stored mode, so during a session it ends the session.
   */
  lemma PolicyWriteEndsSession(s: Ctrl, value: uint16)
    requires s.mode == MODE_CALIBRATION && s.sys.mode < MODE_CALIBRATION
    ensures var (s', st) := SetSystemField(s, StartupChannelPolicy, value);
            && st == Ok && s'.mode == s.sys.mode && CalibrationClear(s'.chans)
            && s'.sys == s.sys.(startupPolicy := value)
  {
    hide Transition, CalibrationClear;
    LeavingClears(s.chans, s.sys.mode);
  }

  // ---- Sessions outside calibration ----

  // Outside calibration mode no channel holds a calibration output.
  predicate SessionsEnd(s: Ctrl) {
    s.mode != MODE_CALIBRATION ==> CalibrationClear(s.chans)
  }

  // Resets the mode under a session.
  predicate CutsSession(s: Ctrl, e: Command) {
    && s.mode == MODE_CALIBRATION && !CalibrationClear(s.chans)
    && e.SystemParams? && e.param == PARAM_FACTORY_RESET
  }

  lemma ConsumeKeepsSession(c: State, v: Option<int32>, i: Option<int32>)
    ensures Consume(c, v, i).session == c.session
  {
    hide HwCode, HwEnable, Gain, OverCurrent;
  }

  lemma RecoveryKeepsSession(c: State, mode: uint16, dt: uint32)
    ensures TickRecovery(c, mode, dt).session == c.session
  {
    hide HwCode, HwEnable, RetryAllowed, CountActiveRetries, SafeToClear;
  }

  lemma RampKeepsSession(c: State, dt: uint32)
    ensures TickRamp(c, dt).session == c.session
  {
    hide HwCode, HwEnable, RampMove;
  }

  lemma RunKeepsSession(c: State, dt: uint32, v: Option<int32>, i: Option<int32>, mode: uint16)
    ensures Run(c, dt, v, i, mode).session == c.session
  {
    hide Consume, TickRamp, TickRecovery;
    var c1 := Consume(Advance(c, dt), v, i);
    ConsumeKeepsSession(Advance(c, dt), v, i);
    RampKeepsSession(c1, dt);
    RecoveryKeepsSession(TickRamp(c1, dt), mode, dt);
  }

  lemma TransitionClears(cs: seq<State>, from: uint16, to: uint16)
    requires from != MODE_CALIBRATION ==> CalibrationClear(cs)
    ensures to < MODE_CALIBRATION ==> CalibrationClear(Transition(cs, from, to))
  {
    hide ResetCalibration, EnableIfWanted, OutputAction;
    if from == MODE_CALIBRATION {
      if to < MODE_CALIBRATION {
        LeavingClears(cs, to);
      }
    } else if to == MODE_NORMAL || to == MODE_AUTOMATIC {
      var c2 := if to == MODE_NORMAL && from == MODE_AUTOMATIC then DisableAll(cs) else cs;
      forall k | 0 <= k < |cs|
        ensures c2[k].session == cs[k].session && EnableIfWanted(c2[k]).session == c2[k].session
      {
        ActionKeepsSession(cs[k], ACTION_DISABLE_GRACEFUL);
        EnableKeepsSession(c2[k]);
      }
    }
  }

  lemma ActionKeepsSession(c: State, action: uint16)
    ensures OutputAction(c, action).0.session == c.session
  {
    hide HwCode, HwEnable;
  }

  lemma ModeKeepsSessionsEnd(s: Ctrl, mode: uint16)
    requires SessionsEnd(s)
    ensures SessionsEnd(SetMode(s, mode).0)
  {
    hide Transition, AnyFaulted, CalibrationClear;
    TransitionClears(s.chans, s.mode, mode);
  }

  lemma ConfigureKeepsSessionsEnd(s: Ctrl, cfg: SystemConfig)
    requires SessionsEnd(s)
    ensures SessionsEnd(SetSystemConfig(s, cfg).0)
  {
    hide SetMode, CalibrationClear;
    var sys := if cfg.mode == MODE_CALIBRATION then cfg.(mode := s.sys.mode) else cfg;
    ModeKeepsSessionsEnd(s.(sys := sys), cfg.mode);
  }

  lemma TickKeepsSessionsEnd(s: Ctrl, dt: uint32, rs: seq<Reading>)
    requires SessionsEnd(s)
    ensures SessionsEnd(Tick(s, dt, rs))
  {
    hide Run, SetMode;
    if s.mode == MODE_CALIBRATION {
      ModeKeepsSessionsEnd(s, s.preCal);
    } else {
      forall k | 0 <= k < |s.chans|
        ensures Run(s.chans[k], dt, ReadingAt(rs, k).v, ReadingAt(rs, k).i, s.sys.mode).session == s.chans[k].session
      {
        RunKeepsSession(s.chans[k], dt, ReadingAt(rs, k).v, ReadingAt(rs, k).i, s.sys.mode);
      }
    }
  }

  // A channel's own operations outside a session take none.
  lemma ChannelKeepsSession(c: State, action: uint16, cmd: uint16, field: ConfigField, value: uint16, cfg: Config)
    ensures OutputAction(c, action).0.session == c.session
    ensures FaultCommand(c, cmd).0.session == c.session
    ensures SetField(c, field, value).0.session == c.session
    ensures SetConfig(c, cfg).0.session == c.session
  {
    hide HwCode, HwEnable, FieldStatus, WithField, CapabilityAllows, ConfigInRange, SafeToClear;
  }

  lemma WithClear(s: Ctrl, k: nat, c: State)
    requires CalibrationClear(s.chans) && k < |s.chans| && c.session == CalSession(0, false)
    ensures CalibrationClear(WithChannel(s, k, c).chans)
  {
  }

  // Outside calibration mode a command to one channel takes no session.
  lemma ChannelCommandKeepsSession(s: Ctrl, e: Command)
    requires s.mode != MODE_CALIBRATION && CalibrationClear(s.chans) && ToOneChannel(e)
    ensures Do(s, e).0.mode == s.mode && CalibrationClear(Do(s, e).0.chans)
  {
    ToOneChannelFrame(s, e);
    if e.k < |s.chans| {
      var c := s.chans[e.k];
      assert c.session == CalSession(0, false);
      hide CalibrationClear, OutputAction, FaultCommand, ConsumeFault, SetField, SetConfig, WithChannel;
      match e {
        case Act(k, action) =>
          ActionKeepsSession(c, action);
          WithClear(s, k, OutputAction(c, action).0);
        case FaultCommandAt(k, cmd) =>
          ChannelKeepsSession(c, 0, cmd, RetryMax, 0, c.cfg);
          WithClear(s, k, FaultCommand(c, cmd).0);
        case FieldAt(k, field, value) =>
          ChannelKeepsSession(c, 0, 0, field, value, c.cfg);
          var c1 := SetField(c, field, value).0;
          ActionKeepsSession(c1, ACTION_ENABLE);
          WithClear(s, k, c1);
          WithClear(s, k, OutputAction(c1, ACTION_ENABLE).0);
        case FaultAt(k, cause) =>
          ReportedFaultSwitchesOff(c, cause);
          WithClear(s, k, ConsumeFault(c, cause));
        case _ =>
      }
    }
  }

  lemma ParamKeepsSession(s: Ctrl, k: nat, action: uint16, works: bool, calWorks: bool)
    requires CalibrationClear(s.chans)
    ensures var s' := ChannelParam(s, k, action, works, calWorks).0;
            s'.mode == s.mode && CalibrationClear(s'.chans)
  {
    hide SetConfig, HwCode, HwEnable;
    if k < |s.chans| {
      ConfigKeepsSession(s.chans[k], DefaultConfig());
      if k in s.store.cfgs {
        ConfigKeepsSession(s.chans[k], s.store.cfgs[k]);
      }
    }
  }

  lemma ConfigKeepsSession(c: State, cfg: Config)
    ensures SetConfig(c, cfg).0.session == c.session
  {
    hide CapabilityAllows, ConfigInRange, HwCode, HwEnable;
  }

  lemma InitClears(boards: seq<Board>, before: seq<State>)
    ensures CalibrationClear(InitChannels(boards, before))
  {
  }

  /**
    One command: afterwards no channel holds a calibration output outside
    calibration, except exactly when a system factory reset resets the mode
    under a session.
   */
  lemma SessionsEndExactly(s: Ctrl, e: Command)
    requires SessionsEnd(s)
    ensures SessionsEnd(Do(s, e).0) <==> !CutsSession(s, e)
  {
    hide SetMode, SetSystemConfig, RunChannels, SetConfig, LoadCal, InitChannels, CalibrationClear, CalCommit;
    hide ChannelAction, ChannelFaultCommand, ChannelSetField, ChannelFault, Tick;
    hide ChannelSetCalField, CalOutputEnable, CalRawDac, CalSampleChannel;
    if ToOneChannel(e) && s.mode != MODE_CALIBRATION {
      ChannelCommandKeepsSession(s, e);
    } else if e.ChannelParams? {
      if s.mode != MODE_CALIBRATION {
        ParamKeepsSession(s, e.k, e.param, e.works, e.calWorks);
      }
    } else if ToOneChannel(e) {
      ToOneChannelFrame(s, e);
    } else {
      match e {
        case Mode(mode) => ModeKeepsSessionsEnd(s, mode);
        case Exit => ModeKeepsSessionsEnd(s, s.preCal);
        case TickAll(dt, rs) => TickKeepsSessionsEnd(s, dt, rs);
        case SystemConfigure(cfg) => ConfigureKeepsSessionsEnd(s, cfg);
        case SystemField(_, value) =>
          ModeKeepsSessionsEnd(s, value);
          ConfigureKeepsSessionsEnd(s, s.sys.(startupPolicy := value));
        case SystemParams(_, _) => if s.store.sys.Some? { ConfigureKeepsSessionsEnd(s, s.store.sys.value); }
        case Restart => InitClears(s.boards, s.chans);
        case _ =>
      }
    }
  }

  ghost predicate SessionsAlwaysEnd(s: Ctrl, es: seq<Command>) {
    forall n :: 0 <= n <= |es| ==> SessionsEnd(DoAll(s, es[..n]))
  }

  ghost predicate NeverCuts(s: Ctrl, es: seq<Command>) {
    forall n :: 0 <= n < |es| ==> !CutsSession(DoAll(s, es[..n]), es[n])
  }

  // One more command of a run.
  lemma SessionsNext(s: Ctrl, es: seq<Command>)
    requires es != []
    ensures SessionsAlwaysEnd(s, es) <==> SessionsAlwaysEnd(s, es[..|es| - 1]) && SessionsEnd(DoAll(s, es))
  {
    hide SessionsEnd, DoAll;
    var before := es[..|es| - 1];
    assert forall n | 0 <= n <= |before| :: before[..n] == es[..n];
    assert es[..|es|] == es;
  }

  lemma CutsNext(s: Ctrl, es: seq<Command>)
    requires es != []
    ensures var last := |es| - 1;
            NeverCuts(s, es) <==> NeverCuts(s, es[..last]) && !CutsSession(DoAll(s, es[..last]), es[last])
  {
    hide CutsSession, DoAll;
    var before := es[..|es| - 1];
    assert forall n | 0 <= n < |before| :: before[..n] == es[..n] && before[n] == es[n];
  }

  lemma SessionsEndNow(s: Ctrl, es: seq<Command>)
    ensures SessionsAlwaysEnd(s, es) ==> SessionsEnd(DoAll(s, es))
  {
    hide SessionsEnd, DoAll;
    assert es[..|es|] == es;
  }

  /**
    Over every run (power-on starts one): no channel ever holds a calibration
    output outside calibration if and only if no system factory reset ever
    comes in a session.
   */
  lemma {:induction false} SessionsEndOnEveryRun(s: Ctrl, es: seq<Command>)
    requires SessionsEnd(s)
    ensures SessionsAlwaysEnd(s, es) <==> NeverCuts(s, es)
  {
    if es != [] {
      hide SessionsEnd, CutsSession, Do, SessionsAlwaysEnd, NeverCuts;
      var last := |es| - 1;
      var before := es[..last];
      SessionsEndOnEveryRun(s, before);
      SessionsNext(s, es);
      CutsNext(s, es);
      SessionsEndNow(s, before);
      if SessionsEnd(DoAll(s, before)) {
        SessionsEndExactly(DoAll(s, before), es[last]);
      }
    }
  }

  lemma BootSessionsEnd(boards: seq<Board>, hasStorage: bool, store: Store)
    ensures SessionsEnd(Boot(boards, hasStorage, store))
  {
    InitClears(boards, []);
  }

  // The raw code of a session drives the device.
  predicate DrivenByCode(s: Ctrl, k: nat, code: uint16) {
    k < |s.chans| && HwInv(s.chans[k]) && s.chans[k].session == CalSession(code, true)
  }

  lemma RunKeepsCode(c: State, dt: uint32, v: Option<int32>, i: Option<int32>, mode: uint16)
    requires HwInv(c)
    ensures HwInv(Run(c, dt, v, i, mode)) && Run(c, dt, v, i, mode).session == c.session
  {
    hide Run, HwInv, Exec;
    RunKeepsSession(c, dt, v, i, mode);
    RunIsMicroSteps(c, dt, v, i, mode);
    CoherentOnEveryRun(c, MicroSteps(dt, v, i, mode));
  }

  lemma {:induction false} CodeOutlivesTicks(s: Ctrl, es: seq<Command>, k: nat, code: uint16)
    requires s.mode == MODE_NORMAL && DrivenByCode(s, k, code)
    requires forall e | e in es :: e.TickAll?
    ensures DoAll(s, es).mode == MODE_NORMAL && DrivenByCode(DoAll(s, es), k, code)
  {
    hide Run, HwInv;
    if es != [] {
      var last := |es| - 1;
      assert es[last] in es;
      CodeOutlivesTicks(s, es[..last], k, code);
      var t, e := DoAll(s, es[..last]), es[last];
      RunKeepsCode(t.chans[k], e.dt, ReadingAt(e.readings, k).v, ReadingAt(e.readings, k).i, t.sys.mode);
    }
  }

  /**
    A system factory reset in a session leaves calibration mode, and with it the
    watchdog: however long the controller then runs and whatever it measures,
    the device is driven with the raw code of the session.
   */
  lemma ResetLeavesCodeDriven(s: Ctrl, works: bool, es: seq<Command>, k: nat, code: uint16)
    requires s.mode == MODE_CALIBRATION && DrivenByCode(s, k, code)
    requires forall e | e in es :: e.TickAll?
    ensures var s' := DoAll(Do(s, SystemParams(PARAM_FACTORY_RESET, works)).0, es);
            s'.mode == MODE_NORMAL && k < |s'.chans| && s'.chans[k].dev == Device(code, true)
  {
    hide DoAll;
    var s1 := Do(s, SystemParams(PARAM_FACTORY_RESET, works)).0;
    assert s1.mode == MODE_NORMAL && s1.chans == s.chans;
    CodeOutlivesTicks(s1, es, k, code);
  }

  // Unlock, enter, output on, raw code: reached on every board with raw drive.
  function Session(code: uint16): seq<Command> {
    [UnlockWrite(CAL_UNLOCK_STEP1), UnlockWrite(CAL_UNLOCK_STEP2), Mode(MODE_CALIBRATION),
     CalEnableAt(0, true), CalDacAt(0, code)]
  }

  lemma SessionIsReached(b: Board, hasStorage: bool, code: uint16)
    requires b.caps.rawDrive && code <= CAL_MAX_RAW_DAC
    ensures var s := DoAll(Boot([b], hasStorage, EMPTY_STORE), Session(code));
            s.mode == MODE_CALIBRATION && DrivenByCode(s, 0, code)
  {
    hide DoAll, Do, HwInv;
    var s0, es := Boot([b], hasStorage, EMPTY_STORE), Session(code);
    var s3 := Do(Do(Do(s0, es[0]).0, es[1]).0, es[2]).0;
    Unlocked(s0);
    var s4 := Do(s3, es[3]).0;
    Enabled(s3);
    Coded(s4, code);
    assert DoAll(s0, es) == Do(s4, es[4]).0 by { FiveCommands(s0, es); }
  }

  lemma FiveCommands(s: Ctrl, es: seq<Command>)
    requires |es| == 5
    ensures DoAll(s, es) == Do(Do(Do(Do(Do(s, es[0]).0, es[1]).0, es[2]).0, es[3]).0, es[4]).0
  {
    hide Do;
    assert es[..5] == es && es[..4][..3] == es[..3] && es[..3][..2] == es[..2] && es[..2][..1] == es[..1];
    assert DoAll(s, es[..1]) == Do(s, es[0]).0 by { assert es[..1][..0] == []; }
    assert DoAll(s, es[..2]) == Do(DoAll(s, es[..1]), es[1]).0;
    assert DoAll(s, es[..3]) == Do(DoAll(s, es[..2]), es[2]).0;
    assert DoAll(s, es[..4]) == Do(DoAll(s, es[..3]), es[3]).0;
  }

  // A healthy channel with raw drive in a fresh session.
  predicate InSession(s: Ctrl) {
    && s.mode == MODE_CALIBRATION && |s.chans| == 1
    && s.chans[0].caps.rawDrive && s.chans[0].fault.active == {} && s.chans[0].session.rawDac == 0
  }

  lemma Unlocked(s: Ctrl)
    requires s.mode == MODE_NORMAL && |s.chans| == 1
    requires s.chans[0].caps.rawDrive && s.chans[0].fault.active == {}
    ensures InSession(Do(Do(Do(s, UnlockWrite(CAL_UNLOCK_STEP1)).0, UnlockWrite(CAL_UNLOCK_STEP2)).0,
                            Mode(MODE_CALIBRATION)).0)
  {
    hide HwCode, HwEnable;
  }

  lemma Enabled(s: Ctrl)
    requires InSession(s)
    ensures InSession(Do(s, CalEnableAt(0, true)).0)
    ensures Do(s, CalEnableAt(0, true)).0.chans[0].session.calOutput
  {
    hide HwCode, HwEnable;
  }

  lemma Coded(s: Ctrl, code: uint16)
    requires InSession(s) && s.chans[0].session.calOutput && code <= CAL_MAX_RAW_DAC
    ensures var s' := Do(s, CalDacAt(0, code)).0;
            s'.mode == MODE_CALIBRATION && DrivenByCode(s', 0, code)
  {
    hide CalSetRawDac, HwInv;
    RawCodeExactly(s.chans[0], code);
  }
}
