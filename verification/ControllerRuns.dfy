/**
  Properties of whole controller runs: the calibration watchdog, the two-step
  unlock, entering AUTOMATIC, and what SAVE and LOAD preserve.
 */
module ControllerRuns {
  import opened CInt
  import opened VcTypes
  import opened Channel = ChannelSpec
  import opened ControllerSpec
  import opened ControllerInv
  import ChannelSafety
  import ChannelGains
  import ChannelRetry
  import opened Wrappers

  // ---- Entering AUTOMATIC ----

  lemma EnableAfterReset(c: State)
    ensures var c' := EnableIfWanted(ResetCalibration(c, false));
            c'.drive.outputEnabled <==> WantsOutput(c) && c.fault.active == {}
  {
    hide HwCode, HwEnable;
  }

  /**
    From CALIBRATION the change is never refused, and afterwards a channel's
    output is enabled if and only if it wants output and has no active fault.
   */
  lemma CalibrationToAutomatic(s: Ctrl)
    requires s.mode == MODE_CALIBRATION
    ensures var (s', st) := SetMode(s, MODE_AUTOMATIC);
            && st == Ok && s'.mode == MODE_AUTOMATIC && s'.sys.mode == MODE_AUTOMATIC
            && |s'.chans| == |s.chans|
            && forall k :: 0 <= k < |s.chans| ==>
                 (s'.chans[k].drive.outputEnabled <==> WantsOutput(s.chans[k]) && s.chans[k].fault.active == {})
  {
    hide ResetCalibration, EnableIfWanted, WantsOutput;
    var s' := SetMode(s, MODE_AUTOMATIC).0;
    assert s'.chans == EnableWanting(ResetAll(s.chans, false));
    forall k | 0 <= k < |s.chans|
      ensures s'.chans[k].drive.outputEnabled <==> WantsOutput(s.chans[k]) && s.chans[k].fault.active == {}
    {
      assert s'.chans[k] == EnableIfWanted(ResetCalibration(s.chans[k], false));
      EnableAfterReset(s.chans[k]);
    }
  }

  // From NORMAL it is refused exactly when some channel is faulted, and a
  // refusal changes nothing.
  lemma NormalToAutomatic(s: Ctrl)
    requires s.mode == MODE_NORMAL
    ensures var (s', st) := SetMode(s, MODE_AUTOMATIC);
            && (st == UnsafeState <==> exists k :: 0 <= k < |s.chans| && s.chans[k].fault.active != {})
            && (st == UnsafeState ==> s' == s)
            && (st != UnsafeState ==> st == Ok && s'.mode == MODE_AUTOMATIC)
  {
  }

  // ---- Leaving calibration ----

  predicate CalibrationClear(cs: seq<State>) {
    forall k :: 0 <= k < |cs| ==> !cs[k].session.calOutput && cs[k].session.rawDac == 0
  }

  lemma EnableKeepsSession(c: State)
    ensures EnableIfWanted(c).session == c.session
  {
    hide HwCode, HwEnable;
  }

  lemma LeavingClears(cs: seq<State>, to: uint16)
    requires to < MODE_CALIBRATION
    ensures CalibrationClear(Transition(cs, MODE_CALIBRATION, to))
  {
    hide ResetCalibration, EnableIfWanted;
    var cs' := Transition(cs, MODE_CALIBRATION, to);
    var c1 := ResetAll(cs, false);
    forall k | 0 <= k < |cs| ensures !cs'[k].session.calOutput && cs'[k].session.rawDac == 0 {
      ResetClears(cs[k]);
      EnableKeepsSession(c1[k]);
      if to == MODE_AUTOMATIC {
        assert cs'[k] == EnableIfWanted(c1[k]);
      }
    }
  }

  lemma ResetClears(c: State)
    ensures ResetCalibration(c, false).session == CalSession(0, false)
  {
  }

  // ---- The calibration watchdog ----

  // The command was accepted as calibration activity.
  predicate Accepted(s: Ctrl, e: Command) {
    var st := Do(s, e).1;
    match e
    case CalFieldAt(_, _, _) => st == Ok
    case CalEnableAt(_, _) => st == Ok
    case CalDacAt(_, _) => st == Ok
    case CalSampleAt(_, _, _) => st == Ok
    case CalCommitAt(_, _) => st == Ok || st == StorageError
    case Beat => true
    case Mode(mode) => mode == MODE_CALIBRATION
    case SystemField(field, value) => field == OperatingMode && value == MODE_CALIBRATION
    case _ => false
  }

  // Tick time since the last accepted calibration command of the run.
  function Idle(s: Ctrl, es: seq<Command>): nat {
    if es == [] then 0
    else
      var last := |es| - 1;
      var e := es[last];
      if Accepted(DoAll(s, es[..last]), e) then 0
      else Idle(s, es[..last]) + if e.TickAll? then e.dt else 0
  }

  ghost predicate StaysInCalibration(s: Ctrl, es: seq<Command>) {
    forall n :: 0 <= n <= |es| ==> DoAll(s, es[..n]).mode == MODE_CALIBRATION
  }

  lemma WatchdogStep(s: Ctrl, e: Command)
    requires s.mode == MODE_CALIBRATION && Do(s, e).0.mode == MODE_CALIBRATION && ModeInv(s)
    ensures Do(s, e).0.preCal == s.preCal
    ensures Do(s, e).0.watchdog ==
            if Accepted(s, e) then WATCHDOG_MS else if e.TickAll? then s.watchdog - e.dt else s.watchdog
  {
    hide Transition, RunChannels, SetField, SetConfig, OutputAction, FaultCommand, ConsumeFault;
    hide SetCalField, CalSetOutputEnable, CalSetRawDac, CalSample, LoadCal;
  }

  /**
    While a session lasts: the remaining time plus the tick time since the last
    accepted calibration command equals the timeout, and time remains. `s` is
    the state right after entering (or after such a command).
   */
  lemma {:induction false} WatchdogAccounting(s: Ctrl, es: seq<Command>)
    requires CtrlInv(s, false) && s.watchdog == WATCHDOG_MS
    requires StaysInCalibration(s, es)
    ensures var s' := DoAll(s, es);
            && s'.watchdog + Idle(s, es) == WATCHDOG_MS && s'.watchdog > 0
            && s'.preCal == s.preCal && CtrlInv(s', false)
  {
    hide CtrlInv, Do, Accepted;
    InvOnEveryRun(s, es, false);
    InvGivesMode(DoAll(s, es));
    assert es[..|es|] == es;
    if es != [] {
      var last := |es| - 1;
      var before := es[..last];
      assert forall n | 0 <= n <= last :: before[..n] == es[..n];
      WatchdogAccounting(s, before);
      InvGivesMode(DoAll(s, before));
      WatchdogStep(DoAll(s, before), es[last]);
    }
  }

  lemma InvGivesMode(s: Ctrl)
    requires CtrlInv(s, false)
    ensures ModeInv(s)
  {
    hide ChansInv, StoreInv, BoardOk;
  }

  /**
    In calibration a tick leaves exactly when it reaches the remaining time.
    Leaving always succeeds: the mode of before the session is back, live and
    in the system configuration, it is not calibration, and every channel has
    calibration output and raw code zero.
   */
  lemma WatchdogExpiry(s: Ctrl, dt: uint32, rs: seq<Reading>)
    requires s.mode == MODE_CALIBRATION && ModeInv(s)
    ensures var s' := Tick(s, dt, rs);
            if dt >= s.watchdog
            then s'.mode == s'.sys.mode == s.preCal && s.preCal != MODE_CALIBRATION && CalibrationClear(s'.chans)
            else s'.mode == MODE_CALIBRATION && s'.chans == s.chans
  {
    hide Transition, CalibrationClear;
    LeavingClears(s.chans, s.preCal);
  }

  /**
    A whole session from the command that enters it: the first tick that makes
    the idle time reach the timeout ends it and restores the mode of before.
   */
  lemma WatchdogEndsSession(s0: Ctrl, enter: Command, es: seq<Command>, dt: uint32, rs: seq<Reading>)
    requires CtrlInv(s0, false) && s0.mode != MODE_CALIBRATION
    requires StaysInCalibration(Do(s0, enter).0, es)
    ensures var s := DoAll(Do(s0, enter).0, es);
            var s' := Tick(s, dt, rs);
            && (s'.mode != MODE_CALIBRATION <==> Idle(Do(s0, enter).0, es) + dt >= WATCHDOG_MS)
            && (s'.mode != MODE_CALIBRATION ==>
                  s'.mode == s'.sys.mode == s0.mode && CalibrationClear(s'.chans))
  {
    hide CtrlInv, Do, Tick, CalibrationClear;
    var s1 := Do(s0, enter).0;
    assert es[..0] == [];
    assert DoAll(s1, es[..0]) == s1;
    DoKeeps(s0, enter, false);
    EntryResets(s0, enter);
    WatchdogAccounting(s1, es);
    InvGivesMode(DoAll(s1, es));
    assert es[..|es|] == es;
    WatchdogExpiry(DoAll(s1, es), dt, rs);
  }

  lemma EntryResets(s: Ctrl, e: Command)
    requires s.mode != MODE_CALIBRATION && Do(s, e).0.mode == MODE_CALIBRATION
    ensures Do(s, e).0.watchdog == WATCHDOG_MS && Do(s, e).0.preCal == s.mode
  {
    hide Transition, RunChannels, SetField, SetConfig, OutputAction, FaultCommand, ConsumeFault;
    hide SetCalField, CalSetOutputEnable, CalSetRawDac, CalSample, CalCommit, LoadCal;
  }

  // ---- The two-step unlock ----

  predicate Enters(s: Ctrl, e: Command) {
    s.mode != MODE_CALIBRATION && Do(s, e).0.mode == MODE_CALIBRATION
  }

  // The unlock writes since power-on or the previous entry into calibration.
  function UnlockWrites(s: Ctrl, es: seq<Command>): seq<uint16> {
    if es == [] then []
    else
      var last := |es| - 1;
      var e := es[last];
      if e.Restart? || Enters(DoAll(s, es[..last]), e) then []
      else UnlockWrites(s, es[..last]) + if e.UnlockWrite? then [e.value] else []
  }

  predicate EndsUnlocked(ws: seq<uint16>) {
    |ws| >= 2 && ws[|ws| - 2] == CAL_UNLOCK_STEP1 && ws[|ws| - 1] == CAL_UNLOCK_STEP2
  }

  predicate UnlockTracks(s: Ctrl, ws: seq<uint16>) {
    && (s.unlocked <==> EndsUnlocked(ws))
    && (s.unlockStep == 1 <==> |ws| >= 1 && ws[|ws| - 1] == CAL_UNLOCK_STEP1)
  }

  predicate ToOneChannel(e: Command) {
    || e.Act? || e.FaultCommandAt? || e.FieldAt? || e.FaultAt?
    || e.CalFieldAt? || e.CalEnableAt? || e.CalDacAt? || e.CalSampleAt?
  }

  // A command to one channel changes channels and the watchdog, nothing else.
  lemma ToOneChannelFrame(s: Ctrl, e: Command)
    requires ToOneChannel(e)
    ensures var s' := Do(s, e).0; s' == s.(chans := s'.chans, watchdog := s'.watchdog)
  {
    hide SetField, OutputAction, FaultCommand, ConsumeFault;
    hide SetCalField, CalSetOutputEnable, CalSetRawDac, CalSample;
  }

  // Only unlock writes, an entry and a restart touch the unlock state.
  lemma UnlockUntouched(s: Ctrl, e: Command)
    requires !e.UnlockWrite? && !e.Restart?
    ensures UnlockFrame(s, Do(s, e).0)
  {
    hide SetMode, RunChannels, SetConfig, CalCommit, LoadCal, InitChannels;
    hide ChannelAction, ChannelFaultCommand, ChannelSetField, ChannelFault;
    hide ChannelSetCalField, CalOutputEnable, CalRawDac, CalSampleChannel;
    if ToOneChannel(e) {
      ToOneChannelFrame(s, e);
    } else {
      match e {
        case Mode(mode) => ModeUnlockFrame(s, mode);
        case Exit => ModeUnlockFrame(s, s.preCal);
        case TickAll(_, _) => ModeUnlockFrame(s, s.preCal);
        case SystemConfigure(cfg) => ConfigureUnlockFrame(s, cfg);
        case SystemField(_, value) =>
          ModeUnlockFrame(s, value);
          ConfigureUnlockFrame(s, s.sys.(startupPolicy := value));
        case SystemParams(_, _) => if s.store.sys.Some? { ConfigureUnlockFrame(s, s.store.sys.value); }
        case _ =>
      }
    }
  }

  // Entering calibration uses the unlock up; nothing else changes it.
  predicate UnlockFrame(s: Ctrl, s': Ctrl) {
    if s.mode != MODE_CALIBRATION && s'.mode == MODE_CALIBRATION
    then !s'.unlocked && s'.unlockStep == 0
    else s'.unlocked == s.unlocked && s'.unlockStep == s.unlockStep
  }

  lemma ModeUnlockFrame(s: Ctrl, mode: uint16)
    ensures UnlockFrame(s, SetMode(s, mode).0)
  {
    hide Transition, AnyFaulted;
  }

  lemma ConfigureUnlockFrame(s: Ctrl, cfg: SystemConfig)
    ensures UnlockFrame(s, SetSystemConfig(s, cfg).0)
  {
    hide SetMode;
    var sys := if cfg.mode == MODE_CALIBRATION then cfg.(mode := s.sys.mode) else cfg;
    ModeUnlockFrame(s.(sys := sys), cfg.mode);
  }

  lemma UnlockStep(s: Ctrl, e: Command, ws: seq<uint16>)
    requires UnlockTracks(s, ws)
    ensures UnlockTracks(Do(s, e).0,
                         if e.Restart? || Enters(s, e) then []
                         else ws + if e.UnlockWrite? then [e.value] else [])
  {
    hide SetMode, SystemParam, ChannelParam, Tick, SetSystemConfig;
    if e.UnlockWrite? {
      var ws' := ws + [e.value];
      assert |ws| >= 1 ==> ws'[|ws'| - 2] == ws[|ws| - 1];
    } else if !e.Restart? {
      UnlockUntouched(s, e);
      assert ws + [] == ws;
    }
  }

  // The host asks for calibration, directly or with a system configuration.
  predicate AsksForCalibration(e: Command) {
    || e == Mode(MODE_CALIBRATION)
    || e == SystemField(OperatingMode, MODE_CALIBRATION)
    || (e.SystemConfigure? && e.cfg.mode == MODE_CALIBRATION)
  }

  lemma EntryStep(s: Ctrl, e: Command)
    requires s.mode != MODE_CALIBRATION && s.sys.mode != MODE_CALIBRATION
    requires s.store.sys.Some? ==> s.store.sys.value.mode != MODE_CALIBRATION
    ensures Do(s, e).0.mode == MODE_CALIBRATION <==> AsksForCalibration(e) && s.unlocked
  {
    hide Transition, RunChannels, SetConfig, CalCommit, LoadCal, InitChannels;
    hide ChannelAction, ChannelFaultCommand, ChannelSetField, ChannelFault;
    hide ChannelSetCalField, CalOutputEnable, CalRawDac, CalSampleChannel;
    if ToOneChannel(e) {
      ToOneChannelFrame(s, e);
    }
  }

  lemma EntryNeedsUnlock(s: Ctrl, e: Command)
    requires s.mode != MODE_CALIBRATION && CtrlInv(s, false)
    ensures Do(s, e).0.mode == MODE_CALIBRATION <==> AsksForCalibration(e) && s.unlocked
  {
    hide Do, ChansInv, BoardOk;
    EntryStep(s, e);
  }

  lemma {:induction false} UnlockTracksRun(s: Ctrl, es: seq<Command>)
    requires UnlockTracks(s, [])
    ensures UnlockTracks(DoAll(s, es), UnlockWrites(s, es))
  {
    hide Do, UnlockTracks;
    if es != [] {
      var last := |es| - 1;
      UnlockTracksRun(s, es[..last]);
      UnlockStep(DoAll(s, es[..last]), es[last], UnlockWrites(s, es[..last]));
    }
  }

  /**
    Whatever commands are interleaved: from another mode a command enters
    calibration exactly when it asks for it and the last two unlock writes
    since the previous entry are step 1 then step 2.
   */
  lemma UnlockLanguage(boards: seq<Board>, hasStorage: bool, es: seq<Command>, e: Command)
    requires forall k :: 0 <= k < |boards| ==> BoardOk(boards[k], false)
    requires DoAll(Boot(boards, hasStorage, EMPTY_STORE), es).mode != MODE_CALIBRATION
    ensures var s0 := Boot(boards, hasStorage, EMPTY_STORE);
            Do(DoAll(s0, es), e).0.mode == MODE_CALIBRATION <==>
            AsksForCalibration(e) && EndsUnlocked(UnlockWrites(s0, es))
  {
    hide CtrlInv, Do;
    var s0 := Boot(boards, hasStorage, EMPTY_STORE);
    PowerOn(boards, hasStorage, false);
    InvOnEveryRun(s0, es, false);
    UnlockTracksRun(s0, es);
    EntryNeedsUnlock(DoAll(s0, es), e);
  }

  // The mode that SAVE persists is never calibration.
  lemma SavedModeIsNeverCalibration(boards: seq<Board>, hasStorage: bool, es: seq<Command>)
    requires forall k :: 0 <= k < |boards| ==> BoardOk(boards[k], false)
    ensures var s := DoAll(Boot(boards, hasStorage, EMPTY_STORE), es);
            && s.sys.mode != MODE_CALIBRATION
            && (s.store.sys.Some? ==> s.store.sys.value.mode != MODE_CALIBRATION)
  {
    hide ChansInv, BoardOk;
    PowerOn(boards, hasStorage, false);
    InvOnEveryRun(Boot(boards, hasStorage, EMPTY_STORE), es, false);
  }

  // ---- SAVE, run, LOAD ----

  // The command may rewrite or erase the stored configuration of channel `k`.
  predicate TouchesRecord(e: Command, k: nat) {
    || (e.ChannelParams? && e.k == k && e.param == PARAM_SAVE)
    || (e.SystemParams? && e.param == PARAM_FACTORY_RESET)
  }

  lemma ModeKeepsStore(s: Ctrl, mode: uint16)
    ensures var s' := SetMode(s, mode).0;
            s'.hasStorage == s.hasStorage && s'.boards == s.boards && s'.store == s.store
  {
    hide Transition, AnyFaulted;
  }

  lemma ConfigureKeepsStore(s: Ctrl, cfg: SystemConfig)
    ensures var s' := SetSystemConfig(s, cfg).0;
            s'.hasStorage == s.hasStorage && s'.boards == s.boards && s'.store == s.store
  {
    hide SetMode;
    var sys := if cfg.mode == MODE_CALIBRATION then cfg.(mode := s.sys.mode) else cfg;
    ModeKeepsStore(s.(sys := sys), cfg.mode);
  }

  lemma RecordStep(s: Ctrl, e: Command, k: nat)
    requires !TouchesRecord(e, k)
    ensures var s' := Do(s, e).0;
            && s'.hasStorage == s.hasStorage && s'.boards == s.boards
            && (k in s.store.cfgs ==> k in s'.store.cfgs && s'.store.cfgs[k] == s.store.cfgs[k])
  {
    hide SetMode, RunChannels, SetConfig, CalCommit, LoadCal, InitChannels;
    hide ChannelAction, ChannelFaultCommand, ChannelSetField, ChannelFault;
    hide ChannelSetCalField, CalOutputEnable, CalRawDac, CalSampleChannel;
    if ToOneChannel(e) {
      ToOneChannelFrame(s, e);
    } else {
      match e {
        case Mode(mode) => ModeKeepsStore(s, mode);
        case Exit => ModeKeepsStore(s, s.preCal);
        case TickAll(_, _) => ModeKeepsStore(s, s.preCal);
        case SystemConfigure(cfg) => ConfigureKeepsStore(s, cfg);
        case SystemField(_, value) =>
          ModeKeepsStore(s, value);
          ConfigureKeepsStore(s, s.sys.(startupPolicy := value));
        case SystemParams(_, _) => if s.store.sys.Some? { ConfigureKeepsStore(s, s.store.sys.value); }
        case _ =>
      }
    }
  }

  lemma {:induction false} RecordKept(s: Ctrl, es: seq<Command>, k: nat)
    requires k in s.store.cfgs && forall e | e in es :: !TouchesRecord(e, k)
    ensures var s' := DoAll(s, es);
            && s'.hasStorage == s.hasStorage && s'.boards == s.boards
            && k in s'.store.cfgs && s'.store.cfgs[k] == s.store.cfgs[k]
  {
    hide Do;
    if es != [] {
      var last := |es| - 1;
      RecordKept(s, es[..last], k);
      RecordStep(DoAll(s, es[..last]), es[last], k);
    }
  }

  // Two configurations a channel can hold allow each other.
  lemma HeldConfigsAllowEachOther(caps: Caps, a: Config, b: Config, base: Config)
    requires ConfigOk(caps, a, base) && ConfigOk(caps, b, base)
    ensures CapabilityAllows(caps, a, b) && ConfigInRange(b)
  {
  }

  lemma LoadAccepted(s: Ctrl, k: nat, calWorks: bool)
    requires CtrlInv(s, false) && s.hasStorage && k in s.store.cfgs
    ensures var (s', st) := ChannelParam(s, k, PARAM_LOAD, true, calWorks);
            st == Ok && k < |s'.chans| && s'.chans[k].cfg == s.store.cfgs[k]
  {
    hide BoardOk, HwCode, HwEnable;
    var c, base := s.chans[k], s.boards[k].cfg;
    assert Owned(c, s.boards[k], false);
    HeldConfigsAllowEachOther(c.caps, c.cfg, s.store.cfgs[k], base);
  }

  /**
    SAVE, then any run (further commands, ticks, faults, other loads, factory
    resets of the channel, even restarts), then LOAD restores exactly the saved
    configuration: the capability check against whatever the channel holds by
    then cannot refuse what it once held.
   */
  lemma SaveRunLoad(s: Ctrl, k: nat, es: seq<Command>, calWorks: bool)
    requires CtrlInv(s, false) && s.hasStorage && k < |s.chans|
    requires forall e | e in es :: !TouchesRecord(e, k)
    ensures var s1 := ChannelParam(s, k, PARAM_SAVE, true, true).0;
            var (s3, st) := ChannelParam(DoAll(s1, es), k, PARAM_LOAD, true, calWorks);
            st == Ok && k < |s3.chans| && s3.chans[k].cfg == s.chans[k].cfg
  {
    hide CtrlInv, Do;
    var s1 := ChannelParam(s, k, PARAM_SAVE, true, true).0;
    ChannelParamKeeps(s, k, PARAM_SAVE, true, true, false);
    assert k in s1.store.cfgs && s1.store.cfgs[k] == s.chans[k].cfg;
    RecordKept(s1, es, k);
    InvOnEveryRun(s1, es, false);
    LoadAccepted(DoAll(s1, es), k, calWorks);
  }

  // ---- Gains and interlock over runs ----

  predicate FitsInt64(x: int) {
    -INT64_MAX <= x <= INT64_MAX
  }

  // Every intermediate value of a gain fits, and the power table is indexed in range.
  predicate GainSafe(raw: int32, mantissa: uint16, exp: int16) {
    && -9 <= exp <= 9
    && FitsInt64(raw * mantissa)
    && (exp > 0 ==> FitsInt64(raw * mantissa * Pow10(exp)))
    && FitsInt64(Gain(raw, mantissa, exp))
  }

  lemma CalibrationIsSafe(cal: Calibration, raw: int32)
    requires CalibrationOk(cal)
    ensures GainSafe(raw, cal.outputK, cal.outputKExp)
    ensures GainSafe(raw, cal.voltageK, cal.voltageKExp)
    ensures GainSafe(raw, cal.currentK, cal.currentKExp)
  {
    ChannelGains.GainFitsInt64(raw, cal.outputK, cal.outputKExp);
    ChannelGains.GainFitsInt64(raw, cal.voltageK, cal.voltageKExp);
    ChannelGains.GainFitsInt64(raw, cal.currentK, cal.currentKExp);
  }

  /**
    In every reachable state: the gains cannot overflow whatever is read, the
    calibration output is held by at most one channel, a raw code only by a
    channel whose calibration output is enabled, and that one has no hardware
    or interlock fault.
   */
  lemma ReachableIsSafe(boards: seq<Board>, hasStorage: bool, es: seq<Command>, k: nat, raw: int32)
    requires forall j :: 0 <= j < |boards| ==> BoardOk(boards[j], false)
    requires k < |boards|
    ensures var cs := DoAll(Boot(boards, hasStorage, EMPTY_STORE), es).chans;
            && |cs| == |boards|
            && GainSafe(raw, cs[k].cal.outputK, cs[k].cal.outputKExp)
            && GainSafe(raw, cs[k].cal.voltageK, cs[k].cal.voltageKExp)
            && GainSafe(raw, cs[k].cal.currentK, cs[k].cal.currentKExp)
            && (cs[k].session.rawDac != 0 ==> cs[k].session.calOutput)
            && (cs[k].session.calOutput ==> !HardFault(cs[k].fault.active))
            && (Busy(cs[k]) ==> forall j :: 0 <= j < |cs| && j != k ==> !Busy(cs[j]))
  {
    hide BoardOk, GainSafe, ConfigOk;
    var s := Boot(boards, hasStorage, EMPTY_STORE);
    PowerOn(boards, hasStorage, false);
    InvOnEveryRun(s, es, false);
    BoardsKept(s, es);
    var cs := DoAll(s, es).chans;
    assert Owned(cs[k], boards[k], false);
    CalibrationIsSafe(cs[k].cal, raw);
  }

  // Every channel of every reachable controller keeps its retry log and stays
  // within the configurations it may hold.
  lemma ReachableChannels(boards: seq<Board>, hasStorage: bool, es: seq<Command>, k: nat)
    requires forall j :: 0 <= j < |boards| ==> BoardOk(boards[j], false)
    requires k < |boards|
    ensures var cs := DoAll(Boot(boards, hasStorage, EMPTY_STORE), es).chans;
            && |cs| == |boards|
            && ChannelRetry.RetryInv(cs[k])
            && ChannelSafety.RangeInv(cs[k])
            && ConfigOk(boards[k].caps, cs[k].cfg, boards[k].cfg)
  {
    hide BoardOk, ConfigOk, ChannelRetry.RetryInv, ChannelSafety.RangeInv;
    var s := Boot(boards, hasStorage, EMPTY_STORE);
    PowerOn(boards, hasStorage, false);
    InvOnEveryRun(s, es, false);
    BoardsKept(s, es);
    assert Owned(DoAll(s, es).chans[k], boards[k], false);
  }

  // The safety of each channel, for hosts and builds that keep to the
  // supported ramp steps.
  lemma ReachableSafety(boards: seq<Board>, hasStorage: bool, es: seq<Command>, k: nat)
    requires forall j :: 0 <= j < |boards| ==> BoardOk(boards[j], true)
    requires forall e | e in es :: CommandOk(e, true)
    requires k < |boards|
    ensures var cs := DoAll(Boot(boards, hasStorage, EMPTY_STORE), es).chans;
            |cs| == |boards| && ChannelSafety.SafetyInv(cs[k])
  {
    hide BoardOk, ConfigOk, ChannelSafety.SafetyInv, ChannelRetry.RetryInv;
    var s := Boot(boards, hasStorage, EMPTY_STORE);
    PowerOn(boards, hasStorage, true);
    InvOnEveryRun(s, es, true);
    BoardsKept(s, es);
    assert Owned(DoAll(s, es).chans[k], boards[k], true);
  }

  lemma {:induction false} BoardsKept(s: Ctrl, es: seq<Command>)
    ensures DoAll(s, es).boards == s.boards
  {
    hide Do;
    if es != [] {
      var last := |es| - 1;
      BoardsKept(s, es[..last]);
      BoardsStep(DoAll(s, es[..last]), es[last]);
    }
  }

  lemma BoardsStep(s: Ctrl, e: Command)
    ensures Do(s, e).0.boards == s.boards
  {
    hide Transition, RunChannels, SetConfig, CalCommit, LoadCal, InitChannels;
    hide ChannelAction, ChannelFaultCommand, ChannelSetField, ChannelFault;
    hide ChannelSetCalField, CalOutputEnable, CalRawDac, CalSampleChannel;
    if ToOneChannel(e) {
      ToOneChannelFrame(s, e);
    }
  }
}
