/**
  What every reachable controller state satisfies, jointly over the channels
  and the stored records: LOAD does not re-check what SAVE wrote, so the range
  invariants hold only of the two together.
 */
module ControllerInv {
  import opened CInt
  import opened VcTypes
  import opened Channel = ChannelSpec
  import opened ControllerSpec
  import opened ChannelSafety
  import ChannelRetry
  import opened Wrappers

  // ---- One channel ----

  // A configuration the channel can hold when `base` is its first one.
  predicate ConfigOk(caps: Caps, cfg: Config, base: Config) {
    && ConfigInRange(cfg)
    && cfg.retryMax <= MAX_RETRY_HISTORY
    && CapabilityAllows(caps, base, cfg)
  }

  predicate SessionInv(c: State) {
    && (c.session.rawDac != 0 ==> c.session.calOutput)
    && (c.session.calOutput ==> !HardFault(c.fault.active))
  }

  predicate Busy(c: State) {
    c.session.calOutput || c.session.rawDac != 0
  }

  // `strict` adds the ramp-step bound and all that follows from it.
  predicate ChannelInv(c: State, base: Config, strict: bool) {
    && ChannelRetry.RetryInv(c)
    && RangeInv(c)
    && CalibrationOk(c.cal)
    && SessionInv(c)
    && ConfigOk(c.caps, c.cfg, base)
    && (strict ==> SafetyInv(c))
  }

  // SetConfig does not re-check the retry limit that SetField enforces; stored
  // records and the defaults respect it.
  predicate LimitChecked(e: Event) {
    e.Configure? ==> e.cfg.retryMax <= MAX_RETRY_HISTORY
  }

  predicate EventOk(e: Event, strict: bool) {
    && LimitChecked(e)
    && (e.CalLoad? ==> CalibrationOk(e.cal))
    && (strict ==> Admissible(e))
  }

  lemma FieldConfigStays(c: State, field: ConfigField, value: uint16, base: Config)
    requires ConfigOk(c.caps, c.cfg, base)
    ensures SetField(c, field, value).0.caps == c.caps && ConfigOk(c.caps, SetField(c, field, value).0.cfg, base)
  {
    FieldWrite(c, field, value);
    match field { case _ => }
  }

  lemma ConfigureStays(c: State, cfg: Config, base: Config)
    requires ConfigOk(c.caps, c.cfg, base) && cfg.retryMax <= MAX_RETRY_HISTORY
    ensures SetConfig(c, cfg).0.caps == c.caps && ConfigOk(c.caps, SetConfig(c, cfg).0.cfg, base)
  {
  }

  lemma ConfigStays(c: State, e: Event, base: Config)
    requires ConfigOk(c.caps, c.cfg, base) && LimitChecked(e)
    ensures Step(c, e).caps == c.caps && ConfigOk(c.caps, Step(c, e).cfg, base)
  {
    hide ConfigOk, SetField, SetConfig;
    match e {
      case Field(field, value) => FieldConfigStays(c, field, value, base);
      case Configure(cfg) => ConfigureStays(c, cfg, base);
      case _ => OnlyWritesConfigure(c, e);
    }
  }

  lemma CalibrationStays(c: State, e: Event)
    requires CalibrationOk(c.cal) && (e.CalLoad? ==> CalibrationOk(e.cal))
    ensures CalibrationOk(Step(c, e).cal)
  {
    hide HwCode, HwEnable, Gain;
    match e {
      case CalWrite(field, value) =>
        match field { case _ => }
      case CalLoad(_) =>
      case _ => assert Step(c, e).cal == c.cal;
    }
  }

  lemma SessionStays(c: State, e: Event)
    requires SessionInv(c)
    ensures SessionInv(Step(c, e))
    ensures Busy(Step(c, e)) ==> Busy(c) || e == CalEnable(true)
  {
    hide HwCode, HwEnable, Gain;
  }

  // Every channel event keeps the invariant and frees, never takes, the
  // calibration output, except the explicit enable.
  lemma ChannelStep(c: State, e: Event, base: Config, strict: bool)
    requires ChannelInv(c, base, strict) && EventOk(e, strict)
    ensures ChannelInv(Step(c, e), base, strict) && Step(c, e).caps == c.caps
    ensures Busy(Step(c, e)) ==> Busy(c) || e == CalEnable(true)
  {
    hide Step, SafetyInv, RangeInv, ChannelRetry.RetryInv, SessionInv, Busy;
    ChannelRetry.StepKeepsRetry(c, e);
    StepKeepsRange(c, e);
    CalibrationStays(c, e);
    SessionStays(c, e);
    ConfigStays(c, e, base);
    if strict {
      StepKeepsSafety(c, e);
    }
  }

  // ---- All channels ----

  predicate BoardOk(b: Board, strict: bool) {
    && ConfigOk(b.caps, b.cfg, b.cfg)
    && CalibrationOk(b.cal)
    && (strict ==> StepsSafe(b.cfg))
  }

  predicate Owned(c: State, b: Board, strict: bool) {
    c.caps == b.caps && ChannelInv(c, b.cfg, strict)
  }

  // At most one channel has its calibration output enabled or a raw code set.
  predicate Interlock(cs: seq<State>) {
    forall i, j :: 0 <= i < |cs| && 0 <= j < |cs| && Busy(cs[i]) && Busy(cs[j]) ==> i == j
  }

  predicate ChansInv(boards: seq<Board>, cs: seq<State>, strict: bool) {
    && |cs| == |boards|
    && (forall k :: 0 <= k < |cs| ==> Owned(cs[k], boards[k], strict))
    && Interlock(cs)
  }

  predicate StoreInv(boards: seq<Board>, store: Store, strict: bool) {
    && (store.sys.Some? ==> store.sys.value.mode != MODE_CALIBRATION)
    && (forall k :: k in store.cfgs ==>
          && k < |boards|
          && ConfigOk(boards[k].caps, store.cfgs[k], boards[k].cfg)
          && (strict ==> StepsSafe(store.cfgs[k])))
    && (forall k :: k in store.cals ==> CalibrationOk(store.cals[k]))
  }

  // The persisted mode is never calibration; in calibration the mode to
  // return to is not calibration and time is left on the watchdog.
  predicate ModeInv(s: Ctrl) {
    && s.mode <= MODE_CALIBRATION
    && s.sys.mode != MODE_CALIBRATION
    && (s.mode == MODE_CALIBRATION ==> s.preCal < MODE_CALIBRATION && 0 < s.watchdog <= WATCHDOG_MS)
  }

  predicate CtrlInv(s: Ctrl, strict: bool) {
    && (forall k :: 0 <= k < |s.boards| ==> BoardOk(s.boards[k], strict))
    && ChansInv(s.boards, s.chans, strict)
    && StoreInv(s.boards, s.store, strict)
    && ModeInv(s)
  }

  // What `strict` asks of the host and of the build.
  predicate CommandOk(e: Command, strict: bool) {
    strict ==>
      && (e.FieldAt? ==> Admissible(Event.Field(e.field, e.fieldValue)))
      && StepsSafe(DefaultConfig())
  }

  lemma OneChannel(boards: seq<Board>, cs: seq<State>, k: nat, c: State, strict: bool)
    requires ChansInv(boards, cs, strict) && k < |cs| && Owned(c, boards[k], strict)
    requires Busy(c) ==> Busy(cs[k]) || !OtherBusy(cs, k)
    ensures ChansInv(boards, cs[k := c], strict)
  {
    hide Owned, Busy;
    assert forall j :: 0 <= j < |cs| && j != k && Busy(cs[j]) && Busy(c) && !Busy(cs[k]) ==> OtherBusy(cs, k) by {
      BusyMeansOther(cs, k);
    }
  }

  lemma BusyMeansOther(cs: seq<State>, k: nat)
    ensures forall j :: 0 <= j < |cs| && j != k && Busy(cs[j]) ==> OtherBusy(cs, k)
  {
  }

  // A channel's new state: still owned, and not newly busy.
  predicate Follows(c: State, c': State, b: Board, strict: bool) {
    Owned(c', b, strict) && (Busy(c') ==> Busy(c))
  }

  lemma EveryChannel(boards: seq<Board>, cs: seq<State>, cs': seq<State>, strict: bool)
    requires ChansInv(boards, cs, strict) && |cs'| == |cs|
    requires forall k :: 0 <= k < |cs| ==> Follows(cs[k], cs'[k], boards[k], strict)
    ensures ChansInv(boards, cs', strict)
  {
    hide Owned, Busy;
  }

  // ---- Collective operations ----

  lemma StepFollows(c: State, e: Event, b: Board, strict: bool)
    requires Owned(c, b, strict) && EventOk(e, strict) && e != CalEnable(true)
    ensures Follows(c, Step(c, e), b, strict)
  {
    hide Step, ChannelInv, Busy;
    ChannelStep(c, e, b.cfg, strict);
  }

  lemma ResetFollows(boards: seq<Board>, cs: seq<State>, entering: bool, strict: bool)
    requires ChansInv(boards, cs, strict)
    ensures ChansInv(boards, ResetAll(cs, entering), strict)
  {
    hide Owned, ResetCalibration;
    var cs' := ResetAll(cs, entering);
    forall k | 0 <= k < |cs| ensures Follows(cs[k], cs'[k], boards[k], strict) {
      StepFollows(cs[k], Reset(entering), boards[k], strict);
    }
    EveryChannel(boards, cs, cs', strict);
  }

  lemma DisableFollows(boards: seq<Board>, cs: seq<State>, strict: bool)
    requires ChansInv(boards, cs, strict)
    ensures ChansInv(boards, DisableAll(cs), strict)
  {
    hide Owned, OutputAction;
    var cs' := DisableAll(cs);
    forall k | 0 <= k < |cs| ensures Follows(cs[k], cs'[k], boards[k], strict) {
      StepFollows(cs[k], Action(ACTION_DISABLE_GRACEFUL), boards[k], strict);
    }
    EveryChannel(boards, cs, cs', strict);
  }

  lemma EnableFollows(boards: seq<Board>, cs: seq<State>, strict: bool)
    requires ChansInv(boards, cs, strict)
    ensures ChansInv(boards, EnableWanting(cs), strict)
  {
    hide Owned, OutputAction, Busy;
    var cs' := EnableWanting(cs);
    forall k | 0 <= k < |cs| ensures Follows(cs[k], cs'[k], boards[k], strict) {
      StepFollows(cs[k], Action(ACTION_ENABLE), boards[k], strict);
    }
    EveryChannel(boards, cs, cs', strict);
  }

  lemma RunFollows(c: State, dt: uint32, v: Option<int32>, i: Option<int32>, mode: uint16, b: Board, strict: bool)
    requires Owned(c, b, strict)
    ensures Follows(c, Run(c, dt, v, i, mode), b, strict)
  {
    hide Owned, Busy, Advance, ConsumeVoltage, ConsumeCurrent, TickRamp, TickRecovery;
    StepFollows(c, Elapse(dt), b, strict);
    var c1 := Advance(c, dt);
    var c2 := if v.Some? then ConsumeVoltage(c1, v.value) else c1;
    if v.Some? {
      StepFollows(c1, ReadVoltage(v.value), b, strict);
    }
    var c3 := if i.Some? then ConsumeCurrent(c2, i.value) else c2;
    if i.Some? {
      StepFollows(c2, ReadCurrent(i.value), b, strict);
    }
    StepFollows(c3, RampTick(dt), b, strict);
    StepFollows(TickRamp(c3, dt), RecoveryTick(mode, dt), b, strict);
  }

  lemma RunAllFollows(boards: seq<Board>, cs: seq<State>, dt: uint32, rs: seq<Reading>, mode: uint16, strict: bool)
    requires ChansInv(boards, cs, strict)
    ensures ChansInv(boards, RunChannels(cs, dt, rs, mode), strict)
  {
    hide Owned, Run;
    var cs' := RunChannels(cs, dt, rs, mode);
    forall k | 0 <= k < |cs| ensures Follows(cs[k], cs'[k], boards[k], strict) {
      RunFollows(cs[k], dt, ReadingAt(rs, k).v, ReadingAt(rs, k).i, mode, boards[k], strict);
    }
    EveryChannel(boards, cs, cs', strict);
  }

  lemma TransitionFollows(boards: seq<Board>, cs: seq<State>, from: uint16, to: uint16, strict: bool)
    requires ChansInv(boards, cs, strict)
    ensures ChansInv(boards, Transition(cs, from, to), strict)
  {
    hide ChansInv, ResetAll, DisableAll, EnableWanting;
    var c1 := if from == MODE_CALIBRATION then ResetAll(cs, false) else cs;
    if from == MODE_CALIBRATION {
      ResetFollows(boards, cs, false, strict);
    }
    var c2 := if to == MODE_NORMAL && from == MODE_AUTOMATIC then DisableAll(c1) else c1;
    if to == MODE_NORMAL && from == MODE_AUTOMATIC {
      DisableFollows(boards, c1, strict);
    }
    var c3 := if to == MODE_AUTOMATIC then EnableWanting(c2) else c2;
    if to == MODE_AUTOMATIC {
      EnableFollows(boards, c2, strict);
    }
    if to == MODE_CALIBRATION {
      ResetFollows(boards, c3, true, strict);
    }
  }

  // ---- Each command ----

  lemma SetModeKeeps(s: Ctrl, mode: uint16, strict: bool)
    requires CtrlInv(s, strict)
    ensures CtrlInv(SetMode(s, mode).0, strict)
  {
    hide ChansInv, StoreInv, BoardOk, Transition;
    TransitionFollows(s.boards, s.chans, s.mode, mode, strict);
  }

  lemma SystemConfigKeeps(s: Ctrl, cfg: SystemConfig, strict: bool)
    requires CtrlInv(s, strict)
    ensures CtrlInv(SetSystemConfig(s, cfg).0, strict)
  {
    hide ChansInv, StoreInv, BoardOk, SetMode;
    var sys := if cfg.mode == MODE_CALIBRATION then cfg.(mode := s.sys.mode) else cfg;
    SetModeKeeps(s.(sys := sys), cfg.mode, strict);
  }

  lemma TickKeeps(s: Ctrl, dt: uint32, rs: seq<Reading>, strict: bool)
    requires CtrlInv(s, strict)
    ensures CtrlInv(Tick(s, dt, rs), strict)
  {
    hide ChansInv, StoreInv, BoardOk, SetMode, RunChannels;
    SetModeKeeps(s, s.preCal, strict);
    RunAllFollows(s.boards, s.chans, dt, rs, s.sys.mode, strict);
  }

  // A command that is one event on one channel.
  lemma EventOnChannel(s: Ctrl, k: nat, e: Event, strict: bool)
    requires CtrlInv(s, strict) && k < |s.chans| && EventOk(e, strict)
    requires e == CalEnable(true) ==> !OtherBusy(s.chans, k)
    ensures CtrlInv(WithChannel(s, k, Step(s.chans[k], e)), strict)
  {
    hide StoreInv, BoardOk, Step, ChannelInv, Busy;
    ChannelStep(s.chans[k], e, s.boards[k].cfg, strict);
    OneChannel(s.boards, s.chans, k, Step(s.chans[k], e), strict);
  }

  lemma FieldCommandKeeps(s: Ctrl, k: nat, field: ConfigField, value: uint16, strict: bool)
    requires CtrlInv(s, strict) && (strict ==> Admissible(Event.Field(field, value)))
    ensures CtrlInv(ChannelSetField(s, k, field, value).0, strict)
  {
    hide CtrlInv, SetField, OutputAction;
    if k < |s.chans| {
      EventOnChannel(s, k, Event.Field(field, value), strict);
      var (c, st) := SetField(s.chans[k], field, value);
      var s1 := WithChannel(s, k, c);
      EventOnChannel(s1, k, Action(ACTION_ENABLE), strict);
      var c1 := OutputAction(c, ACTION_ENABLE).0;
      assert s.chans[k := c][k := c1] == s.chans[k := c1];
    }
  }

  lemma RefreshKeeps(s: Ctrl, strict: bool)
    requires CtrlInv(s, strict)
    ensures CtrlInv(Refresh(s), strict)
  {
    hide ChansInv, StoreInv, BoardOk;
  }

  // The commands that only concern the calibration of one channel.
  lemma CalCommandKeeps(s: Ctrl, e: Command, strict: bool)
    requires CtrlInv(s, strict)
    requires e.CalFieldAt? || e.CalEnableAt? || e.CalDacAt? || e.CalSampleAt?
    ensures CtrlInv(Do(s, e).0, strict)
  {
    hide CtrlInv, SetCalField, CalSetOutputEnable, CalSetRawDac, CalSample;
    if e.k < |s.chans| {
      var event := match e
        case CalFieldAt(_, field, value) => CalWrite(field, value)
        case CalEnableAt(_, enable) => CalEnable(enable)
        case CalDacAt(_, code) => CalDac(code)
        case CalSampleAt(_, v, i) => Sample(v, i);
      if event != CalEnable(true) || !OtherBusy(s.chans, e.k) {
        EventOnChannel(s, e.k, event, strict);
        RefreshKeeps(WithChannel(s, e.k, Step(s.chans[e.k], event)), strict);
      }
    }
  }

  lemma CommitKeeps(s: Ctrl, k: nat, works: bool, strict: bool)
    requires CtrlInv(s, strict)
    ensures CtrlInv(CalCommitChannel(s, k, works).0, strict)
  {
    hide BoardOk, ChannelRetry.RetryInv, SafetyInv, SessionInv;
    if k < |s.chans| {
      assert Owned(s.chans[k], s.boards[k], strict);
    }
  }

  lemma SystemParamKeeps(s: Ctrl, action: uint16, works: bool, strict: bool)
    requires CtrlInv(s, strict)
    ensures CtrlInv(SystemParam(s, action, works).0, strict)
  {
    hide ChansInv, BoardOk, SetSystemConfig;
    if s.store.sys.Some? {
      SystemConfigKeeps(s, s.store.sys.value, strict);
    }
  }

  lemma ReconfigureKeeps(s: Ctrl, k: nat, cfg: Config, calWorks: bool, strict: bool)
    requires CtrlInv(s, strict) && k < |s.chans|
    requires cfg.retryMax <= MAX_RETRY_HISTORY && (strict ==> StepsSafe(cfg))
    ensures var c := SetConfig(s.chans[k], cfg).0;
            CtrlInv(WithChannel(s, k, ReloadCal(s, k, c, calWorks)), strict)
  {
    hide ChansInv, BoardOk, SetConfig, LoadCal, ModeInv;
    EventOnChannel(s, k, Configure(cfg), strict);
    ReloadKeeps(WithChannel(s, k, SetConfig(s.chans[k], cfg).0), s, k, calWorks, strict);
  }

  lemma ReloadKeeps(s1: Ctrl, s: Ctrl, k: nat, calWorks: bool, strict: bool)
    requires k < |s.chans| && |s1.chans| == |s.chans| && s1 == WithChannel(s, k, s1.chans[k]) && CtrlInv(s1, strict)
    ensures CtrlInv(WithChannel(s, k, ReloadCal(s, k, s1.chans[k], calWorks)), strict)
  {
    hide ChansInv, BoardOk, LoadCal, ModeInv;
    if s.hasStorage && calWorks && k in s.store.cals {
      var cal := s.store.cals[k];
      EventOnChannel(s1, k, CalLoad(cal), strict);
      var c := LoadCal(s1.chans[k], cal);
      assert s1.chans[k := c] == s.chans[k := c];
    }
  }

  lemma ChannelParamKeeps(s: Ctrl, k: nat, action: uint16, works: bool, calWorks: bool, strict: bool)
    requires CtrlInv(s, strict) && (strict ==> StepsSafe(DefaultConfig()))
    ensures CtrlInv(ChannelParam(s, k, action, works, calWorks).0, strict)
  {
    if k < |s.chans| {
      if action == PARAM_SAVE {
        SaveKeeps(s, k, strict);
      } else if action == PARAM_LOAD && k in s.store.cfgs {
        ReconfigureKeeps(s, k, s.store.cfgs[k], calWorks, strict);
      } else if action == PARAM_LOAD {
        assert s.chans[k := s.chans[k]] == s.chans;
        ReloadKeeps(s, s, k, calWorks, strict);
      } else if action == PARAM_FACTORY_RESET {
        ReconfigureKeeps(s, k, DefaultConfig(), calWorks, strict);
      }
    }
  }

  lemma SaveKeeps(s: Ctrl, k: nat, strict: bool)
    requires CtrlInv(s, strict) && k < |s.chans|
    ensures CtrlInv(s.(store := s.store.(cfgs := s.store.cfgs[k := s.chans[k].cfg])), strict)
  {
    hide BoardOk, ChannelRetry.RetryInv, SessionInv;
    assert Owned(s.chans[k], s.boards[k], strict);
  }

  lemma BootInv(boards: seq<Board>, hasStorage: bool, store: Store, before: seq<State>, strict: bool)
    requires forall k :: 0 <= k < |boards| ==> BoardOk(boards[k], strict)
    requires StoreInv(boards, store, strict)
    ensures CtrlInv(InitOver(boards, hasStorage, store, before), strict)
  {
    forall k | 0 <= k < |boards| ensures Owned(InitChannels(boards, before)[k], boards[k], strict) {
      assert BoardOk(boards[k], strict);
    }
  }

  lemma HostCommandKeeps(s: Ctrl, e: Command, strict: bool)
    requires CtrlInv(s, strict)
    requires e.Act? || e.FaultCommandAt? || e.FaultAt?
    ensures CtrlInv(Do(s, e).0, strict)
  {
    hide CtrlInv, OutputAction, FaultCommand, ConsumeFault;
    if e.k < |s.chans| {
      var event := match e
        case Act(_, action) => Action(action)
        case FaultCommandAt(_, cmd) => FaultCmd(cmd)
        case FaultAt(_, cause) => External(cause);
      EventOnChannel(s, e.k, event, strict);
    }
  }

  lemma BeatKeeps(s: Ctrl, strict: bool)
    requires CtrlInv(s, strict)
    ensures CtrlInv(Heartbeat(s), strict)
  {
    hide CtrlInv;
    RefreshKeeps(s, strict);
  }

  lemma ExitKeeps(s: Ctrl, strict: bool)
    requires CtrlInv(s, strict)
    ensures CtrlInv(CalExit(s).0, strict)
  {
    hide CtrlInv, SetMode;
    SetModeKeeps(s, s.preCal, strict);
  }

  lemma SystemFieldKeeps(s: Ctrl, field: ConfigField, value: uint16, strict: bool)
    requires CtrlInv(s, strict)
    ensures CtrlInv(SetSystemField(s, field, value).0, strict)
  {
    hide CtrlInv, SetMode, SetSystemConfig;
    SetModeKeeps(s, value, strict);
    SystemConfigKeeps(s, s.sys.(startupPolicy := value), strict);
  }

  lemma RestartKeeps(s: Ctrl, strict: bool)
    requires CtrlInv(s, strict)
    ensures CtrlInv(Reboot(s), strict)
  {
    BootInv(s.boards, s.hasStorage, s.store, s.chans, strict);
  }

  lemma DoKeeps(s: Ctrl, e: Command, strict: bool)
    requires CtrlInv(s, strict) && CommandOk(e, strict)
    ensures CtrlInv(Do(s, e).0, strict)
  {
    hide CtrlInv, Tick, Heartbeat, SetMode, CalExit, Unlock, ChannelAction, ChannelFaultCommand, ChannelFault;
    hide ChannelSetField, ChannelSetCalField, CalOutputEnable, CalRawDac, CalSampleChannel, CalCommitChannel;
    hide SetSystemConfig, SetSystemField, SystemParam, ChannelParam, Reboot;
    match e {
      case TickAll(dt, rs) => TickKeeps(s, dt, rs, strict);
      case Mode(mode) => SetModeKeeps(s, mode, strict);
      case UnlockWrite(value) => UnlockKeeps(s, value, strict);
      case Exit => ExitKeeps(s, strict);
      case Beat => BeatKeeps(s, strict);
      case Act(_, _) => HostCommandKeeps(s, e, strict);
      case FaultCommandAt(_, _) => HostCommandKeeps(s, e, strict);
      case FieldAt(k, field, value) => FieldCommandKeeps(s, k, field, value, strict);
      case FaultAt(_, _) => HostCommandKeeps(s, e, strict);
      case CalFieldAt(_, _, _) => CalCommandKeeps(s, e, strict);
      case CalEnableAt(_, _) => CalCommandKeeps(s, e, strict);
      case CalDacAt(_, _) => CalCommandKeeps(s, e, strict);
      case CalSampleAt(_, _, _) => CalCommandKeeps(s, e, strict);
      case CalCommitAt(k, works) => CommitKeeps(s, k, works, strict);
      case SystemConfigure(cfg) => SystemConfigKeeps(s, cfg, strict);
      case SystemField(field, value) => SystemFieldKeeps(s, field, value, strict);
      case SystemParams(action, works) => SystemParamKeeps(s, action, works, strict);
      case ChannelParams(k, action, works, calWorks) => ChannelParamKeeps(s, k, action, works, calWorks, strict);
      case Restart => RestartKeeps(s, strict);
    }
  }

  lemma UnlockKeeps(s: Ctrl, value: uint16, strict: bool)
    requires CtrlInv(s, strict)
    ensures CtrlInv(Unlock(s, value).0, strict)
  {
    hide ChansInv, BoardOk, StoreInv;
  }

  /**
    The joint invariant holds of every state of every run from power-on with
    an empty store. Without `strict` no command is restricted.
   */
  lemma {:induction false} InvOnEveryRun(s: Ctrl, es: seq<Command>, strict: bool)
    requires CtrlInv(s, strict)
    requires forall e | e in es :: CommandOk(e, strict)
    ensures CtrlInv(DoAll(s, es), strict)
  {
    hide CtrlInv, Do;
    if es != [] {
      var last := |es| - 1;
      InvOnEveryRun(s, es[..last], strict);
      DoKeeps(DoAll(s, es[..last]), es[last], strict);
    }
  }

  lemma PowerOn(boards: seq<Board>, hasStorage: bool, strict: bool)
    requires forall k :: 0 <= k < |boards| ==> BoardOk(boards[k], strict)
    ensures CtrlInv(Boot(boards, hasStorage, EMPTY_STORE), strict)
  {
    BootInv(boards, hasStorage, EMPTY_STORE, [], strict);
  }
}
