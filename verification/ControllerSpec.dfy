/**
  What each function of lib/voltage_control/vc_controller.c does to the whole
  controller, as functions on a value: all channels, the mode machine with its
  unlock and watchdog, the system configuration and the stored records.
 */
module ControllerSpec {
  import opened CInt
  import opened VcTypes
  import opened Channel = ChannelSpec
  import opened Wrappers

  const WATCHDOG_MS: uint32 := CAL_WATCHDOG_TIMEOUT_S * 1000

  // The settings backend: a record is absent until it is first saved.
  datatype Store = Store(sys: Option<SystemConfig>, cfgs: map<nat, Config>, cals: map<nat, Calibration>)

  const EMPTY_STORE: Store := Store(None, map[], map[])

  // What devicetree says about one channel.
  datatype Board = Board(caps: Caps, cfg: Config, cal: Calibration)

  datatype Ctrl = Ctrl(
    boards: seq<Board>,
    chans: seq<State>,
    mode: uint16,
    preCal: uint16,
    watchdog: uint32,
    unlockStep: uint16,
    unlocked: bool,
    sys: SystemConfig,
    hasStorage: bool,
    store: Store)

  datatype Reading = Reading(v: Option<int32>, i: Option<int32>)

  // ---- Start-up ----

  // At power-on the registers of a device are zero; later they are what the
  // channel before left in them.
  function DeviceBefore(before: seq<State>, k: nat): Device {
    if k < |before| then before[k].dev else Device(0, false)
  }

  function InitChannel(b: Board, dev: Device): State {
    Init(b.caps, b.cfg, b.cal).(dev := dev)
  }

  function InitChannels(boards: seq<Board>, before: seq<State>): seq<State> {
    seq(|boards|, k requires 0 <= k < |boards| => InitChannel(boards[k], DeviceBefore(before, k)))
  }

  function InitOver(boards: seq<Board>, hasStorage: bool, store: Store, before: seq<State>): Ctrl {
    Ctrl(boards, InitChannels(boards, before), MODE_NORMAL, MODE_NORMAL, 0, 0, false, DefaultSystemConfig(),
         hasStorage, store)
  }

  // Power-on.
  function Boot(boards: seq<Board>, hasStorage: bool, store: Store): Ctrl {
    InitOver(boards, hasStorage, store, [])
  }

  // Another initialisation within one power-on.
  function Reboot(s: Ctrl): Ctrl {
    InitOver(s.boards, s.hasStorage, s.store, s.chans)
  }

  // ---- Collective channel behaviour ----

  function ResetAll(cs: seq<State>, entering: bool): seq<State> {
    seq(|cs|, k requires 0 <= k < |cs| => ResetCalibration(cs[k], entering))
  }

  function DisableAll(cs: seq<State>): seq<State> {
    seq(|cs|, k requires 0 <= k < |cs| => OutputAction(cs[k], ACTION_DISABLE_GRACEFUL).0)
  }

  predicate WantsOutput(c: State) {
    if c.caps.rawDrive then c.cfg.target != 0 else c.cfg.outputEnabled
  }

  function EnableIfWanted(c: State): State {
    if WantsOutput(c) && c.fault.active == {} then OutputAction(c, ACTION_ENABLE).0 else c
  }

  function EnableWanting(cs: seq<State>): seq<State> {
    seq(|cs|, k requires 0 <= k < |cs| => EnableIfWanted(cs[k]))
  }

  function ReadingAt(rs: seq<Reading>, k: nat): Reading {
    if k < |rs| then rs[k] else Reading(None, None)
  }

  function RunChannels(cs: seq<State>, dt: uint32, rs: seq<Reading>, mode: uint16): seq<State> {
    seq(|cs|, k requires 0 <= k < |cs| => Run(cs[k], dt, ReadingAt(rs, k).v, ReadingAt(rs, k).i, mode))
  }

  predicate AnyFaulted(cs: seq<State>) {
    exists k :: 0 <= k < |cs| && cs[k].fault.active != {}
  }

  // ---- Operating mode ----

  predicate ModeRefused(s: Ctrl, mode: uint16) {
    mode == MODE_AUTOMATIC && s.mode == MODE_NORMAL && AnyFaulted(s.chans)
  }

  // The channels after an accepted change from `from` to `to`.
  function Transition(cs: seq<State>, from: uint16, to: uint16): seq<State> {
    var c1 := if from == MODE_CALIBRATION then ResetAll(cs, false) else cs;
    var c2 := if to == MODE_NORMAL && from == MODE_AUTOMATIC then DisableAll(c1) else c1;
    var c3 := if to == MODE_AUTOMATIC then EnableWanting(c2) else c2;
    if to == MODE_CALIBRATION then ResetAll(c3, true) else c3
  }

  function SetMode(s: Ctrl, mode: uint16): (Ctrl, Status) {
    if mode > MODE_CALIBRATION then (s, InvalidValue)
    else if s.mode != MODE_CALIBRATION && mode == MODE_CALIBRATION && !s.unlocked then (s, InvalidCommand)
    else if mode == s.mode then
      (if mode == MODE_CALIBRATION then s.(watchdog := WATCHDOG_MS) else s, Ok)
    else if ModeRefused(s, mode) then (s, UnsafeState)
    else
      var s1 := s.(chans := Transition(s.chans, s.mode, mode), mode := mode);
      if mode == MODE_CALIBRATION
      then (s1.(preCal := s.mode, watchdog := WATCHDOG_MS, unlockStep := 0, unlocked := false), Ok)
      else (s1.(sys := s.sys.(mode := mode)), Ok)
  }

  function Unlock(s: Ctrl, value: uint16): (Ctrl, Status) {
    if value == CAL_UNLOCK_STEP1 then (s.(unlockStep := 1, unlocked := false), Ok)
    else if value == CAL_UNLOCK_STEP2 && s.unlockStep == 1 then (s.(unlockStep := 0, unlocked := true), Ok)
    else (s.(unlockStep := 0, unlocked := false), InvalidCommand)
  }

  function CalExit(s: Ctrl): (Ctrl, Status) {
    if s.mode != MODE_CALIBRATION then (s, InvalidCommand) else SetMode(s, s.preCal)
  }

  function Tick(s: Ctrl, dt: uint32, rs: seq<Reading>): Ctrl {
    if s.mode == MODE_CALIBRATION then
      if dt >= s.watchdog then CalExit(s).0 else s.(watchdog := s.watchdog - dt)
    else s.(chans := RunChannels(s.chans, dt, rs, s.sys.mode))
  }

  function Refresh(s: Ctrl): Ctrl {
    s.(watchdog := WATCHDOG_MS)
  }

  function Heartbeat(s: Ctrl): Ctrl {
    if s.mode == MODE_CALIBRATION then Refresh(s) else s
  }

  // ---- One channel ----

  function WithChannel(s: Ctrl, k: nat, c: State): Ctrl
    requires k < |s.chans|
  {
    s.(chans := s.chans[k := c])
  }

  function ChannelAction(s: Ctrl, k: nat, action: uint16): (Ctrl, Status) {
    if k >= |s.chans| then (s, UnsupportedChannel)
    else if s.mode == MODE_CALIBRATION then (s, InvalidCommand)
    else
      var (c, st) := OutputAction(s.chans[k], action);
      (WithChannel(s, k, c), st)
  }

  function ChannelFaultCommand(s: Ctrl, k: nat, cmd: uint16): (Ctrl, Status) {
    if k >= |s.chans| then (s, UnsupportedChannel)
    else
      var (c, st) := FaultCommand(s.chans[k], cmd);
      (WithChannel(s, k, c), st)
  }

  // In AUTOMATIC mode a non-zero target also enables a healthy channel.
  predicate AutoEnables(s: Ctrl, c: State, field: ConfigField, value: uint16) {
    && field == ConfiguredTarget
    && s.mode == MODE_AUTOMATIC
    && ToInt16(value) != 0
    && c.fault.active == {}
  }

  function ChannelSetField(s: Ctrl, k: nat, field: ConfigField, value: uint16): (Ctrl, Status) {
    if k >= |s.chans| then (s, UnsupportedChannel)
    else
      var (c, st) := SetField(s.chans[k], field, value);
      var c1 := if st == Ok && AutoEnables(s, c, field, value) then OutputAction(c, ACTION_ENABLE).0 else c;
      (WithChannel(s, k, c1), st)
  }

  // A fault reported for a channel by its hardware.
  function ChannelFault(s: Ctrl, k: nat, cause: Faults): Ctrl {
    if k >= |s.chans| then s else WithChannel(s, k, ConsumeFault(s.chans[k], cause))
  }

  // ---- Calibration session ----

  function RefreshIf(s: Ctrl, st: Status): Ctrl {
    if st == Ok then Refresh(s) else s
  }

  function ChannelSetCalField(s: Ctrl, k: nat, field: CalField, value: uint16): (Ctrl, Status) {
    if k >= |s.chans| then (s, UnsupportedChannel)
    else if s.mode != MODE_CALIBRATION then (s, InvalidCommand)
    else
      var (c, st) := SetCalField(s.chans[k], field, value);
      (RefreshIf(WithChannel(s, k, c), st), st)
  }

  // Another channel holds the calibration output.
  predicate OtherBusy(cs: seq<State>, k: nat) {
    exists j :: 0 <= j < |cs| && j != k && (cs[j].session.calOutput || cs[j].session.rawDac != 0)
  }

  function CalOutputEnable(s: Ctrl, k: nat, enable: bool): (Ctrl, Status) {
    if k >= |s.chans| then (s, UnsupportedChannel)
    else if s.mode != MODE_CALIBRATION then (s, InvalidCommand)
    else if enable && OtherBusy(s.chans, k) then (s, UnsafeState)
    else
      var (c, st) := CalSetOutputEnable(s.chans[k], enable);
      (RefreshIf(WithChannel(s, k, c), st), st)
  }

  function CalRawDac(s: Ctrl, k: nat, code: uint32): (Ctrl, Status) {
    if k >= |s.chans| then (s, UnsupportedChannel)
    else if s.mode != MODE_CALIBRATION then (s, InvalidCommand)
    else
      var (c, st) := CalSetRawDac(s.chans[k], code);
      (RefreshIf(WithChannel(s, k, c), st), st)
  }

  function CalSampleChannel(s: Ctrl, k: nat, v: int32, i: int32): (Ctrl, Status) {
    if k >= |s.chans| then (s, UnsupportedChannel)
    else if s.mode != MODE_CALIBRATION then (s, InvalidCommand)
    else
      var (c, st) := CalSample(s.chans[k], v, i);
      (RefreshIf(WithChannel(s, k, c), st), st)
  }

  // `stored` says whether the backend accepts the record.
  function CalCommitChannel(s: Ctrl, k: nat, stored: bool): (Ctrl, Status) {
    if k >= |s.chans| then (s, UnsupportedChannel)
    else if s.mode != MODE_CALIBRATION then (s, InvalidCommand)
    else if CalCommit(s.chans[k]) != Ok then (s, CalCommit(s.chans[k]))
    else
      var s1 := Refresh(s);
      if !s.hasStorage then (s1, Ok)
      else if !stored then (s1, StorageError)
      else (s1.(store := s.store.(cals := s.store.cals[k := s.chans[k].cal])), Ok)
  }

  // ---- System configuration and storage ----

  function SetSystemConfig(s: Ctrl, cfg: SystemConfig): (Ctrl, Status) {
    var sys := if cfg.mode == MODE_CALIBRATION then cfg.(mode := s.sys.mode) else cfg;
    var s1 := s.(sys := sys);
    if cfg.mode != s.mode then SetMode(s1, cfg.mode) else (s1, Ok)
  }

  function SetSystemField(s: Ctrl, field: ConfigField, value: uint16): (Ctrl, Status) {
    if field == OperatingMode then SetMode(s, value)
    else if field == StartupChannelPolicy then SetSystemConfig(s, s.sys.(startupPolicy := value))
    else (s, InvalidValue)
  }

  // `works` says whether the backend call succeeds (a missing record is no failure).
  function SystemParam(s: Ctrl, action: uint16, works: bool): (Ctrl, Status) {
    if action == PARAM_NONE then (s, Ok)
    else if action == PARAM_SAVE then
      if !s.hasStorage || !works then (s, StorageError)
      else (s.(store := s.store.(sys := Some(s.sys))), Ok)
    else if action == PARAM_LOAD then
      if !s.hasStorage || !works then (s, StorageError)
      else if s.store.sys.None? then (s, Ok)
      else SetSystemConfig(s, s.store.sys.value)
    else if action == PARAM_FACTORY_RESET then
      (s.(store := if s.hasStorage && works then EMPTY_STORE else s.store,
          sys := DefaultSystemConfig(),
          mode := MODE_NORMAL), Ok)
    else (s, InvalidValue)
  }

  // The stored calibration, when it can be read, replaces the current one.
  function ReloadCal(s: Ctrl, k: nat, c: State, calWorks: bool): State {
    if s.hasStorage && calWorks && k in s.store.cals then LoadCal(c, s.store.cals[k]) else c
  }

  function ChannelParam(s: Ctrl, k: nat, action: uint16, works: bool, calWorks: bool): (Ctrl, Status) {
    if k >= |s.chans| then (s, UnsupportedChannel)
    else if action == PARAM_NONE then (s, Ok)
    else if action == PARAM_SAVE then
      if !s.hasStorage || !works then (s, StorageError)
      else (s.(store := s.store.(cfgs := s.store.cfgs[k := s.chans[k].cfg])), Ok)
    else if action == PARAM_LOAD then
      if !s.hasStorage || !works then (s, StorageError)
      else
        var (c, st) := if k in s.store.cfgs then SetConfig(s.chans[k], s.store.cfgs[k]) else (s.chans[k], Ok);
        if st != Ok then (s, st) else (WithChannel(s, k, ReloadCal(s, k, c, calWorks)), Ok)
    else if action == PARAM_FACTORY_RESET then
      var (c, st) := SetConfig(s.chans[k], DefaultConfig());
      if st != Ok then (s, st) else (WithChannel(s, k, ReloadCal(s, k, c, calWorks)), Ok)
    else (s, InvalidValue)
  }

  // ---- Runs ----

  datatype Command =
    | TickAll(dt: uint32, readings: seq<Reading>)
    | Mode(mode: uint16)
    | UnlockWrite(value: uint16)
    | Exit
    | Beat
    | Act(k: nat, action: uint16)
    | FaultCommandAt(k: nat, cmd: uint16)
    | FieldAt(k: nat, field: ConfigField, fieldValue: uint16)
    | FaultAt(k: nat, cause: Faults)
    | CalFieldAt(k: nat, calField: CalField, calValue: uint16)
    | CalEnableAt(k: nat, enable: bool)
    | CalDacAt(k: nat, code: uint32)
    | CalSampleAt(k: nat, v: int32, i: int32)
    | CalCommitAt(k: nat, works: bool)
    | SystemConfigure(cfg: SystemConfig)
    | SystemField(sysField: ConfigField, sysValue: uint16)
    | SystemParams(param: uint16, works: bool)
    | ChannelParams(k: nat, param: uint16, works: bool, calWorks: bool)
    | Restart

  function Do(s: Ctrl, e: Command): (Ctrl, Status) {
    match e
    case TickAll(dt, rs) => (Tick(s, dt, rs), Ok)
    case Mode(mode) => SetMode(s, mode)
    case UnlockWrite(value) => Unlock(s, value)
    case Exit => CalExit(s)
    case Beat => (Heartbeat(s), Ok)
    case Act(k, action) => ChannelAction(s, k, action)
    case FaultCommandAt(k, cmd) => ChannelFaultCommand(s, k, cmd)
    case FieldAt(k, field, value) => ChannelSetField(s, k, field, value)
    case FaultAt(k, cause) => (ChannelFault(s, k, cause), Ok)
    case CalFieldAt(k, field, value) => ChannelSetCalField(s, k, field, value)
    case CalEnableAt(k, enable) => CalOutputEnable(s, k, enable)
    case CalDacAt(k, code) => CalRawDac(s, k, code)
    case CalSampleAt(k, v, i) => CalSampleChannel(s, k, v, i)
    case CalCommitAt(k, works) => CalCommitChannel(s, k, works)
    case SystemConfigure(cfg) => SetSystemConfig(s, cfg)
    case SystemField(field, value) => SetSystemField(s, field, value)
    case SystemParams(action, works) => SystemParam(s, action, works)
    case ChannelParams(k, action, works, calWorks) => ChannelParam(s, k, action, works, calWorks)
    case Restart => (Reboot(s), Ok)
  }

  function DoAll(s: Ctrl, es: seq<Command>): Ctrl {
    if es == [] then s else Do(DoAll(s, es[..|es| - 1]), es[|es| - 1]).0
  }
}
