/**
  What each function of lib/voltage_control/vc_channel.c does to one channel,
  as functions on a value. `Channel.dfy` proves the updating code against these;
  the other Channel*.dfy files prove what they mean over whole runs.
 */
module ChannelSpec {
  import opened CInt
  import opened VcTypes
  import opened Wrappers

  datatype Smf =
    | DisabledSafe
    | DisabledHvOn
    | EnabledHolding
    | Ramping
    | FaultLatched
    | RetryCooldown
    | CalibrationOutput

  // The fields of `struct vc_channel`, in groups.
  datatype Drive = Drive(
    outputEnabled: bool,
    ramping: bool,
    rampToDisable: bool,
    gracefulDest: int16,
    rampAccum: uint32,
    cooldown: uint32,
    recovering: bool,
    recoveryTarget: int16,
    opTarget: int16,
    smf: Smf)

  datatype Readings = Readings(measuredV: int16, measuredI: int16, rawAdcV: int32, rawAdcI: int32)

  datatype FaultRecord = FaultRecord(active: Faults, history: Faults, lastFaultAt: uint32, lastProtection: uint16)

  datatype CalSession = CalSession(rawDac: uint16, calOutput: bool)

  datatype Device = Device(dacCode: uint16, hvEnable: bool)

  /**
    `struct vc_channel`, the two registers of its device, and two history
    values the firmware does not store: `now`, the uptime that does not wrap,
    and `log`, every auto-retry ever recorded.
   */
  datatype State = State(
    caps: Caps,
    cfg: Config,
    cal: Calibration,
    drive: Drive,
    meas: Readings,
    fault: FaultRecord,
    session: CalSession,
    retries: seq<uint32>,
    uptime: uint32,
    dev: Device,
    now: nat,
    log: seq<nat>)

  function Init(caps: Caps, cfg: Config, cal: Calibration): State {
    State(caps, cfg, cal,
          Drive(false, false, false, 0, 0, 0, false, 0, 0, DisabledSafe),
          Readings(0, 0, 0, 0),
          FaultRecord({}, {}, 0, ACTION_NONE),
          CalSession(0, false),
          [], 0, Device(0, false), 0, [])
  }

  // A later initialisation: everything is as at power-on, except that nothing
  // is written to the device.
  function Reinit(c: State, cfg: Config, cal: Calibration): State {
    Init(c.caps, cfg, cal).(dev := c.dev)
  }

  // ---- Gains and the hardware registers ----

  function Pow10(n: nat): int {
    if n == 0 then 1 else 10 * Pow10(n - 1)
  }

  lemma Pow10Positive(n: nat)
    ensures Pow10(n) > 0
  {
  }

  // mantissa x 10^exp, rounded towards zero.
  function Gain(raw: int, mantissa: uint16, exp: int): int {
    var scaled := raw * mantissa;
    if exp > 0 then
      scaled * Pow10(exp)
    else if exp < 0 then
      Pow10Positive(-exp);
      TruncDiv(scaled, Pow10(-exp))
    else
      scaled
  }

  function RawDrive(cal: Calibration, target: int): uint16 {
    var raw := Gain(target, cal.outputK, cal.outputKExp) + cal.outputB;
    if raw <= 0 then 0 else if raw > UINT16_MAX then UINT16_MAX else raw
  }

  function HwCode(c: State): uint16 {
    if c.session.calOutput then c.session.rawDac
    else if c.drive.outputEnabled then RawDrive(c.cal, c.drive.opTarget)
    else 0
  }

  predicate HwEnable(c: State) {
    c.session.calOutput || c.drive.outputEnabled || c.drive.smf == DisabledHvOn
  }

  function ApplyHw(c: State): State {
    c.(dev := Device(HwCode(c), HwEnable(c)))
  }

  // ---- Current protection ----

  // The two immediate ways of switching off differ only in the final state.
  function SwitchOff(d: Drive, smf: Smf): Drive {
    d.(outputEnabled := false, ramping := false, rampToDisable := false, opTarget := 0, smf := smf)
  }

  function StartGraceful(d: Drive): Drive {
    d.(gracefulDest := 0, rampToDisable := true, outputEnabled := true, ramping := true, smf := Ramping)
  }

  function ProtectionAct(c: State, action: uint16): State {
    var c1 := c.(fault := c.fault.(lastProtection := action));
    var effective := if c.caps.rawDrive then action else ACTION_DISABLE_FORCE;
    ApplyHw(
      if effective == ACTION_DISABLE_GRACEFUL then c1.(drive := StartGraceful(c1.drive))
      else if effective == ACTION_DISABLE_IMMEDIATE then c1.(drive := SwitchOff(c1.drive, DisabledHvOn))
      else if effective == ACTION_DISABLE_FORCE then c1.(drive := SwitchOff(c1.drive, DisabledSafe))
      else c1)
  }

  predicate OverCurrent(c: State) {
    && c.fault.active == {}
    && !c.drive.ramping
    && c.cfg.protectionMode != PROTECTION_DISABLED
    && c.meas.measuredI > c.cfg.currentLimit
  }

  function TickProtection(c: State): State {
    if !OverCurrent(c) then c
    else
      var c1 := c.(fault := c.fault.(history := c.fault.history + {Current}));
      if c.cfg.protectionMode != PROTECTION_APPLY_OUTPUT_ACTION then c1
      else
        var c2 := c1.(fault := c1.fault.(active := c.fault.active + {Current}, lastFaultAt := c.uptime));
        var c3 := ProtectionAct(c2, c.cfg.protectionAction);
        c3.(drive := c3.drive.(smf := FaultLatched))
  }

  function SafeLimit(cfg: Config): int {
    TruncDiv(cfg.currentLimit * (100 - cfg.safeBandPct), 100)
  }

  predicate SafeToClear(c: State) {
    Current in c.fault.active ==> c.meas.measuredI <= SafeLimit(c.cfg)
  }

  // ---- Auto-retry ----

  // How many of the time stamps lie in the window that ends at `up`, with the
  // wrapping subtraction of uint32_t.
  function CountRecent(stamps: seq<uint32>, up: uint32, windowMs: int): nat {
    if stamps == [] then 0
    else
      var last := |stamps| - 1;
      CountRecent(stamps[..last], up, windowMs) +
      if ToUint32(up - stamps[last]) <= windowMs then 1 else 0
  }

  function CountActiveRetries(c: State): nat {
    CountRecent(c.retries, c.uptime, c.cfg.retryWindow * 1000)
  }

  function RecordRetry(c: State): State {
    var kept := if |c.retries| < MAX_RETRY_HISTORY then c.retries else c.retries[1..];
    c.(retries := kept + [c.uptime], log := c.log + [c.now])
  }

  predicate AutoRetryPolicy(cfg: Config) {
    cfg.recoveryPolicy == RECOVERY_AUTO_RETRY || cfg.recoveryPolicy == RECOVERY_AUTO_DERATE_RETRY
  }

  predicate RecoveryActive(c: State, mode: uint16) {
    mode == MODE_AUTOMATIC && c.fault.active == {Current} && AutoRetryPolicy(c.cfg) && !c.drive.ramping
  }

  // Where the k-th retry (counted in the window) would ramp to.
  function RetryTarget(cfg: Config, k: nat): int {
    if cfg.recoveryPolicy == RECOVERY_AUTO_DERATE_RETRY
    then cfg.target - (k + 1) * cfg.derateStep
    else cfg.target
  }

  predicate RetryAllowed(c: State) {
    var k := CountActiveRetries(c);
    k < c.cfg.retryMax &&
    (c.cfg.recoveryPolicy == RECOVERY_AUTO_DERATE_RETRY ==> RetryTarget(c.cfg, k) > 0)
  }

  function Retry(c: State): State {
    var target := ToInt16(RetryTarget(c.cfg, CountActiveRetries(c)));
    var c1 := RecordRetry(c);
    ApplyHw(c1.(fault := c1.fault.(active := {}),
                drive := c1.drive.(recovering := true, recoveryTarget := target, outputEnabled := true)))
  }

  function Exhaust(c: State): State {
    c.(fault := c.fault.(active := c.fault.active + {RetryExhaust}), drive := c.drive.(smf := FaultLatched))
  }

  function RetryOrExhaust(c: State): State {
    if RetryAllowed(c) then Retry(c) else Exhaust(c)
  }

  function TickRecovery(c: State, mode: uint16, dt: uint32): State {
    if !RecoveryActive(c, mode) then c
    else
      var c1 := if c.drive.smf == RetryCooldown then c
                else c.(drive := c.drive.(cooldown := c.cfg.retryDelay * 1000, smf := RetryCooldown));
      if c1.drive.cooldown > dt then c1.(drive := c1.drive.(cooldown := c1.drive.cooldown - dt))
      else
        var c2 := c1.(drive := c1.drive.(cooldown := 0));
        if !SafeToClear(c2) then c2
        else RetryOrExhaust(c2)
  }

  // ---- Ramp ----

  function RampTarget(c: State): int16 {
    if c.drive.rampToDisable then c.drive.gracefulDest
    else if c.drive.recovering then c.drive.recoveryTarget
    else c.cfg.target
  }

  // One step towards the target, in int16_t arithmetic.
  function RampStep(current: int16, target: int16, step: uint16): int16 {
    if current < target then
      var next := ToInt16(current + ToInt16(step));
      if next > target then target else next
    else
      var next := ToInt16(current - ToInt16(step));
      if next < target then target else next
  }

  // The whole `while` loop of one tick: the remaining accumulator and voltage.
  function RampSteps(accum: uint32, current: int16, target: int16, step: uint16, intervalMs: uint32)
    : (uint32, int16)
    requires intervalMs > 0
    decreases accum
  {
    if accum < intervalMs || current == target then (accum, current)
    else RampSteps(accum - intervalMs, RampStep(current, target, step), target, step, intervalMs)
  }

  function Arrive(d: Drive): Drive {
    if d.rampToDisable
    then d.(ramping := false, rampToDisable := false, outputEnabled := false, smf := DisabledSafe)
    else d.(ramping := false, recovering := false, smf := EnabledHolding)
  }

  predicate RampGated(c: State) {
    !c.drive.outputEnabled || (c.fault.active != {} && !c.drive.rampToDisable)
  }

  function StepFor(c: State): uint16 {
    if c.drive.opTarget < RampTarget(c) then c.cfg.rampUpStep else c.cfg.rampDownStep
  }

  function IntervalFor(c: State): uint16 {
    if c.drive.opTarget < RampTarget(c) then c.cfg.rampUpInterval else c.cfg.rampDownInterval
  }

  // The drive after one tick of an ungated ramp that has not arrived yet.
  function RampMove(c: State, dt: uint32): Drive {
    var target := RampTarget(c);
    if StepFor(c) == 0 || IntervalFor(c) == 0 then
      Arrive(c.drive.(opTarget := target))
    else
      var (accum, v) := RampSteps(ToUint32(c.drive.rampAccum + dt), c.drive.opTarget, target,
                                  StepFor(c), IntervalFor(c) * 1000);
      var d := c.drive.(ramping := true, rampAccum := accum, opTarget := v);
      if v == target then Arrive(d) else d
  }

  function TickRamp(c: State, dt: uint32): State {
    if RampGated(c) then c
    else if c.drive.opTarget != RampTarget(c) then ApplyHw(c.(drive := RampMove(c, dt)))
    else if !c.drive.ramping then c
    else if c.drive.rampToDisable then ApplyHw(c.(drive := Arrive(c.drive)))
    else c.(drive := Arrive(c.drive))
  }

  // ---- Configuration and commands ----

  function SetConfig(c: State, cfg: Config): (State, Status) {
    if !CapabilityAllows(c.caps, c.cfg, cfg) then (c, UnsupportedCapability)
    else if !ConfigInRange(cfg) then (c, InvalidValue)
    else (ApplyHw(c.(cfg := cfg)), Ok)
  }

  function FieldStatus(caps: Caps, field: ConfigField, value: uint16): Status {
    match field
    case OperatingMode => InvalidValue
    case StartupChannelPolicy => InvalidValue
    case ConfiguredTarget =>
      if !caps.rawDrive then UnsupportedCapability
      else if ToInt16(value) > MAX_TARGET || ToInt16(value) < 0 then InvalidValue
      else Ok
    case ConfiguredOutputEnabled =>
      if caps.rawDrive || !caps.outputEnable then UnsupportedCapability else Ok
    case RampUpStep => if caps.rawDrive then Ok else UnsupportedCapability
    case RampUpInterval => if caps.rawDrive then Ok else UnsupportedCapability
    case RampDownStep => if caps.rawDrive then Ok else UnsupportedCapability
    case RampDownInterval => if caps.rawDrive then Ok else UnsupportedCapability
    case RecoveryPolicy => Ok
    case RetryDelay => Ok
    case RetryMax => if value > MAX_RETRY_HISTORY then InvalidValue else Ok
    case RetryWindow => Ok
    case SafeBandPct => Ok
    case ProtectionMode =>
      if !caps.current then UnsupportedCapability
      else if !ValidProtectionMode(value) then InvalidValue
      else Ok
    case ProtectionAction =>
      if !caps.current then UnsupportedCapability
      else if !ValidProtectionAction(value) then InvalidValue
      else Ok
    case CurrentLimit =>
      if !caps.current then UnsupportedCapability
      else if ToInt16(value) < 0 then InvalidValue
      else Ok
    case DerateStep =>
      if !caps.rawDrive || !caps.voltage then UnsupportedCapability else Ok
  }

  function WithField(cfg: Config, field: ConfigField, value: uint16): Config {
    match field
    case OperatingMode => cfg
    case StartupChannelPolicy => cfg
    case ConfiguredTarget => cfg.(target := ToInt16(value))
    case ConfiguredOutputEnabled => cfg.(outputEnabled := value != 0)
    case RampUpStep => cfg.(rampUpStep := value)
    case RampUpInterval => cfg.(rampUpInterval := value)
    case RampDownStep => cfg.(rampDownStep := value)
    case RampDownInterval => cfg.(rampDownInterval := value)
    case RecoveryPolicy => cfg.(recoveryPolicy := value)
    case RetryDelay => cfg.(retryDelay := value)
    case RetryMax => cfg.(retryMax := value)
    case RetryWindow => cfg.(retryWindow := value)
    case SafeBandPct => cfg.(safeBandPct := value)
    case ProtectionMode => cfg.(protectionMode := value)
    case ProtectionAction => cfg.(protectionAction := value)
    case CurrentLimit => cfg.(currentLimit := ToInt16(value))
    case DerateStep => cfg.(derateStep := value)
  }

  function SetField(c: State, field: ConfigField, value: uint16): (State, Status) {
    var status := FieldStatus(c.caps, field, value);
    if status == Ok then (ApplyHw(c.(cfg := WithField(c.cfg, field, value))), Ok) else (c, status)
  }

  function OutputAction(c: State, action: uint16): (State, Status) {
    var disable := action == ACTION_DISABLE_GRACEFUL || action == ACTION_DISABLE_IMMEDIATE ||
                   action == ACTION_DISABLE_FORCE;
    var d := c.drive;
    if !ValidHostAction(action) then (c, InvalidCommand)
    else if disable && !c.caps.outputEnable then (c, UnsupportedCapability)
    else if disable && !c.caps.rawDrive then (ApplyHw(c.(drive := SwitchOff(d, DisabledSafe))), Ok)
    else if action == ACTION_NONE then (c, Ok)
    else if action == ACTION_ENABLE then
      if c.fault.active != {} then (c, UnsafeState)
      else
        var on := d.(outputEnabled := true, ramping := true, rampToDisable := false, smf := Ramping);
        (ApplyHw(c.(drive := on)), Ok)
    else if action == ACTION_DISABLE_GRACEFUL then
      (ApplyHw(c.(drive := StartGraceful(d).(cooldown := 0))), Ok)
    else if action == ACTION_DISABLE_IMMEDIATE then
      (ApplyHw(c.(drive := SwitchOff(d, DisabledHvOn))), Ok)
    else
      (ApplyHw(c.(drive := SwitchOff(d, DisabledSafe))), Ok)
  }

  function FaultCommand(c: State, cmd: uint16): (State, Status) {
    if cmd > FAULT_COMMAND_CLEAR_HISTORY then (c, InvalidCommand)
    else if cmd == FAULT_COMMAND_CLEAR_ACTIVE then
      if c.fault.active == {} then (c, Ok)
      else if !SafeToClear(c) then (c, UnsafeState)
      else (c.(fault := c.fault.(active := {}), drive := c.drive.(smf := DisabledSafe)), Ok)
    else if cmd == FAULT_COMMAND_CLEAR_HISTORY then (c.(fault := c.fault.(history := {})), Ok)
    else (c, Ok)
  }

  // ---- Measurements and external faults ----

  function ConsumeVoltage(c: State, raw: int32): State {
    var volts := ClampInt16(Gain(raw, c.cal.voltageK, c.cal.voltageKExp) + c.cal.voltageB);
    c.(meas := c.meas.(rawAdcV := raw, measuredV := volts))
  }

  function ConsumeCurrent(c: State, raw: int32): State {
    var amps := ClampInt16(Gain(raw, c.cal.currentK, c.cal.currentKExp) + c.cal.currentB);
    TickProtection(c.(meas := c.meas.(rawAdcI := raw, measuredI := amps)))
  }

  function ConsumeFault(c: State, cause: Faults): State {
    var off := c.drive.(outputEnabled := false, ramping := false, recovering := false, cooldown := 0,
                        opTarget := 0, smf := DisabledSafe);
    ApplyHw(c.(fault := c.fault.(active := c.fault.active + cause, history := c.fault.history + cause),
               drive := off,
               session := CalSession(0, false)))
  }

  function Advance(c: State, dt: uint32): State {
    c.(uptime := ToUint32(c.uptime + dt), now := c.now + dt)
  }

  // The readings that are fresh since the previous run.
  function Consume(c: State, v: Option<int32>, i: Option<int32>): State {
    var c1 := if v.Some? then ConsumeVoltage(c, v.value) else c;
    if i.Some? then ConsumeCurrent(c1, i.value) else c1
  }

  function Run(c: State, dt: uint32, v: Option<int32>, i: Option<int32>, mode: uint16): State {
    TickRecovery(TickRamp(Consume(Advance(c, dt), v, i), dt), mode, dt)
  }

  // ---- Calibration ----

  function ResetCalibration(c: State, entering: bool): State {
    var off := c.drive.(outputEnabled := false, ramping := false, rampAccum := 0, cooldown := 0, opTarget := 0,
                        smf := if entering then CalibrationOutput else DisabledSafe);
    ApplyHw(c.(drive := off, meas := Readings(0, 0, 0, 0), session := CalSession(0, false)))
  }

  function CalSetOutputEnable(c: State, enable: bool): (State, Status) {
    if !c.caps.rawDrive then (c, UnsupportedCapability)
    else if enable then
      if HardFault(c.fault.active) then (c, UnsafeState)
      else (ApplyHw(c.(session := c.session.(calOutput := true))), Ok)
    else (ApplyHw(c.(session := CalSession(0, false), meas := c.meas.(rawAdcV := 0, rawAdcI := 0))), Ok)
  }

  function CalSetRawDac(c: State, code: uint32): (State, Status) {
    if !c.caps.rawDrive then (c, UnsupportedCapability)
    else if code > CAL_MAX_RAW_DAC then (c, InvalidValue)
    else if code != 0 && (HardFault(c.fault.active) || !c.session.calOutput) then (c, UnsafeState)
    else (ApplyHw(c.(session := c.session.(rawDac := code))), Ok)
  }

  // `v` and `i` are what the measurement buffer holds (zero without one).
  function CalSample(c: State, v: int32, i: int32): (State, Status) {
    if !c.caps.voltage && !c.caps.current then (c, UnsupportedCapability)
    else
      var c1 := if c.caps.voltage then c.(meas := c.meas.(rawAdcV := v)) else c;
      (if c.caps.current then c1.(meas := c1.meas.(rawAdcI := i)) else c1, Ok)
  }

  function CalCommit(c: State): Status {
    if c.session.calOutput || c.session.rawDac != 0 || HardFault(c.fault.active) then UnsafeState else Ok
  }

  function WithCalField(cal: Calibration, field: CalField, value: uint16): Calibration {
    match field
    case OutputK => cal.(outputK := value)
    case OutputB => cal.(outputB := ToInt16(value))
    case OutputKExp => cal.(outputKExp := ToInt16(value))
    case VoltageK => cal.(voltageK := value)
    case VoltageB => cal.(voltageB := ToInt16(value))
    case VoltageKExp => cal.(voltageKExp := ToInt16(value))
    case CurrentK => cal.(currentK := value)
    case CurrentB => cal.(currentB := ToInt16(value))
    case CurrentKExp => cal.(currentKExp := ToInt16(value))
  }

  function SetCalField(c: State, field: CalField, value: uint16): (State, Status) {
    if (field.OutputKExp? || field.VoltageKExp? || field.CurrentKExp?) && !ExponentOk(ToInt16(value))
    then (c, InvalidValue)
    else (ApplyHw(c.(cal := WithCalField(c.cal, field, value))), Ok)
  }

  function LoadCal(c: State, cal: Calibration): State {
    ApplyHw(c.(cal := cal))
  }

  // ---- Runs ----

  /**
    One call of a public function. `Run` is `Elapse`, `ReadVoltage`, `ReadCurrent`, `RampTick`, `RecoveryTick`
    in that order (lemma RunIsMicroSteps in ChannelSafety).
   */
  datatype Event =
    | Elapse(dt: uint32)
    | ReadVoltage(rawV: int32)
    | ReadCurrent(rawI: int32)
    | RampTick(dt: uint32)
    | RecoveryTick(mode: uint16, dt: uint32)
    | External(cause: Faults)
    | Action(action: uint16)
    | FaultCmd(cmd: uint16)
    | Field(field: ConfigField, value: uint16)
    | Configure(cfg: Config)
    | Reset(entering: bool)
    | CalEnable(enable: bool)
    | CalDac(code: uint32)
    | Sample(v: int32, i: int32)
    | CalWrite(calField: CalField, calValue: uint16)
    | CalLoad(cal: Calibration)

  function Step(c: State, e: Event): State {
    match e
    case Elapse(dt) => Advance(c, dt)
    case ReadVoltage(raw) => ConsumeVoltage(c, raw)
    case ReadCurrent(raw) => ConsumeCurrent(c, raw)
    case RampTick(dt) => TickRamp(c, dt)
    case RecoveryTick(mode, dt) => TickRecovery(c, mode, dt)
    case External(cause) => ConsumeFault(c, cause)
    case Action(action) => OutputAction(c, action).0
    case FaultCmd(cmd) => FaultCommand(c, cmd).0
    case Field(field, value) => SetField(c, field, value).0
    case Configure(cfg) => SetConfig(c, cfg).0
    case Reset(entering) => ResetCalibration(c, entering)
    case CalEnable(enable) => CalSetOutputEnable(c, enable).0
    case CalDac(code) => CalSetRawDac(c, code).0
    case Sample(v, i) => CalSample(c, v, i).0
    case CalWrite(field, value) => SetCalField(c, field, value).0
    case CalLoad(cal) => LoadCal(c, cal)
  }

  function Exec(c: State, es: seq<Event>): State {
    if es == [] then c else Step(Exec(c, es[..|es| - 1]), es[|es| - 1])
  }
}
