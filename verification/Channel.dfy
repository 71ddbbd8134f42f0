/**
  One voltage channel as the firmware keeps it: a record updated in place
  (lib/voltage_control/vc_channel.c). Every method is proved to do what the
  function of the same name in ChannelSpec says.
 */
module ChannelImpl {
  import opened CInt
  import opened VcTypes
  import Spec = ChannelSpec
  import Gains = ChannelGains
  import opened Wrappers

  const POW10_TABLE: seq<int> :=
    [1, 10, 100, 1000, 10000, 100000, 1000000, 10000000, 100000000, 1000000000]

  lemma TableIsPow10(n: nat)
    requires n < |POW10_TABLE|
    ensures POW10_TABLE[n] == Spec.Pow10(n)
  {
    if n > 0 {
      TableIsPow10(n - 1);
    }
  }

  // The 64-bit gain: no product leaves int64_t and the table index is in range.
  method ApplyGain(raw: int32, mantissa: uint16, exp: int16) returns (scaled: int)
    requires ExponentOk(exp)
    ensures scaled == Spec.Gain(raw, mantissa, exp)
    ensures -INT64_MAX <= scaled <= INT64_MAX
  {
    Gains.GainFitsInt64(raw, mantissa, exp);
    scaled := raw * mantissa;
    assert -INT64_MAX <= scaled <= INT64_MAX;
    if exp > 0 {
      TableIsPow10(exp);
      scaled := scaled * POW10_TABLE[exp];
    } else if exp < 0 {
      var n: int := exp;
      TableIsPow10(-n);
      scaled := TruncDiv(scaled, POW10_TABLE[-n]);
    }
  }

  /**
    `retry_timestamps_ms` and its count: a fixed buffer filled from the left;
    once full, recording shifts it in place.
   */
  class RetryHistory {
    const stamps: array<uint32>
    var count: nat
    ghost var contents: seq<uint32>

    ghost predicate Valid()
      reads this, stamps
    {
      && stamps.Length == MAX_RETRY_HISTORY
      && count <= MAX_RETRY_HISTORY
      && contents == stamps[..count]
    }

    constructor ()
      ensures Valid() && fresh(stamps) && contents == []
    {
      stamps := new uint32[MAX_RETRY_HISTORY];
      count := 0;
      contents := [];
    }

    method Clear()
      requires Valid()
      modifies this
      ensures Valid() && contents == []
    {
      count := 0;
      contents := [];
    }

    method CountRecent(up: uint32, windowMs: int) returns (n: nat)
      requires Valid()
      ensures n == Spec.CountRecent(contents, up, windowMs)
    {
      n := 0;
      for i := 0 to count
        invariant n == Spec.CountRecent(contents[..i], up, windowMs)
      {
        assert contents[..i + 1][..i] == contents[..i];
        if ToUint32(up - stamps[i]) <= windowMs {
          n := n + 1;
        }
      }
      assert contents[..count] == contents;
    }

    method Record(stamp: uint32)
      requires Valid()
      modifies this, stamps
      ensures Valid()
      ensures var was := old(contents);
              contents == (if |was| < MAX_RETRY_HISTORY then was else was[1..]) + [stamp]
    {
      if count < MAX_RETRY_HISTORY {
        stamps[count] := stamp;
        count := count + 1;
        contents := contents + [stamp];
        return;
      }
      forall i | 0 <= i < MAX_RETRY_HISTORY - 1 {
        stamps[i] := stamps[i + 1];
      }
      stamps[MAX_RETRY_HISTORY - 1] := stamp;
      contents := contents[1..] + [stamp];
    }
  }

  class Channel {
    const caps: Caps
    const retries: RetryHistory
    var cfg: Config
    var cal: Calibration
    var drive: Spec.Drive
    var meas: Spec.Readings
    var fault: Spec.FaultRecord
    var session: Spec.CalSession
    var uptime: uint32

    // The registers of the device behind the channel.
    var dev: Spec.Device

    ghost var now: nat
    ghost var log: seq<nat>

    ghost predicate Valid()
      reads this, retries, retries.stamps
    {
      retries.Valid() && CalibrationOk(cal)
    }

    ghost function View(): Spec.State
      reads this, retries
    {
      Spec.State(caps, cfg, cal, drive, meas, fault, session, retries.contents, uptime, dev, now, log)
    }

    constructor (caps: Caps, cfg: Config, cal: Calibration)
      requires CalibrationOk(cal)
      ensures Valid() && fresh(this) && fresh(retries) && fresh(retries.stamps)
      ensures View() == Spec.Init(caps, cfg, cal)
    {
      this.caps, this.cfg, this.cal := caps, cfg, cal;
      retries := new RetryHistory();
      drive := Spec.Drive(false, false, false, 0, 0, 0, false, 0, 0, Spec.DisabledSafe);
      meas := Spec.Readings(0, 0, 0, 0);
      fault := Spec.FaultRecord({}, {}, 0, 0);
      session := Spec.CalSession(0, false);
      uptime := 0;
      dev := Spec.Device(0, false);
      now, log := 0, [];
    }

    // `vc_channel_init` on an existing record; the device keeps its registers.
    method Reinit(config: Config, calibration: Calibration)
      requires Valid() && CalibrationOk(calibration)
      modifies this, retries
      ensures Valid() && View() == Spec.Reinit(old(View()), config, calibration)
    {
      cfg, cal := config, calibration;
      retries.Clear();
      drive := Spec.Drive(false, false, false, 0, 0, 0, false, 0, 0, Spec.DisabledSafe);
      meas := Spec.Readings(0, 0, 0, 0);
      fault := Spec.FaultRecord({}, {}, 0, 0);
      session := Spec.CalSession(0, false);
      uptime := 0;
      now, log := 0, [];
    }

    method RawDriveFromTarget(target: int16) returns (code: uint16)
      requires Valid()
      ensures code == Spec.RawDrive(cal, target)
    {
      var raw := ApplyGain(target, cal.outputK, cal.outputKExp);
      raw := raw + cal.outputB;
      if raw <= 0 {
        return 0;
      }
      if raw > UINT16_MAX {
        return UINT16_MAX;
      }
      return raw;
    }

    method ApplyHw()
      requires Valid()
      modifies this`dev
      ensures Valid() && View() == Spec.ApplyHw(old(View()))
    {
      var enable, code := false, 0;
      if session.calOutput {
        enable, code := true, session.rawDac;
      } else if drive.outputEnabled {
        enable := true;
        code := RawDriveFromTarget(drive.opTarget);
      } else if drive.smf == Spec.DisabledHvOn {
        enable, code := true, 0;
      }
      dev := Spec.Device(code, enable);
    }

    method ApplyProtectionAction(action: uint16)
      requires Valid()
      modifies this
      ensures Valid() && View() == Spec.ProtectionAct(old(View()), action)
    {
      fault := fault.(lastProtection := action);
      var effective := action;
      if !caps.rawDrive {
        effective := ACTION_DISABLE_FORCE;
      }
      if effective == ACTION_DISABLE_GRACEFUL {
        drive := drive.(gracefulDest := 0);
        drive := drive.(rampToDisable := true);
        drive := drive.(outputEnabled := true);
        drive := drive.(ramping := true);
        drive := drive.(smf := Spec.Ramping);
      } else if effective == ACTION_DISABLE_IMMEDIATE {
        drive := drive.(outputEnabled := false, ramping := false, rampToDisable := false);
        drive := drive.(opTarget := 0);
        drive := drive.(smf := Spec.DisabledHvOn);
      } else if effective == ACTION_DISABLE_FORCE {
        drive := drive.(outputEnabled := false, ramping := false, rampToDisable := false);
        drive := drive.(opTarget := 0);
        drive := drive.(smf := Spec.DisabledSafe);
      }
      ApplyHw();
    }

    method TickCurrentProtection()
      requires Valid()
      modifies this
      ensures Valid() && View() == Spec.TickProtection(old(View()))
    {
      if fault.active != {} || drive.ramping || cfg.protectionMode == PROTECTION_DISABLED {
        return;
      }
      if meas.measuredI <= cfg.currentLimit {
        return;
      }
      fault := fault.(history := fault.history + {Current});
      if cfg.protectionMode != PROTECTION_APPLY_OUTPUT_ACTION {
        return;
      }
      fault := fault.(active := fault.active + {Current});
      fault := fault.(lastFaultAt := uptime);
      ghost var latched := View();
      ApplyProtectionAction(cfg.protectionAction);
      assert View() == Spec.ProtectionAct(latched, cfg.protectionAction);
      drive := drive.(smf := Spec.FaultLatched);
    }

    method ForceSafeState()
      requires Valid()
      modifies this
      ensures Valid() && View() == Spec.ConsumeFault(old(View()), {})
    {
      drive := drive.(outputEnabled := false, ramping := false, recovering := false);
      drive := drive.(cooldown := 0);
      session := session.(calOutput := false);
      session := session.(rawDac := 0);
      drive := drive.(opTarget := 0);
      drive := drive.(smf := Spec.DisabledSafe);
      ApplyHw();
      assert old(fault.active) + {} == old(fault.active) && old(fault.history) + {} == old(fault.history);
    }

    method IsSafeToClearActive() returns (safe: bool)
      requires Valid()
      ensures safe == Spec.SafeToClear(View())
    {
      if Current in fault.active {
        var safeLimit := TruncDiv(cfg.currentLimit * (100 - cfg.safeBandPct), 100);
        if meas.measuredI > safeLimit {
          return false;
        }
      }
      return true;
    }

    method CountActiveRetries() returns (count: nat)
      requires Valid()
      ensures count == Spec.CountActiveRetries(View())
    {
      count := retries.CountRecent(uptime, cfg.retryWindow * 1000);
    }

    method RecordRetryAttempt()
      requires Valid()
      modifies this`log, retries, retries.stamps
      ensures Valid() && View() == Spec.RecordRetry(old(View()))
    {
      log := log + [now];
      retries.Record(uptime);
    }

    // The second half of `tick_recovery`: the cool-down is over and the reading is safe.
    method RetryOrExhaust()
      requires Valid()
      modifies this, retries, retries.stamps
      ensures Valid() && View() == Spec.RetryOrExhaust(old(View()))
    {
      var count := CountActiveRetries();
      if count >= cfg.retryMax {
        fault := fault.(active := fault.active + {RetryExhaust});
        drive := drive.(smf := Spec.FaultLatched);
        return;
      }
      var target: int := cfg.target;
      if cfg.recoveryPolicy == RECOVERY_AUTO_DERATE_RETRY {
        target := target - (count + 1) * cfg.derateStep;
        if target <= 0 {
          fault := fault.(active := fault.active + {RetryExhaust});
          drive := drive.(smf := Spec.FaultLatched);
          return;
        }
      }
      RecordRetryAttempt();
      fault := fault.(active := {});
      drive := drive.(recovering := true);
      drive := drive.(recoveryTarget := ToInt16(target));
      drive := drive.(outputEnabled := true);
      ApplyHw();
    }

    method TickRecovery(mode: uint16, dt: uint32)
      requires Valid()
      modifies this, retries, retries.stamps
      ensures Valid() && View() == Spec.TickRecovery(old(View()), mode, dt)
    {
      if mode != MODE_AUTOMATIC || fault.active != {Current} {
        return;
      }
      if cfg.recoveryPolicy != RECOVERY_AUTO_RETRY && cfg.recoveryPolicy != RECOVERY_AUTO_DERATE_RETRY {
        return;
      }
      if drive.ramping {
        return;
      }
      if drive.smf != Spec.RetryCooldown {
        drive := drive.(cooldown := cfg.retryDelay * 1000);
        drive := drive.(smf := Spec.RetryCooldown);
      }
      if drive.cooldown > dt {
        drive := drive.(cooldown := drive.cooldown - dt);
        return;
      }
      drive := drive.(cooldown := 0);
      var safe := IsSafeToClearActive();
      if safe {
        RetryOrExhaust();
      }
    }

    method Run(dt: uint32, v: Option<int32>, i: Option<int32>, mode: uint16)
      requires Valid()
      modifies this, retries, retries.stamps
      ensures Valid() && View() == Spec.Run(old(View()), dt, v, i, mode)
    {
      hide Spec.TickRamp, Spec.TickRecovery, Spec.ConsumeVoltage, Spec.ConsumeCurrent;
      uptime := ToUint32(uptime + dt);
      now := now + dt;
      if v.Some? {
        ConsumeVoltage(v.value);
      }
      if i.Some? {
        ConsumeCurrent(i.value);
      }
      TickRamp(dt);
      TickRecovery(mode, dt);
    }

    method SetConfig(config: Config) returns (st: Status)
      requires Valid()
      modifies this
      ensures Valid() && (View(), st) == Spec.SetConfig(old(View()), config)
    {
      if !CapabilityAllows(caps, cfg, config) {
        return UnsupportedCapability;
      }
      if config.target > MAX_TARGET || config.target < 0 {
        return InvalidValue;
      }
      if config.currentLimit < 0 {
        return InvalidValue;
      }
      if !ValidProtectionMode(config.protectionMode) || !ValidProtectionAction(config.protectionAction) {
        return InvalidValue;
      }
      cfg := config;
      ApplyHw();
      return Ok;
    }

    // Checks one field and writes it into the configuration.
    method WriteField(field: ConfigField, value: uint16) returns (st: Status)
      modifies this`cfg
      ensures st == Spec.FieldStatus(caps, field, value)
      ensures cfg == if st == Ok then Spec.WithField(old(cfg), field, value) else old(cfg)
    {
      match field {
        case OperatingMode => return InvalidValue;
        case StartupChannelPolicy => return InvalidValue;
        case ConfiguredTarget =>
          if !caps.rawDrive {
            return UnsupportedCapability;
          }
          if ToInt16(value) > MAX_TARGET || ToInt16(value) < 0 {
            return InvalidValue;
          }
          cfg := cfg.(target := ToInt16(value));
        case ConfiguredOutputEnabled =>
          if caps.rawDrive || !caps.outputEnable {
            return UnsupportedCapability;
          }
          cfg := cfg.(outputEnabled := value != 0);
        case RampUpStep =>
          if !caps.rawDrive {
            return UnsupportedCapability;
          }
          cfg := cfg.(rampUpStep := value);
        case RampUpInterval =>
          if !caps.rawDrive {
            return UnsupportedCapability;
          }
          cfg := cfg.(rampUpInterval := value);
        case RampDownStep =>
          if !caps.rawDrive {
            return UnsupportedCapability;
          }
          cfg := cfg.(rampDownStep := value);
        case RampDownInterval =>
          if !caps.rawDrive {
            return UnsupportedCapability;
          }
          cfg := cfg.(rampDownInterval := value);
        case RecoveryPolicy => cfg := cfg.(recoveryPolicy := value);
        case RetryDelay => cfg := cfg.(retryDelay := value);
        case RetryMax =>
          if value > MAX_RETRY_HISTORY {
            return InvalidValue;
          }
          cfg := cfg.(retryMax := value);
        case RetryWindow => cfg := cfg.(retryWindow := value);
        case SafeBandPct => cfg := cfg.(safeBandPct := value);
        case ProtectionMode =>
          if !caps.current {
            return UnsupportedCapability;
          }
          if !ValidProtectionMode(value) {
            return InvalidValue;
          }
          cfg := cfg.(protectionMode := value);
        case ProtectionAction =>
          if !caps.current {
            return UnsupportedCapability;
          }
          if !ValidProtectionAction(value) {
            return InvalidValue;
          }
          cfg := cfg.(protectionAction := value);
        case CurrentLimit =>
          if !caps.current {
            return UnsupportedCapability;
          }
          if ToInt16(value) < 0 {
            return InvalidValue;
          }
          cfg := cfg.(currentLimit := ToInt16(value));
        case DerateStep =>
          if !caps.rawDrive || !caps.voltage {
            return UnsupportedCapability;
          }
          cfg := cfg.(derateStep := value);
      }
      return Ok;
    }

    method SetField(field: ConfigField, value: uint16) returns (st: Status)
      requires Valid()
      modifies this
      ensures Valid() && (View(), st) == Spec.SetField(old(View()), field, value)
    {
      hide Spec.FieldStatus, Spec.WithField, Spec.HwCode, Spec.HwEnable;
      st := WriteField(field, value);
      if st == Ok {
        ApplyHw();
      }
    }

    method OutputAction(request: uint16) returns (st: Status)
      requires Valid()
      modifies this
      ensures Valid() && (View(), st) == Spec.OutputAction(old(View()), request)
    {
      if !ValidHostAction(request) {
        return InvalidCommand;
      }
      var action := request;
      if !caps.rawDrive {
        if action == ACTION_DISABLE_GRACEFUL || action == ACTION_DISABLE_IMMEDIATE {
          action := ACTION_DISABLE_FORCE;
        }
      }
      if !caps.outputEnable &&
         (action == ACTION_DISABLE_GRACEFUL || action == ACTION_DISABLE_IMMEDIATE ||
          action == ACTION_DISABLE_FORCE) {
        return UnsupportedCapability;
      }
      if action == ACTION_ENABLE {
        if fault.active != {} {
          return UnsafeState;
        }
        drive := drive.(outputEnabled := true, ramping := true, rampToDisable := false);
        drive := drive.(smf := Spec.Ramping);
      } else if action == ACTION_DISABLE_GRACEFUL {
        drive := drive.(gracefulDest := 0);
        drive := drive.(rampToDisable := true);
        drive := drive.(outputEnabled := true);
        drive := drive.(ramping := true);
        drive := drive.(cooldown := 0);
        drive := drive.(smf := Spec.Ramping);
      } else if action == ACTION_DISABLE_IMMEDIATE {
        drive := drive.(outputEnabled := false, ramping := false, rampToDisable := false);
        drive := drive.(opTarget := 0);
        drive := drive.(smf := Spec.DisabledHvOn);
      } else if action == ACTION_DISABLE_FORCE {
        drive := drive.(outputEnabled := false, ramping := false, rampToDisable := false);
        drive := drive.(opTarget := 0);
        drive := drive.(smf := Spec.DisabledSafe);
      } else {
        return Ok;
      }
      ApplyHw();
      return Ok;
    }

    method FaultCommand(cmd: uint16) returns (st: Status)
      requires Valid()
      modifies this
      ensures Valid() && (View(), st) == Spec.FaultCommand(old(View()), cmd)
    {
      if cmd > FAULT_COMMAND_CLEAR_HISTORY {
        return InvalidCommand;
      }
      if cmd == FAULT_COMMAND_CLEAR_ACTIVE {
        if fault.active != {} {
          var safe := IsSafeToClearActive();
          if !safe {
            return UnsafeState;
          }
          fault := fault.(active := {});
          drive := drive.(smf := Spec.DisabledSafe);
        }
      } else if cmd == FAULT_COMMAND_CLEAR_HISTORY {
        fault := fault.(history := {});
      }
      return Ok;
    }

    method ConsumeVoltage(raw: int32)
      requires Valid()
      modifies this
      ensures Valid() && View() == Spec.ConsumeVoltage(old(View()), raw)
    {
      meas := meas.(rawAdcV := raw);
      var scaled := ApplyGain(raw, cal.voltageK, cal.voltageKExp);
      meas := meas.(measuredV := ClampInt16(scaled + cal.voltageB));
    }

    method ConsumeCurrent(raw: int32)
      requires Valid()
      modifies this
      ensures Valid() && View() == Spec.ConsumeCurrent(old(View()), raw)
    {
      meas := meas.(rawAdcI := raw);
      var scaled := ApplyGain(raw, cal.currentK, cal.currentKExp);
      meas := meas.(measuredI := ClampInt16(scaled + cal.currentB));
      if !drive.ramping {
        TickCurrentProtection();
      }
    }

    method ConsumeFault(cause: Faults)
      requires Valid()
      modifies this
      ensures Valid() && View() == Spec.ConsumeFault(old(View()), cause)
    {
      fault := fault.(active := fault.active + cause);
      fault := fault.(history := fault.history + cause);
      ForceSafeState();
      assert fault.active + {} == fault.active && fault.history + {} == fault.history;
    }

    // The end of a ramp, shared by its arrival points.
    method FinishRamp()
      modifies this`drive
      ensures drive == Spec.Arrive(old(drive))
    {
      drive := drive.(ramping := false);
      if drive.rampToDisable {
        drive := drive.(rampToDisable := false);
        drive := drive.(outputEnabled := false);
        drive := drive.(smf := Spec.DisabledSafe);
      } else {
        drive := drive.(recovering := false);
        drive := drive.(smf := Spec.EnabledHolding);
      }
    }

    // The `while` loop of `vc_channel_tick_ramp`.
    method RampLoop(start: int16, target: int16, step: uint16, intervalMs: uint32) returns (current: int16)
      requires intervalMs > 0
      modifies this`drive
      ensures drive == old(drive).(rampAccum := drive.rampAccum)
      ensures (drive.rampAccum, current) == Spec.RampSteps(old(drive).rampAccum, start, target, step, intervalMs)
    {
      current := start;
      ghost var spec := Spec.RampSteps(drive.rampAccum, current, target, step, intervalMs);
      while drive.rampAccum >= intervalMs && current != target
        invariant Spec.RampSteps(drive.rampAccum, current, target, step, intervalMs) == spec
        invariant drive == old(drive).(rampAccum := drive.rampAccum)
        decreases drive.rampAccum
      {
        drive := drive.(rampAccum := drive.rampAccum - intervalMs);
        if current < target {
          current := ToInt16(current + ToInt16(step));
          if current > target {
            current := target;
          }
        } else {
          current := ToInt16(current - ToInt16(step));
          if current < target {
            current := target;
          }
        }
      }
    }

    // The part of `vc_channel_tick_ramp` that moves the voltage.
    method MoveRamp(target: int16, dt: uint32)
      requires target == Spec.RampTarget(View()) && drive.opTarget != target
      modifies this`drive
      ensures drive == Spec.RampMove(old(View()), dt)
    {
      var current := drive.opTarget;
      var step: int, interval: int := cfg.rampDownStep, cfg.rampDownInterval;
      if current < target {
        step, interval := cfg.rampUpStep, cfg.rampUpInterval;
      }
      drive := drive.(ramping := true);
      if step == 0 || interval == 0 {
        drive := drive.(opTarget := target);
        FinishRamp();
        return;
      }
      drive := drive.(rampAccum := ToUint32(drive.rampAccum + dt));
      current := RampLoop(current, target, step, interval * 1000);
      drive := drive.(opTarget := current);
      if current == target {
        FinishRamp();
      }
    }

    method TickRamp(dt: uint32)
      requires Valid()
      modifies this
      ensures Valid() && View() == Spec.TickRamp(old(View()), dt)
    {
      if !drive.outputEnabled {
        return;
      }
      if fault.active != {} && !drive.rampToDisable {
        return;
      }
      var target := if drive.rampToDisable then drive.gracefulDest
                    else if drive.recovering then drive.recoveryTarget
                    else cfg.target;
      var current: int16 := drive.opTarget;
      if current == target {
        if drive.ramping {
          var disabling := drive.rampToDisable;
          FinishRamp();
          if disabling {
            ApplyHw();
          }
        }
        return;
      }
      MoveRamp(target, dt);
      ApplyHw();
    }

    method ResetCalibration(entering: bool)
      requires Valid()
      modifies this
      ensures Valid() && View() == Spec.ResetCalibration(old(View()), entering)
    {
      drive := drive.(outputEnabled := false, ramping := false);
      drive := drive.(rampAccum := 0, cooldown := 0);
      drive := drive.(opTarget := 0);
      meas := meas.(measuredV := 0, measuredI := 0);
      session := session.(rawDac := 0, calOutput := false);
      meas := meas.(rawAdcV := 0, rawAdcI := 0);
      drive := drive.(smf := if entering then Spec.CalibrationOutput else Spec.DisabledSafe);
      ApplyHw();
    }

    method CalSetOutputEnable(enable: bool) returns (st: Status)
      requires Valid()
      modifies this
      ensures Valid() && (View(), st) == Spec.CalSetOutputEnable(old(View()), enable)
    {
      if !caps.rawDrive {
        return UnsupportedCapability;
      }
      if enable {
        if HardFault(fault.active) {
          return UnsafeState;
        }
        session := session.(calOutput := true);
      } else {
        session := session.(calOutput := false);
        session := session.(rawDac := 0);
        meas := meas.(rawAdcV := 0, rawAdcI := 0);
      }
      ApplyHw();
      return Ok;
    }

    method CalSetRawDac(code: uint32) returns (st: Status)
      requires Valid()
      modifies this
      ensures Valid() && (View(), st) == Spec.CalSetRawDac(old(View()), code)
    {
      if !caps.rawDrive {
        return UnsupportedCapability;
      }
      if code > CAL_MAX_RAW_DAC {
        return InvalidValue;
      }
      if code != 0 && HardFault(fault.active) {
        return UnsafeState;
      }
      if code != 0 && !session.calOutput {
        return UnsafeState;
      }
      session := session.(rawDac := code);
      ApplyHw();
      return Ok;
    }

    method CalSample(v: int32, i: int32) returns (st: Status)
      requires Valid()
      modifies this
      ensures Valid() && (View(), st) == Spec.CalSample(old(View()), v, i)
    {
      if !caps.voltage && !caps.current {
        return UnsupportedCapability;
      }
      if caps.voltage {
        meas := meas.(rawAdcV := v);
      }
      if caps.current {
        meas := meas.(rawAdcI := i);
      }
      return Ok;
    }

    method CalCommit() returns (st: Status)
      requires Valid()
      ensures st == Spec.CalCommit(View())
    {
      if session.calOutput || session.rawDac != 0 || HardFault(fault.active) {
        return UnsafeState;
      }
      return Ok;
    }

    method SetCalField(field: CalField, value: uint16) returns (st: Status)
      requires Valid()
      modifies this
      ensures Valid() && (View(), st) == Spec.SetCalField(old(View()), field, value)
    {
      match field {
        case OutputK => cal := cal.(outputK := value);
        case OutputB => cal := cal.(outputB := ToInt16(value));
        case OutputKExp =>
          if !ExponentOk(ToInt16(value)) {
            return InvalidValue;
          }
          cal := cal.(outputKExp := ToInt16(value));
        case VoltageK => cal := cal.(voltageK := value);
        case VoltageB => cal := cal.(voltageB := ToInt16(value));
        case VoltageKExp =>
          if !ExponentOk(ToInt16(value)) {
            return InvalidValue;
          }
          cal := cal.(voltageKExp := ToInt16(value));
        case CurrentK => cal := cal.(currentK := value);
        case CurrentB => cal := cal.(currentB := ToInt16(value));
        case CurrentKExp =>
          if !ExponentOk(ToInt16(value)) {
            return InvalidValue;
          }
          cal := cal.(currentKExp := ToInt16(value));
      }
      ApplyHw();
      return Ok;
    }

    // Not range-checked here: the caller's storage has to hold checked values.
    method LoadCal(calibration: Calibration)
      requires Valid() && CalibrationOk(calibration)
      modifies this
      ensures Valid() && View() == Spec.LoadCal(old(View()), calibration)
    {
      cal := calibration;
      ApplyHw();
    }
  }
}
