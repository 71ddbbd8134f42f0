/**
  Shared types of the voltage-control library: build options, enumerations,
  capabilities, fault causes and the two per-channel configuration records
  (include/voltage_control/vc_types.h, lib/voltage_control/Kconfig).
 */
module VcTypes {
  import opened CInt

  // Kconfig options. Each one is an arbitrary value of its Kconfig range, so
  // everything below holds for every build.
  type TargetLimit = x: int | 1 <= x <= 32767 witness 20000
  type RetryHistory = x: int | 1 <= x <= 32 witness 8
  type DacLimit = x: uint16 | 1 <= x <= 65535 witness 65535
  type CalTimeout = x: int | 1 <= x <= 3600 witness 300
  type BootMode = x: uint16 | 0 <= x <= 1 witness 0
  type ExpRange = x: int16 | -9 <= x <= 4 witness -4

  const MAX_TARGET: TargetLimit
  const MAX_RETRY_HISTORY: RetryHistory
  const CAL_MAX_RAW_DAC: DacLimit
  const CAL_WATCHDOG_TIMEOUT_S: CalTimeout
  const DEFAULT_OPERATING_MODE: BootMode
  const DEFAULT_OUTPUT_ENABLED: bool
  const DEFAULT_RAMP_STEP: uint16
  const DEFAULT_CURRENT_LIMIT: TargetLimit
  const DEFAULT_SAFE_BAND_PCT: uint16
  const DEFAULT_OUTPUT_K: uint16
  const DEFAULT_OUTPUT_K_EXP: ExpRange
  const DEFAULT_V_K: uint16
  const DEFAULT_V_K_EXP: ExpRange
  const DEFAULT_I_K: uint16
  const DEFAULT_I_K_EXP: ExpRange

  datatype Status =
    | Ok
    | UnsupportedChannel
    | InvalidValue
    | InvalidCommand
    | UnsafeState
    | StorageError
    | UnsupportedCapability

  // Enumerations arrive as 16-bit register values that are cast, not checked,
  // so they are kept as integers.
  const MODE_NORMAL: uint16 := 0
  const MODE_AUTOMATIC: uint16 := 1
  const MODE_CALIBRATION: uint16 := 2

  const ACTION_NONE: uint16 := 0
  const ACTION_ENABLE: uint16 := 1
  const ACTION_DISABLE_GRACEFUL: uint16 := 2
  const ACTION_DISABLE_IMMEDIATE: uint16 := 3
  const ACTION_DISABLE_FORCE: uint16 := 4

  const FAULT_COMMAND_CLEAR_ACTIVE: uint16 := 1
  const FAULT_COMMAND_CLEAR_HISTORY: uint16 := 2

  const PROTECTION_DISABLED: uint16 := 0
  const PROTECTION_APPLY_OUTPUT_ACTION: uint16 := 2

  const RECOVERY_MANUAL_LATCH: uint16 := 0
  const RECOVERY_AUTO_RETRY: uint16 := 1
  const RECOVERY_AUTO_DERATE_RETRY: uint16 := 2

  const PARAM_NONE: uint16 := 0
  const PARAM_SAVE: uint16 := 1
  const PARAM_LOAD: uint16 := 2
  const PARAM_FACTORY_RESET: uint16 := 3

  const CAL_UNLOCK_STEP1: uint16 := 0xCA1B
  const CAL_UNLOCK_STEP2: uint16 := 0xA11B

  // A fault mask is the set of its bits.
  datatype Fault =
    | Current
    | Measurement
    | Hardware
    | Interlock
    | RetryExhaust
    | CfgInvalid
    | Stale
    | Unnamed(bit: nat)

  type Faults = set<Fault>

  predicate HardFault(f: Faults) {
    Hardware in f || Interlock in f
  }

  datatype Caps = Caps(outputEnable: bool, rawDrive: bool, voltage: bool, current: bool)

  datatype Config = Config(
    target: int16,
    outputEnabled: bool,
    rampUpStep: uint16,
    rampUpInterval: uint16,
    rampDownStep: uint16,
    rampDownInterval: uint16,
    recoveryPolicy: uint16,
    retryDelay: uint16,
    retryMax: uint16,
    retryWindow: uint16,
    safeBandPct: uint16,
    protectionMode: uint16,
    protectionAction: uint16,
    currentLimit: int16,
    derateStep: uint16)

  datatype Calibration = Calibration(
    outputK: uint16, outputB: int16, outputKExp: int16,
    voltageK: uint16, voltageB: int16, voltageKExp: int16,
    currentK: uint16, currentB: int16, currentKExp: int16)

  datatype ConfigField =
    | OperatingMode
    | StartupChannelPolicy
    | ConfiguredTarget
    | ConfiguredOutputEnabled
    | RampUpStep
    | RampUpInterval
    | RampDownStep
    | RampDownInterval
    | RecoveryPolicy
    | RetryDelay
    | RetryMax
    | RetryWindow
    | SafeBandPct
    | ProtectionMode
    | ProtectionAction
    | CurrentLimit
    | DerateStep

  datatype CalField =
    | OutputK | OutputB | OutputKExp
    | VoltageK | VoltageB | VoltageKExp
    | CurrentK | CurrentB | CurrentKExp

  datatype SystemConfig = SystemConfig(mode: uint16, startupPolicy: uint16)

  function DefaultConfig(): Config {
    Config(0, DEFAULT_OUTPUT_ENABLED, DEFAULT_RAMP_STEP, 1, DEFAULT_RAMP_STEP, 1,
           RECOVERY_MANUAL_LATCH, 0, 0, 0, DEFAULT_SAFE_BAND_PCT,
           PROTECTION_DISABLED, ACTION_DISABLE_IMMEDIATE, DEFAULT_CURRENT_LIMIT, 0)
  }

  function DefaultCalibration(): Calibration {
    Calibration(DEFAULT_OUTPUT_K, 0, DEFAULT_OUTPUT_K_EXP,
                DEFAULT_V_K, 0, DEFAULT_V_K_EXP,
                DEFAULT_I_K, 0, DEFAULT_I_K_EXP)
  }

  function DefaultSystemConfig(): SystemConfig {
    SystemConfig(DEFAULT_OPERATING_MODE, 0)
  }

  predicate ExponentOk(e: int16) {
    -9 <= e <= 4
  }

  // All three gains have an exponent inside the range checked on write.
  predicate CalibrationOk(cal: Calibration) {
    ExponentOk(cal.outputKExp) && ExponentOk(cal.voltageKExp) && ExponentOk(cal.currentKExp)
  }

  predicate ValidHostAction(action: uint16) {
    action <= ACTION_DISABLE_FORCE
  }

  predicate ValidProtectionMode(mode: uint16) {
    mode <= PROTECTION_APPLY_OUTPUT_ACTION
  }

  predicate ValidProtectionAction(action: uint16) {
    action == ACTION_NONE || action == ACTION_DISABLE_GRACEFUL ||
    action == ACTION_DISABLE_IMMEDIATE || action == ACTION_DISABLE_FORCE
  }

  // The range checks of a whole configuration.
  predicate ConfigInRange(cfg: Config) {
    && 0 <= cfg.target <= MAX_TARGET
    && 0 <= cfg.currentLimit
    && ValidProtectionMode(cfg.protectionMode)
    && ValidProtectionAction(cfg.protectionAction)
  }

  // Fields a channel's capabilities lock: a new configuration may not change
  // them (the target and the protection mode may only be zero).
  predicate CapabilityAllows(caps: Caps, was: Config, cfg: Config) {
    && (!caps.rawDrive ==>
          && cfg.target == 0
          && cfg.rampUpStep == was.rampUpStep
          && cfg.rampUpInterval == was.rampUpInterval
          && cfg.rampDownStep == was.rampDownStep
          && cfg.rampDownInterval == was.rampDownInterval)
    && (caps.rawDrive || !caps.outputEnable ==> cfg.outputEnabled == was.outputEnabled)
    && (!caps.current ==>
          && cfg.protectionMode == PROTECTION_DISABLED
          && cfg.protectionAction == was.protectionAction
          && cfg.currentLimit == was.currentLimit)
    && (!caps.rawDrive || !caps.voltage ==> cfg.derateStep == was.derateStep)
  }
}
