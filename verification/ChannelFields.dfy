/**
  Writing and reading the registers of a channel's configuration and
  calibration: what is written is read back, nothing else changes, and the two
  ways of writing agree (lib/voltage_control/vc_channel.c:522-662, 1028-1085,
  vc_runtime.c:281-320).
 */
module ChannelFields {
  import opened CInt
  import opened VcTypes
  import opened ChannelSpec
  import opened ChannelSafety
  import opened ChannelRetryRuns

  // What the register of a field delivers: sixteen bits.
  function FieldValue(cfg: Config, field: ConfigField): uint16 {
    match field
    case OperatingMode => 0
    case StartupChannelPolicy => 0
    case ConfiguredTarget => cfg.target % 0x1_0000
    case ConfiguredOutputEnabled => if cfg.outputEnabled then 1 else 0
    case RampUpStep => cfg.rampUpStep
    case RampUpInterval => cfg.rampUpInterval
    case RampDownStep => cfg.rampDownStep
    case RampDownInterval => cfg.rampDownInterval
    case RecoveryPolicy => cfg.recoveryPolicy
    case RetryDelay => cfg.retryDelay
    case RetryMax => cfg.retryMax
    case RetryWindow => cfg.retryWindow
    case SafeBandPct => cfg.safeBandPct
    case ProtectionMode => cfg.protectionMode
    case ProtectionAction => cfg.protectionAction
    case CurrentLimit => cfg.currentLimit % 0x1_0000
    case DerateStep => cfg.derateStep
  }

  function CalValue(cal: Calibration, field: CalField): uint16 {
    match field
    case OutputK => cal.outputK
    case OutputB => cal.outputB % 0x1_0000
    case OutputKExp => cal.outputKExp % 0x1_0000
    case VoltageK => cal.voltageK
    case VoltageB => cal.voltageB % 0x1_0000
    case VoltageKExp => cal.voltageKExp % 0x1_0000
    case CurrentK => cal.currentK
    case CurrentB => cal.currentB % 0x1_0000
    case CurrentKExp => cal.currentKExp % 0x1_0000
  }

  // One register, one field.
  predicate SameField(a: Config, b: Config, field: ConfigField) {
    match field
    case OperatingMode => true
    case StartupChannelPolicy => true
    case ConfiguredTarget => a.target == b.target
    case ConfiguredOutputEnabled => a.outputEnabled == b.outputEnabled
    case RampUpStep => a.rampUpStep == b.rampUpStep
    case RampUpInterval => a.rampUpInterval == b.rampUpInterval
    case RampDownStep => a.rampDownStep == b.rampDownStep
    case RampDownInterval => a.rampDownInterval == b.rampDownInterval
    case RecoveryPolicy => a.recoveryPolicy == b.recoveryPolicy
    case RetryDelay => a.retryDelay == b.retryDelay
    case RetryMax => a.retryMax == b.retryMax
    case RetryWindow => a.retryWindow == b.retryWindow
    case SafeBandPct => a.safeBandPct == b.safeBandPct
    case ProtectionMode => a.protectionMode == b.protectionMode
    case ProtectionAction => a.protectionAction == b.protectionAction
    case CurrentLimit => a.currentLimit == b.currentLimit
    case DerateStep => a.derateStep == b.derateStep
  }

  lemma SameRegister(a: Config, b: Config, field: ConfigField)
    ensures FieldValue(a, field) == FieldValue(b, field) ==> SameField(a, b, field)
  {
    match field { case _ => }
  }

  lemma SameFields(a: Config, b: Config)
    requires forall f: ConfigField :: SameField(a, b, f)
    ensures a == b
  {
    assert SameField(a, b, ConfiguredTarget) && SameField(a, b, ConfiguredOutputEnabled);
    assert SameField(a, b, RampUpStep) && SameField(a, b, RampUpInterval);
    assert SameField(a, b, RampDownStep) && SameField(a, b, RampDownInterval);
    assert SameField(a, b, RecoveryPolicy) && SameField(a, b, RetryDelay);
    assert SameField(a, b, RetryMax) && SameField(a, b, RetryWindow);
    assert SameField(a, b, SafeBandPct) && SameField(a, b, ProtectionMode);
    assert SameField(a, b, ProtectionAction) && SameField(a, b, CurrentLimit) && SameField(a, b, DerateStep);
  }

  // The registers show all there is.
  lemma ConfigFromRegisters(a: Config, b: Config)
    requires forall f: ConfigField :: FieldValue(a, f) == FieldValue(b, f)
    ensures a == b
  {
    hide FieldValue, SameField;
    forall f: ConfigField ensures SameField(a, b, f) {
      SameRegister(a, b, f);
    }
    SameFields(a, b);
  }

  lemma CalibrationFromRegisters(a: Calibration, b: Calibration)
    requires forall f: CalField :: CalValue(a, f) == CalValue(b, f)
    ensures a == b
  {
    assert CalValue(a, OutputK) == CalValue(b, OutputK);
    assert CalValue(a, OutputB) == CalValue(b, OutputB);
    assert CalValue(a, OutputKExp) == CalValue(b, OutputKExp);
    assert CalValue(a, VoltageK) == CalValue(b, VoltageK);
    assert CalValue(a, VoltageB) == CalValue(b, VoltageB);
    assert CalValue(a, VoltageKExp) == CalValue(b, VoltageKExp);
    assert CalValue(a, CurrentK) == CalValue(b, CurrentK);
    assert CalValue(a, CurrentB) == CalValue(b, CurrentB);
    assert CalValue(a, CurrentKExp) == CalValue(b, CurrentKExp);
  }

  // What an accepted write of `value` reads back as: the flag is normalised.
  function Normal(field: ConfigField, value: uint16): uint16 {
    if field == ConfiguredOutputEnabled && value != 0 then 1 else value
  }

  /**
    An accepted write is read back, every other register keeps its value, and
    nothing but the configuration and the device changes; a refused write
    changes nothing.
   */
  lemma FieldReadBack(c: State, field: ConfigField, value: uint16, other: ConfigField)
    ensures var (c', st) := SetField(c, field, value);
            && (st == Ok ==> FieldValue(c'.cfg, field) == Normal(field, value))
            && (other != field ==> FieldValue(c'.cfg, other) == FieldValue(c.cfg, other))
            && (st != Ok ==> c' == c)
            && c' == c.(cfg := c'.cfg, dev := c'.dev)
  {
    hide HwCode, HwEnable;
    match field { case _ => match other { case _ => } }
  }

  lemma CalReadBack(c: State, field: CalField, value: uint16, other: CalField)
    ensures var (c', st) := SetCalField(c, field, value);
            && (st == Ok <==> (field.OutputKExp? || field.VoltageKExp? || field.CurrentKExp? ==>
                                 value <= 4 || value >= 0x1_0000 - 9))
            && (st == Ok ==> CalValue(c'.cal, field) == value && HwInv(c'))
            && (other != field ==> CalValue(c'.cal, other) == CalValue(c.cal, other))
            && (st != Ok ==> st == InvalidValue && c' == c)
            && c' == c.(cal := c'.cal, dev := c'.dev)
  {
    hide RawDrive;
    match field { case _ => match other { case _ => } }
  }

  // ---- The two ways of writing agree ----

  predicate IsSystemField(field: ConfigField) {
    field == OperatingMode || field == StartupChannelPolicy
  }

  /**
    A field write that would change a consistent configuration does what writing
    the whole configuration with that change does, error for error, except for
    a retry limit above the capacity, which only the field write refuses.
   */
  lemma FieldAgreesWithConfig(c: State, field: ConfigField, value: uint16, cfg: Config)
    requires Consistent(c.caps, c.cfg) && !IsSystemField(field)
    requires cfg != c.cfg && FieldValue(cfg, field) == Normal(field, value)
    requires forall f :: f != field ==> FieldValue(cfg, f) == FieldValue(c.cfg, f)
    ensures SetField(c, field, value) ==
            if field == RetryMax && value > MAX_RETRY_HISTORY then (c, InvalidValue) else SetConfig(c, cfg)
  {
    hide HwCode, HwEnable;
    WrittenConfig(c.cfg, field, value, cfg);
    match field { case _ => }
  }

  lemma WrittenConfig(was: Config, field: ConfigField, value: uint16, cfg: Config)
    requires !IsSystemField(field) && FieldValue(cfg, field) == Normal(field, value)
    requires forall f :: f != field ==> FieldValue(cfg, f) == FieldValue(was, f)
    ensures cfg == WithField(was, field, value)
  {
    var now := WithField(was, field, value);
    forall f: ConfigField ensures FieldValue(cfg, f) == FieldValue(now, f) {
      match field { case _ => match f { case _ => } }
    }
    ConfigFromRegisters(cfg, now);
  }

  // A whole configuration or calibration is taken over as it is.
  lemma ConfigReadBack(c: State, cfg: Config)
    ensures var (c', st) := SetConfig(c, cfg);
            && c'.cfg == (if st == Ok then cfg else c.cfg)
            && (st != Ok ==> c' == c)
            && (st == Ok ==> HwInv(c') && ConfigInRange(cfg))
            && c' == c.(cfg := c'.cfg, dev := c'.dev)
  {
    hide RawDrive;
  }

  lemma CalibrationReadBack(c: State, cal: Calibration)
    ensures LoadCal(c, cal).cal == cal && HwInv(LoadCal(c, cal))
    ensures LoadCal(c, cal) == c.(cal := cal, dev := LoadCal(c, cal).dev)
  {
    hide RawDrive;
  }
}
