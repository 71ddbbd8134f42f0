/**
  The decimal-float gain arithmetic (lib/voltage_control/vc_channel.c:48-111):
  it stays inside int64_t, and the drive code is monotone in the target.
 */
module ChannelGains {
  import opened CInt
  import opened VcTypes
  import opened ChannelSpec
  import opened ChannelSafety

  lemma Pow10Values()
    ensures Pow10(0) == 1 && Pow10(1) == 10 && Pow10(2) == 100 && Pow10(3) == 1000 && Pow10(4) == 10000
  {
  }

  lemma ProductBound(x: int, y: int, mx: int, my: int)
    requires 0 <= mx && -mx <= x <= mx && 0 <= y <= my
    ensures -(mx * my) <= x * y <= mx * my
  {
    MulMonotone(y, my, mx);
    if x >= 0 {
      MulMonotone(x, mx, y);
      assert x * y == y * x && mx * y == y * mx;
    } else {
      MulMonotone(-x, mx, y);
      assert -(x * y) == y * (-x) && mx * y == y * mx;
    }
  }

  /**
    With an exponent in [-9, 4] the first product, the optional scaling and the
    result all fit in int64_t, with room for the 16-bit offset that is added.
   */
  lemma GainFitsInt64(raw: int32, mantissa: uint16, exp: int16)
    requires ExponentOk(exp)
    ensures -INT64_MAX <= raw * mantissa <= INT64_MAX
    ensures exp > 0 ==> -INT64_MAX <= raw * mantissa * Pow10(exp) <= INT64_MAX
    ensures -INT64_MAX + 0x8000 <= Gain(raw, mantissa, exp) <= INT64_MAX - 0x7FFF
  {
    var bound := 0x8000_0000 * 0xFFFF;
    ProductBound(raw, mantissa, 0x8000_0000, 0xFFFF);
    var scaled := raw * mantissa;
    assert -bound <= scaled <= bound;
    var e: int := exp;
    if exp > 0 {
      Pow10Values();
      Pow10Positive(exp);
      assert e == 1 || e == 2 || e == 3 || e == 4;
      assert Pow10(e) <= 10000;
      ProductBound(scaled, Pow10(e), bound, 10000);
    } else if exp < 0 {
      Pow10Positive(-e);
      TruncDivShrinks(scaled, Pow10(-e), bound);
    }
  }

  lemma GainMonotone(a: int, b: int, mantissa: uint16, exp: int)
    requires a <= b
    ensures Gain(a, mantissa, exp) <= Gain(b, mantissa, exp)
  {
    MulMonotone(a, b, mantissa);
    assert a * mantissa == mantissa * a && b * mantissa == mantissa * b;
    if exp > 0 {
      var p := Pow10(exp);
      Pow10Positive(exp);
      MulMonotone(a * mantissa, b * mantissa, p);
      assert a * mantissa * p == p * (a * mantissa) && b * mantissa * p == p * (b * mantissa);
    } else if exp < 0 {
      Pow10Positive(-exp);
      TruncDivMonotone(a * mantissa, b * mantissa, Pow10(-exp));
    }
  }

  // A higher target never drives the DAC lower; saturation keeps the order.
  lemma RawDriveMonotone(cal: Calibration, a: int, b: int)
    requires a <= b
    ensures RawDrive(cal, a) <= RawDrive(cal, b)
  {
    GainMonotone(a, b, cal.outputK, cal.outputKExp);
  }

  // ---- What the arithmetic computes ----

  // The table of powers in the source.
  const POWERS: seq<int> :=
    [1, 10, 100, 1000, 10000, 100000, 1000000, 10000000, 100000000, 1000000000]

  lemma PowersInTable(n: nat)
    ensures n < 10 ==> Pow10(n) == POWERS[n]
  {
    if 0 < n < 10 {
      PowersInTable(n - 1);
    }
  }

  /**
    `q` is `product` times ten to the `exp`; for a negative exponent the
    fraction is dropped towards zero.
   */
  predicate Scaled(q: int, product: int, exp: int)
    requires -9 <= exp <= 9
  {
    if exp >= 0 then q == product * POWERS[exp]
    else
      && (product >= 0 ==> 0 <= product - q * POWERS[-exp] < POWERS[-exp])
      && (product <= 0 ==> -POWERS[-exp] < product - q * POWERS[-exp] <= 0)
  }

  // The value `v` is `x`, saturated at both ends.
  predicate Saturates(x: int, v: int, low: int, high: int) {
    && (low <= x <= high ==> v == x)
    && (x <= low ==> v == low)
    && (x >= high ==> v == high)
  }

  lemma OneQuotient(a: int, d: int, p: int, q: int)
    requires d > 0 && -d < a - p * d < d && -d < a - q * d < d
    requires (a >= 0 ==> 0 <= a - p * d && 0 <= a - q * d) && (a <= 0 ==> a - p * d <= 0 && a - q * d <= 0)
    ensures p == q
  {
    if p < q {
      Apart(p, q, d);
    } else if q < p {
      Apart(q, p, d);
    }
  }

  lemma Apart(p: int, q: int, d: nat)
    requires p < q
    ensures p * d + d <= q * d
  {
    MulMonotone(p + 1, q, d);
    assert d * (p + 1) == p * d + d && d * q == q * d;
  }

  lemma PowersPositive(n: nat)
    requires n < 10
    ensures POWERS[n] > 0
  {
  }

  // It is the only such value, and the gain computes it.
  lemma GainExactly(q: int, raw: int, mantissa: uint16, exp: int)
    requires -9 <= exp <= 9
    ensures q == Gain(raw, mantissa, exp) <==> Scaled(q, raw * mantissa, exp)
  {
    hide Pow10;
    var product := raw * mantissa;
    if exp < 0 {
      PowersInTable(-exp);
      PowersPositive(-exp);
      var d := POWERS[-exp];
      TruncDivExact(product, d);
      if Scaled(q, product, exp) {
        OneQuotient(product, d, q, TruncDiv(product, d));
      }
    } else {
      PowersInTable(exp);
    }
  }

  // The DAC code of a target: scaled, offset added, saturated to sixteen bits.
  lemma DriveCodeExactly(cal: Calibration, target: int, q: int)
    requires CalibrationOk(cal) && Scaled(q, target * cal.outputK, cal.outputKExp)
    ensures Saturates(q + cal.outputB, RawDrive(cal, target), 0, UINT16_MAX)
    ensures RawDrive(cal, target) == 0 <==> q + cal.outputB <= 0
    ensures RawDrive(cal, target) == UINT16_MAX <==> q + cal.outputB >= UINT16_MAX
  {
    hide Gain, Scaled;
    GainExactly(q, target, cal.outputK, cal.outputKExp);
  }

  // A voltage reading is stored scaled, with its offset, saturated to int16_t.
  lemma VoltageReadingExactly(c: State, raw: int32, q: int)
    requires CalibrationOk(c.cal) && Scaled(q, raw * c.cal.voltageK, c.cal.voltageKExp)
    ensures var c' := ConsumeVoltage(c, raw);
            && c' == c.(meas := c.meas.(rawAdcV := raw, measuredV := c'.meas.measuredV))
            && Saturates(q + c.cal.voltageB, c'.meas.measuredV, -0x8000, INT16_MAX)
  {
    hide Gain, Scaled;
    GainExactly(q, raw, c.cal.voltageK, c.cal.voltageKExp);
  }

  // And a current reading, whether or not it trips.
  lemma CurrentReadingExactly(c: State, raw: int32, q: int)
    requires CalibrationOk(c.cal) && Scaled(q, raw * c.cal.currentK, c.cal.currentKExp)
    ensures var c' := ConsumeCurrent(c, raw);
            && c'.meas == c.meas.(rawAdcI := raw, measuredI := c'.meas.measuredI)
            && Saturates(q + c.cal.currentB, c'.meas.measuredI, -0x8000, INT16_MAX)
  {
    hide Gain, Scaled, HwCode, HwEnable;
    GainExactly(q, raw, c.cal.currentK, c.cal.currentKExp);
  }

  /**
    What the device is driven with, in every coherent state: the raw code of a
    calibration session, the code of the voltage when the output is on, or zero.
   */
  lemma DeviceCodeExactly(c: State, q: int)
    requires HwInv(c) && CalibrationOk(c.cal)
    requires Scaled(q, c.drive.opTarget * c.cal.outputK, c.cal.outputKExp)
    ensures c.session.calOutput ==> c.dev.dacCode == c.session.rawDac
    ensures !c.session.calOutput && c.drive.outputEnabled ==>
              Saturates(q + c.cal.outputB, c.dev.dacCode, 0, UINT16_MAX)
    ensures !c.session.calOutput && !c.drive.outputEnabled ==> c.dev.dacCode == 0
    ensures c.session.calOutput || c.drive.outputEnabled ==> c.dev.hvEnable
  {
    hide RawDrive, Scaled;
    DriveCodeExactly(c.cal, c.drive.opTarget, q);
  }
}
