/**
  C integer types of the firmware, the conversions it relies on, and C's
  truncating division. Dafny's own `/` and `%` are Euclidean.
 */
module CInt {
  type int16 = x: int | -0x8000 <= x <= 0x7FFF
  type uint16 = x: int | 0 <= x <= 0xFFFF
  type int32 = x: int | -0x8000_0000 <= x <= 0x7FFF_FFFF
  type uint32 = x: int | 0 <= x <= 0xFFFF_FFFF

  const INT16_MAX: int := 0x7FFF
  const UINT16_MAX: int := 0xFFFF
  const TWO_32: int := 0x1_0000_0000
  const INT64_MAX: int := 0x7FFF_FFFF_FFFF_FFFF

  // Conversion to int16_t keeps the low sixteen bits.
  function ToInt16(x: int): int16 {
    var low := x % 0x1_0000;
    if low >= 0x8000 then low - 0x1_0000 else low
  }

  function ToUint32(x: int): uint32 {
    x % TWO_32
  }

  function ClampInt16(x: int): int16 {
    if x > 0x7FFF then 0x7FFF else if x < -0x8000 then -0x8000 else x
  }

  // C division: the quotient is rounded towards zero.
  function TruncDiv(a: int, b: int): int
    requires b > 0
  {
    if a >= 0 then a / b else -((-a) / b)
  }

  // The representative of the residue class; the result type leaves only one.
  lemma ToInt16Exact(x: int, r: int16)
    ensures r == ToInt16(x) <==> (x - r) % 0x1_0000 == 0
  {
  }

  lemma ToUint32Exact(x: int, r: uint32)
    ensures r == ToUint32(x) <==> (x - r) % TWO_32 == 0
  {
  }

  lemma MulMonotone(x: int, y: int, d: nat)
    requires x <= y
    ensures d * x <= d * y
  {
  }

  // The quotient is the only integer between the two products.
  lemma QuotientIs(a: int, d: int, q: int)
    requires d > 0 && d * q <= a < d * q + d
    ensures a / d == q
  {
    var p := a / d;
    assert d * p <= a < d * p + d;
    if p < q {
      MulMonotone(p + 1, q, d);
    } else if q < p {
      MulMonotone(q + 1, p, d);
    }
  }

  lemma DivMonotone(a: int, b: int, d: int)
    requires a <= b && d > 0
    ensures a / d <= b / d
  {
    var p, q := a / d, b / d;
    assert d * p <= a && b < d * q + d;
    if p > q {
      MulMonotone(q + 1, p, d);
    }
  }

  lemma DivNonNegative(a: nat, d: int)
    requires d > 0
    ensures 0 <= a / d <= a
  {
    var q := a / d;
    assert d * q <= a < d * q + d;
    assert q >= 0;
    MulMonotone(1, d, q);
  }

  lemma TruncDivMonotone(a: int, b: int, d: int)
    requires a <= b && d > 0
    ensures TruncDiv(a, d) <= TruncDiv(b, d)
  {
    if a >= 0 {
      DivMonotone(a, b, d);
    } else if b < 0 {
      DivMonotone(-b, -a, d);
    } else {
      DivNonNegative(-a, d);
      DivNonNegative(b, d);
    }
  }

  // What is left has the sign of the dividend and is smaller than the divisor.
  lemma TruncDivExact(a: int, b: int)
    requires b > 0
    ensures var q := TruncDiv(a, b);
            && (a >= 0 ==> 0 <= a - q * b < b)
            && (a <= 0 ==> -b < a - q * b <= 0)
  {
    var p := (if a >= 0 then a else -a) / b;
    assert b * p <= (if a >= 0 then a else -a) < b * p + b;
    assert TruncDiv(a, b) * b == (if a >= 0 then b * p else -(b * p));
  }

  // Truncating division never grows the magnitude.
  lemma TruncDivShrinks(a: int, d: int, bound: int)
    requires d > 0 && -bound <= a <= bound
    ensures -bound <= TruncDiv(a, d) <= bound
  {
    DivNonNegative(if a >= 0 then a else -a, d);
  }
}
