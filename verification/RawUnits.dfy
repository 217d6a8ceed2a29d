/**
  Fixed-point helpers on raw integer units.  Bigints are unbounded, so `int` and `nat` model them exactly.
  Every contract is the multiplicative characterisation of the rounding; the bodies use division.
 */
module RawUnits {

  // Exchange rates are fixed-point integers with twelve decimals.
  const RATE_SCALE: nat := 1_000_000_000_000

  function Max(a: int, b: int): (r: int)
    ensures r >= a && r >= b && (r == a || r == b)
  {
    if a >= b then a else b
  }

  function Min(a: int, b: int): (r: int)
    ensures r <= a && r <= b && (r == a || r == b)
  {
    if a <= b then a else b
  }

  function ClampToZero(value: int): (r: nat)
    ensures r >= value
    ensures r == value || (r == 0 && value < 0)
  {
    if value < 0 then 0 else value
  }

  /** The least integer whose product with the denominator covers the numerator. */
  function CeilDiv(numerator: nat, denominator: nat): (r: nat)
    requires denominator > 0
    ensures numerator <= r * denominator < numerator + denominator
  {
    DivisionBounds(numerator + denominator - 1, denominator);
    (numerator + denominator - 1) / denominator
  }

  function MulDivFloor(multiplicand: nat, multiplier: nat, denominator: nat): (r: nat)
    requires denominator > 0
    ensures r * denominator <= multiplicand * multiplier < r * denominator + denominator
  {
    DivisionBounds(multiplicand * multiplier, denominator);
    (multiplicand * multiplier) / denominator
  }

  function MulDivCeil(multiplicand: nat, multiplier: nat, denominator: nat): (r: nat)
    requires denominator > 0
    ensures multiplicand * multiplier <= r * denominator < multiplicand * multiplier + denominator
  {
    CeilDiv(multiplicand * multiplier, denominator)
  }

  lemma DivisionBounds(n: nat, d: nat)
    requires d > 0
    ensures 0 <= n / d
    ensures n / d * d <= n < n / d * d + d
  {
    assert n == n / d * d + n % d;
  }

  lemma MulMonotone(low: nat, high: nat, factor: nat)
    requires low <= high
    ensures low * factor <= high * factor
  {
  }

  lemma CeilDivAbove(numerator: nat, denominator: nat, k: int)
    requires denominator > 0
    requires k * denominator < numerator
    ensures k < CeilDiv(numerator, denominator)
  {
    var r := CeilDiv(numerator, denominator);
    if r <= k {
      MulMonotone(r, k, denominator);
      assert false;
    }
  }

  lemma CeilDivOfZero(denominator: nat)
    requires denominator > 0
    ensures CeilDiv(0, denominator) == 0
  {
    var r := CeilDiv(0, denominator);
    if r > 0 {
      MulMonotone(1, r, denominator);
      assert false;
    }
  }
}
