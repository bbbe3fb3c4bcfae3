/**
 * quotientDecimal (qoutientDecimal in versions 1.x): the fractional part of
 * dividend / divisor, rounded half-up to `precision` decimal places. The
 * fractional part is JavaScript's `quotient % 1`, so it keeps the sign of the
 * quotient; an undefined precision means a scale of 1.
 */
module Quotient {
  import opened JsMath

  /** The `precision` argument: left undefined by the caller, or a number of decimal places. */
  datatype Precision = Undefined | Places(n: nat)

  /** The scale `b` the fraction is rounded at: 1 when undefined, 10^n for n places. */
  function Scale(precision: Precision): (b: real)
    ensures b >= 1.0 && IsWhole(b)
    ensures precision.Undefined? ==> b == 1.0
  {
    match precision
    case Undefined => 1.0
    case Places(n) => Pow10(n) as real
  }

  /** Four decimal places, as smoothAxis asks for, is a scale of 10000. */
  lemma FourPlaces()
    ensures Scale(Places(4)) == 10000.0
  {
    assert Pow10(4) == 10 * Pow10(3);
    assert Pow10(3) == 10 * Pow10(2);
    assert Pow10(2) == 10 * Pow10(1);
    assert Pow10(1) == 10 * Pow10(0);
  }

  /**
   * The fraction of dividend / divisor (JavaScript's `quotient % 1`) as the
   * nearest multiple of 1/b, half-way cases rounded up, b being 10^precision
   * or 1 when the precision is undefined. It keeps the sign of the quotient
   * and lies in [-1, 1]: a fraction just below a whole number rounds to 1.
   * The rounding bound is stated for the two precisions the player uses.
   */
  function QuotientDecimal(dividend: real, divisor: real, precision: Precision): (r: real)
    requires divisor != 0.0
    ensures precision == Places(4) ==>
      && IsWhole(r * 10000.0)
      && ModOne(dividend / divisor) - 0.00005 < r <= ModOne(dividend / divisor) + 0.00005
    ensures precision == Undefined ==>
      && IsWhole(r)
      && ModOne(dividend / divisor) - 0.5 < r <= ModOne(dividend / divisor) + 0.5
    ensures precision == Places(4) || precision == Undefined ==>
      && (0.0 <= dividend / divisor ==> 0.0 <= r <= 1.0)
      && (dividend / divisor <= 0.0 ==> -1.0 <= r <= 0.0)
  {
    FourPlaces();
    FractionRoundsWithinUnit(ModOne(dividend / divisor));
    RoundToScale(ModOne(dividend / divisor), Scale(precision))
  }

  /**
   * At any precision the decimal is a whole number of 1/b steps: the
   * scaled fraction rounded by Math.round.
   */
  lemma QuotientDecimalSteps(dividend: real, divisor: real, precision: Precision)
    requires divisor != 0.0
    ensures QuotientDecimal(dividend, divisor, precision) * Scale(precision)
      == Round(ModOne(dividend / divisor) * Scale(precision)) as real
  {
    var f, b := ModOne(dividend / divisor), Scale(precision);
    assert QuotientDecimal(dividend, divisor, precision) == RoundToScale(f, b);
  }

  /**
   * At any precision the decimal lies within half a step of
   * `(dividend / divisor) % 1`, upper end included.
   */
  lemma QuotientDecimalWindow(dividend: real, divisor: real, precision: Precision)
    requires divisor != 0.0
    ensures ModOne(dividend / divisor) - 0.5 / Scale(precision) < QuotientDecimal(dividend, divisor, precision)
    ensures QuotientDecimal(dividend, divisor, precision) <= ModOne(dividend / divisor) + 0.5 / Scale(precision)
  {
    var f, b := ModOne(dividend / divisor), Scale(precision);
    assert QuotientDecimal(dividend, divisor, precision) == RoundToScale(f, b);
  }

  /**
   * At four places the contract pins the decimal down: a multiple of 1/10000
   * within half a step of the fraction (upper end included) is the decimal.
   */
  lemma FourPlacesUnique(dividend: real, divisor: real, r: real)
    requires divisor != 0.0
    requires IsWhole(r * 10000.0)
    requires ModOne(dividend / divisor) - 0.00005 < r <= ModOne(dividend / divisor) + 0.00005
    ensures QuotientDecimal(dividend, divisor, Places(4)) == r
  {
    SameStep(ModOne(dividend / divisor), r, QuotientDecimal(dividend, divisor, Places(4)));
  }

  /** When the divisor goes exactly k times into the dividend, the decimal is 0. */
  lemma ExactDivisionIsZero(k: int, divisor: real, precision: Precision)
    requires divisor != 0.0
    ensures QuotientDecimal(k as real * divisor, divisor, precision) == 0.0
  {
    assert (k as real * divisor) / divisor == k as real;
    ModOneOfWhole(k);
    RoundToScaleFixed(0.0, Scale(precision));
  }

  /** A fraction with at most four places is returned unchanged at four places. */
  lemma ExactFractionKept(dividend: real, divisor: real)
    requires divisor != 0.0
    requires IsWhole(ModOne(dividend / divisor) * 10000.0)
    ensures QuotientDecimal(dividend, divisor, Places(4)) == ModOne(dividend / divisor)
  {
    FourPlacesUnique(dividend, divisor, ModOne(dividend / divisor));
  }

  /**
   * With precision undefined the fraction is rounded to a whole number:
   * 1 from one half upwards, -1 below minus one half, and 0 in between.
   */
  lemma UndefinedPrecisionIsWhole(dividend: real, divisor: real)
    requires divisor != 0.0
    ensures var r := QuotientDecimal(dividend, divisor, Undefined);
      var f := ModOne(dividend / divisor);
      && (r == 1.0 <==> f >= 0.5)
      && (r == -1.0 <==> f < -0.5)
      && (r == 0.0 <==> -0.5 <= f < 0.5)
  {
    var r := QuotientDecimal(dividend, divisor, Undefined);
    var n := r.Floor;
    assert n as real == r;
    assert -1 <= n <= 1;
  }
}
