/**
 * The few JavaScript number operations the spectrogram player relies on,
 * stated over exact reals: Math.round, Math.trunc, the `%` remainder by 1,
 * Math.pow(10, n), and the `Math.round(x * b) / b` idiom used both for the
 * quotient decimal and for the displayed axis labels.
 */
module JsMath {

  /** x has no fractional part. */
  predicate IsWhole(x: real) {
    x.Floor as real == x
  }

  /** Math.round: the nearest integer, half-way cases rounded up (towards +infinity). */
  function Round(x: real): (n: int)
    ensures x - 0.5 < n as real <= x + 0.5
  {
    (x + 0.5).Floor
  }

  /** The bounds in Round's contract pin the result down: there is only one such integer. */
  lemma RoundUnique(x: real, n: int)
    requires x - 0.5 < n as real <= x + 0.5
    ensures Round(x) == n
  {
    var m := Round(x);
    assert m as real - n as real < 1.0 && n as real - m as real < 1.0;
  }

  /** Math.round never reverses the order of its arguments. */
  lemma RoundMonotone(x: real, y: real)
    requires x <= y
    ensures Round(x) <= Round(y)
  {
    assert Round(x) as real <= x + 0.5 <= y + 0.5 < Round(y) as real + 1.0;
  }

  /** Math.trunc: drops the fractional part, rounding towards zero. */
  function Trunc(x: real): (n: int)
    ensures 0.0 <= x ==> 0 <= n && n as real <= x < n as real + 1.0
    ensures x < 0.0 ==> n <= 0 && n as real - 1.0 < x <= n as real
  {
    if x >= 0.0 then x.Floor else -((-x).Floor)
  }

  /**
   * JavaScript's `x % 1`: the remainder of a truncating division, so it has
   * the sign of x (`-2.5 % 1` is `-0.5`), unlike Dafny's Euclidean `%`.
   */
  function ModOne(x: real): (r: real)
    ensures -1.0 < r < 1.0
    ensures 0.0 <= x ==> 0.0 <= r
    ensures x <= 0.0 ==> r <= 0.0
    ensures IsWhole(x - r)
  {
    x - Trunc(x) as real
  }

  /** A whole number has no remainder by 1. */
  lemma ModOneOfWhole(k: int)
    ensures ModOne(k as real) == 0.0
  {
    assert Trunc(k as real) == k;
  }

  /** Math.pow(10, n) for a natural exponent. */
  function Pow10(n: nat): (p: nat)
    ensures p >= 1
  {
    if n == 0 then 1 else 10 * Pow10(n - 1)
  }

  /**
   * `Math.round(x * b) / b`: x rounded to the nearest multiple of 1/b, half-way
   * cases rounded up. The result is a whole number of 1/b steps and lies within
   * half a step of x, which determines it uniquely (see RoundToScaleUnique).
   */
  function RoundToScale(x: real, b: real): (r: real)
    requires b >= 1.0
    ensures r * b == Round(x * b) as real
    ensures IsWhole(r * b)
    ensures x - 0.5 / b < r <= x + 0.5 / b
  {
    Round(x * b) as real / b
  }

  /** Any whole number of 1/b steps within half a step of x (upper end included) is RoundToScale(x, b). */
  lemma RoundToScaleUnique(x: real, b: real, r: real)
    requires b >= 1.0
    requires IsWhole(r * b)
    requires x - 0.5 / b < r <= x + 0.5 / b
    ensures RoundToScale(x, b) == r
  {
    var n := (r * b).Floor;
    assert (x - 0.5 / b) * b == x * b - 0.5;
    assert (x + 0.5 / b) * b == x * b + 0.5;
    assert (x - 0.5 / b) * b < r * b;
    assert r * b <= (x + 0.5 / b) * b;
    RoundUnique(x * b, n);
    assert n as real / b == r;
  }

  /** Two multiples of 1/10000 within the same half-open step around x are equal. */
  lemma SameStep(x: real, r: real, s: real)
    requires IsWhole(r * 10000.0) && x - 0.00005 < r <= x + 0.00005
    requires IsWhole(s * 10000.0) && x - 0.00005 < s <= x + 0.00005
    ensures r == s
  {
    var m, n := (r * 10000.0).Floor, (s * 10000.0).Floor;
    assert m as real == r * 10000.0;
    assert n as real == s * 10000.0;
    assert x * 10000.0 - 0.5 < m as real <= x * 10000.0 + 0.5;
    assert x * 10000.0 - 0.5 < n as real <= x * 10000.0 + 0.5;
    assert m == n;
  }

  /**
   * A fraction in (-1, 1) rounded to four decimal places or to a whole
   * number keeps its sign and stays within [-1, 1].
   */
  lemma FractionRoundsWithinUnit(f: real)
    requires -1.0 < f < 1.0
    ensures 0.0 <= f ==> 0.0 <= RoundToScale(f, 10000.0) <= 1.0 && 0.0 <= RoundToScale(f, 1.0) <= 1.0
    ensures f <= 0.0 ==> -1.0 <= RoundToScale(f, 10000.0) <= 0.0 && -1.0 <= RoundToScale(f, 1.0) <= 0.0
  {
    var m, n := Round(f * 10000.0), Round(f * 1.0);
    assert RoundToScale(f, 10000.0) == m as real / 10000.0;
    assert RoundToScale(f, 1.0) == n as real;
    assert -10000 <= m <= 10000 && -1 <= n <= 1;
  }

  /** A value that is already a whole number of 1/b steps is left as it is. */
  lemma RoundToScaleFixed(x: real, b: real)
    requires b >= 1.0
    ensures IsWhole(x * b) ==> RoundToScale(x, b) == x
  {
    if IsWhole(x * b) {
      assert 0.5 / b > 0.0;
      RoundToScaleUnique(x, b, x);
    }
  }
}
