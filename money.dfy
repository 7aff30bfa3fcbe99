/**
 * Money amounts are exact rationals (`real`): the floating-point drift of
 * the JavaScript service is not modelled, only its explicit rounding to
 * cents and its one-cent tolerance.
 */
module Money {

  /** The one-cent tolerance used to tell settled from unsettled amounts. */
  const Tolerance: real := 0.01

  function Abs(x: real): (r: real)
    ensures r >= 0.0 && (r == x || r == -x)
  {
    if x < 0.0 then -x else x
  }

  function Min(x: real, y: real): (r: real)
    ensures r <= x && r <= y && (r == x || r == y)
  {
    if x <= y then x else y
  }

  /**
   * Rounding to two decimals, half up: `Math.round(x * 100) / 100`, and also
   * `parseFloat(x.toFixed(2))` for the positive values it is applied to.
   * The result is a whole number of cents within half a cent of `x`.
   */
  function Round2(x: real): (r: real)
    ensures x - 0.005 < r <= x + 0.005
    ensures (r * 100.0).Floor as real == r * 100.0
  {
    ((x * 100.0 + 0.5).Floor as real) / 100.0
  }

  /** Rounding a whole number of cents gives it back. */
  lemma Round2OfCents(k: int)
    ensures Round2(k as real / 100.0) == k as real / 100.0
  {
    var x := k as real / 100.0;
    assert x * 100.0 + 0.5 == k as real + 0.5;
    assert (x * 100.0 + 0.5).Floor == k;
  }

  /** Rounding twice is rounding once: a rounded amount is kept as it is. */
  lemma Round2Idempotent(x: real)
    ensures Round2(Round2(x)) == Round2(x)
  {
    var r := Round2(x);
    var k := (r * 100.0).Floor;
    assert r == k as real / 100.0;
    Round2OfCents(k);
  }
}
