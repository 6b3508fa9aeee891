/**
  Rounding to two decimal places with BigDecimal's HALF_UP mode, as the
  controller's speed check and the service's rating computation do it
  (`setScale(2, RoundingMode.HALF_UP)`). Numbers are exact reals: the
  difference between `new BigDecimal(double)` and `BigDecimal.valueOf(double)`
  is not modelled.
*/
module Rounding {

  /** The number of hundredths half-up rounding gives for x: the integer
      nearest to 100 * x, a tie going away from zero. */
  function Hundredths(x: real): (h: int)
    ensures x >= 0.0 ==> h >= 0 && h as real - 0.5 <= 100.0 * x < h as real + 0.5
    ensures x < 0.0 ==> h <= 0 && h as real - 0.5 < 100.0 * x <= h as real + 0.5
  {
    if x >= 0.0 then (100.0 * x + 0.5).Floor else -(-100.0 * x + 0.5).Floor
  }

  /** x rounded half-up to two decimal places. */
  function Round2(x: real): (r: real)
    ensures -0.005 <= r - x <= 0.005
  {
    Hundredths(x) as real / 100.0
  }

  /** The window in Hundredths' contract determines the rounding: any integer
      inside it is the rounded value. */
  lemma HundredthsUnique(x: real, h: int)
    requires x >= 0.0 ==> h as real - 0.5 <= 100.0 * x < h as real + 0.5
    requires x < 0.0 ==> h as real - 0.5 < 100.0 * x <= h as real + 0.5
    ensures Hundredths(x) == h
  {
  }

  /** Rounding never reverses the order of two numbers. */
  lemma HundredthsMonotone(x: real, y: real)
    requires x <= y
    ensures Hundredths(x) <= Hundredths(y)
  {
  }

  /** A value that already has two decimal places rounds to itself, so
      rounding twice gives what rounding once gives. */
  lemma Round2Idempotent(x: real)
    ensures Round2(Round2(x)) == Round2(x)
  {
    var h := Hundredths(x);
    assert 100.0 * Round2(x) == h as real;
    HundredthsUnique(Round2(x), h);
  }
}
