/**
 * Decimal rounding as the pipeline uses it: `round(x, 4)` for every score and
 * weight it returns, and the rounding to whole percent inside the `%` format.
 * Both are modelled on exact reals with ties going to the even neighbour
 * (Python rounds half to even); the final conversion back to a binary double is
 * not modelled.
 */
module Rounding {

  /** The integer nearest to `y`; an exact half goes to the even neighbour. */
  function RoundHalfEven(y: real): (n: int)
    ensures -0.5 <= n as real - y <= 0.5
    ensures n as real - y == 0.5 || n as real - y == -0.5 ==> n % 2 == 0
  {
    var f := y.Floor;
    var frac := y - f as real;
    if frac < 0.5 then f
    else if frac > 0.5 then f + 1
    else if f % 2 == 0 then f
    else f + 1
  }

  /** Rounding an integer leaves it alone. */
  lemma RoundHalfEvenOfInt(n: int)
    ensures RoundHalfEven(n as real) == n
  {
    assert (n as real).Floor == n;
  }

  /** `round(x, 4)`: the nearest multiple of 1/10000. */
  function Round4(x: real): (r: real)
    ensures -0.00005 <= r - x <= 0.00005
  {
    RoundHalfEven(x * 10000.0) as real / 10000.0
  }

  /** `x` has at most four decimal places. */
  predicate FourPlaces(x: real)
  {
    (x * 10000.0).Floor as real == x * 10000.0
  }

  /** Every rounded value has at most four decimal places. */
  lemma Round4HasFourPlaces(x: real)
    ensures FourPlaces(Round4(x))
  {
    var n := RoundHalfEven(x * 10000.0);
    assert Round4(x) * 10000.0 == n as real;
    assert (n as real).Floor == n;
  }

  /** A value that already has four decimal places is not changed by rounding. */
  lemma Round4FixesFourPlaces(x: real)
    requires FourPlaces(x)
    ensures Round4(x) == x
  {
    var n := (x * 10000.0).Floor;
    RoundHalfEvenOfInt(n);
    assert x * 10000.0 == n as real;
  }

  /** Rounding twice is rounding once. */
  lemma Round4Idempotent(x: real)
    ensures Round4(Round4(x)) == Round4(x)
  {
    Round4HasFourPlaces(x);
    Round4FixesFourPlaces(Round4(x));
  }

  /** Rounding never crosses zero and keeps zero. */
  lemma Round4Sign(x: real)
    ensures x == 0.0 ==> Round4(x) == 0.0
    ensures x >= 0.0 ==> Round4(x) >= 0.0
    ensures x <= 0.0 ==> Round4(x) <= 0.0
  {
    if x == 0.0 {
      RoundHalfEvenOfInt(0);
    }
  }

  /** A value in [0, 1] stays in [0, 1] after rounding. */
  lemma Round4Unit(x: real)
    requires 0.0 <= x <= 1.0
    ensures 0.0 <= Round4(x) <= 1.0
  {
    var n := RoundHalfEven(x * 10000.0);
    assert 0 <= n <= 10000;
  }
}
