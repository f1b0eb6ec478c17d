/**
 * Python's `int()` applied to a float: truncation toward zero, not rounding and not flooring.
 */
module Truncation {

  /** `int(x)`: the integer part of `x`, dropping the fraction toward zero. */
  function Trunc(x: real): (r: int)
    ensures 0.0 <= x ==> 0 <= r && r as real <= x < r as real + 1.0
    ensures x < 0.0 ==> r <= 0 && r as real - 1.0 < x <= r as real
  {
    if x >= 0.0 then x.Floor else -((-x).Floor)
  }

  /** The two bounds above pin the result down: no other integer satisfies them. */
  lemma TruncUnique(x: real, k: int)
    requires 0.0 <= x ==> 0 <= k && k as real <= x < k as real + 1.0
    requires x < 0.0 ==> k <= 0 && k as real - 1.0 < x <= k as real
    ensures k == Trunc(x)
  {
  }

  /** Truncation is symmetric about zero, which flooring is not. */
  lemma TruncOdd(x: real)
    ensures Trunc(-x) == -Trunc(x)
  {
    TruncUnique(-x, -Trunc(x));
  }

  /** A truncated coordinate is negative exactly when the float is -1.0 or below:
      a float in (-1, 0) truncates to 0 and passes the `ge=0` check. */
  lemma TruncNonNegative(x: real)
    ensures Trunc(x) >= 0 <==> x > -1.0
  {
  }

  /** The worked example of the detector: `(10.9, 5.1, 20.4, 30.9)` becomes `(10, 5, 20, 30)`. */
  lemma TruncExample()
    ensures Trunc(10.9) == 10 && Trunc(5.1) == 5 && Trunc(20.4) == 20 && Trunc(30.9) == 30
    ensures Trunc(-0.5) == 0 && Trunc(-1.5) == -1
  {
  }
}
