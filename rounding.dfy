/**
 Rounding of balances to whole cents, as Python's built-in `round(x, 2)`
 does it: to the nearest hundredth, a tie going to the even neighbour.
 Amounts are exact reals here, so the rounding is exact decimal rounding
 of the mathematical value rather than of a binary float.
 */
module Rounding {

  function Abs(x: real): real {
    if x < 0.0 then -x else x
  }

  /** The integer nearest to `y`; of two equally near integers, the even one. */
  function RoundHalfEven(y: real): (n: int)
    ensures Abs(n as real - y) <= 0.5
    ensures Abs(n as real - y) == 0.5 ==> n % 2 == 0
    ensures y == y.Floor as real ==> n == y.Floor
  {
    var f := y.Floor;
    var frac := y - f as real;
    if frac < 0.5 then f
    else if frac > 0.5 then f + 1
    else if f % 2 == 0 then f
    else f + 1
  }

  /** No integer is nearer to `y` than the one `RoundHalfEven` picks. */
  lemma RoundHalfEvenNearest(y: real, k: int)
    ensures Abs(RoundHalfEven(y) as real - y) <= Abs(k as real - y)
  {
    var f := y.Floor;
    if k <= f {
      assert Abs(k as real - y) >= y - f as real;
    } else {
      assert Abs(k as real - y) >= (f + 1) as real - y;
    }
  }

  /** `round(x, 2)`: `x` rounded half-to-even to a whole number of hundredths. */
  function Round2(x: real): (r: real)
    ensures Abs(r - x) <= 0.005
    ensures r * 100.0 == (r * 100.0).Floor as real
  {
    var n := RoundHalfEven(x * 100.0);
    ScaleDown(x, n);
    n as real / 100.0
  }

  /** A whole number of cents within half a cent of `100 * x` is within 0.005 of `x`. */
  lemma ScaleDown(x: real, n: int)
    requires Abs(n as real - x * 100.0) <= 0.5
    ensures Abs(n as real / 100.0 - x) <= 0.005
    ensures (n as real / 100.0) * 100.0 == n as real
    ensures ((n as real / 100.0) * 100.0).Floor == n
  {
  }

  /** No whole number of hundredths is nearer to `x` than `Round2(x)`. */
  lemma Round2Nearest(x: real, k: int)
    ensures Abs(Round2(x) - x) <= Abs(k as real / 100.0 - x)
  {
    RoundHalfEvenNearest(x * 100.0, k);
    var n := RoundHalfEven(x * 100.0);
    assert Abs(n as real - x * 100.0) == 100.0 * Abs(Round2(x) - x);
    assert Abs(k as real - x * 100.0) == 100.0 * Abs(k as real / 100.0 - x);
  }

  /** A value that is already a whole number of hundredths is left as it is. */
  lemma Round2Exact(x: real)
    requires x * 100.0 == (x * 100.0).Floor as real
    ensures Round2(x) == x
  {
  }

  /**
   Rounding keeps the sign of what it rounds, and turns a value into 0.0
   only when it is within half a cent of zero.
   */
  lemma Round2Sign(x: real)
    ensures Round2(x) > 0.0 ==> x > 0.0
    ensures Round2(x) < 0.0 ==> x < 0.0
    ensures x > 0.005 ==> Round2(x) > 0.0
    ensures x < -0.005 ==> Round2(x) < 0.0
  {
  }
}
