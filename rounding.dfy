/**
 * Python's built-in `round(x)` with no digits argument: the nearest integer,
 * ties going to the even neighbour ("banker's rounding"), on exact reals.
 */
module Rounding {

  predicate IsEven(k: int) {
    k % 2 == 0
  }

  /** k is a correct rounding of x: within one half, and even on a tie. */
  predicate RoundsTo(x: real, k: int) {
    && -0.5 <= k as real - x <= 0.5
    && ((k as real - x == 0.5 || x - k as real == 0.5) ==> IsEven(k))
  }

  function RoundHalfEven(x: real): (r: int)
    ensures RoundsTo(x, r)
  {
    var f := x.Floor;
    var d := x - f as real;
    if d < 0.5 then f
    else if d > 0.5 then f + 1
    else if IsEven(f) then f
    else f + 1
  }

  /** There is only one correct rounding, so RoundHalfEven is determined by RoundsTo. */
  lemma RoundUnique(x: real, k: int)
    requires RoundsTo(x, k)
    ensures k == RoundHalfEven(x)
  {
  }

  /** Rounding never reverses the order of two values. */
  lemma RoundMonotone(x: real, y: real)
    requires x <= y
    ensures RoundHalfEven(x) <= RoundHalfEven(y)
  {
  }

  /** A value that is already whole rounds to itself. */
  lemma RoundWhole(n: int)
    ensures RoundHalfEven(n as real) == n
  {
  }
}
