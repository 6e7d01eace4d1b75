/** Rounding of exact rationals to whole numbers, as the pages round doubles. */
module Rounding {

  /** `Math.round(x)`: the nearest integer, halves rounded towards +infinity. */
  function RoundHalfUp(x: real): (r: int)
    ensures r as real - 0.5 <= x < r as real + 0.5
  {
    (x + 0.5).Floor
  }

  /** The rounding of `Number.prototype.toFixed(0)`: the nearest integer,
      halves rounded away from zero (the sign is set aside, the magnitude is
      rounded half up). */
  function RoundHalfAway(x: real): (r: int)
    ensures x >= 0.0 ==> r as real - 0.5 <= x < r as real + 0.5
    ensures x < 0.0 ==> r as real - 0.5 < x <= r as real + 0.5
  {
    if x >= 0.0 then RoundHalfUp(x) else -RoundHalfUp(-x)
  }

  /** `x.toFixed(1)` read back as a whole number of tenths. */
  function Tenths(x: real): (t: int)
    ensures x >= 0.0 ==> t as real - 0.5 <= 10.0 * x < t as real + 0.5
    ensures x < 0.0 ==> t as real - 0.5 < 10.0 * x <= t as real + 0.5
  {
    RoundHalfAway(10.0 * x)
  }

  /** Math.round never decreases as its argument increases. */
  lemma RoundHalfUpMonotone(x: real, y: real)
    requires x <= y
    ensures RoundHalfUp(x) <= RoundHalfUp(y)
  {
  }
}
