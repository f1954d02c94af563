/** The host language's conversions of a number to an integer: absolute
    value, truncation toward zero (`int(x)`) and rounding to the nearest
    integer (`round(x)`). Numbers are exact reals here. */
module Reals {

  function Abs(x: real): (r: real)
    ensures r >= 0.0 && (r == x || r == -x)
  {
    if x < 0.0 then -x else x
  }

  /** `int(x)`: the integer part, truncated toward zero. */
  function Trunc(x: real): (r: int)
    ensures x >= 0.0 ==> r as real <= x < r as real + 1.0
    ensures x < 0.0 ==> r as real - 1.0 < x <= r as real
  {
    if x >= 0.0 then x.Floor else -((-x).Floor)
  }

  /** `round(x)`: the nearest integer. Halfway cases round up here; where
      the formatter rounds, a halfway value is never accepted, so the
      host's round-half-to-even rule makes no difference. */
  function Round(x: real): (r: int)
    ensures Abs(x - r as real) <= 0.5
  {
    (x + 0.5).Floor
  }
}
