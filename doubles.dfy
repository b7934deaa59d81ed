/** The few places where `double` arithmetic leaves the reals in the
    modelled code: a division by zero, and the `double.PositiveInfinity`
    that the fraction parser returns. Every other `double` is a `real`
    and rounding is not modelled. */
module Doubles {

  /** A `double` as far as the model follows it. */
  datatype ExtReal = Finite(value: real) | PositiveInfinity | NegativeInfinity | NaN

  /** `Math.Abs`. */
  function Abs(x: real): (r: real)
    ensures r >= 0.0 && (r == x || r == -x)
  {
    if x < 0.0 then -x else x
  }

  /** `a / b` on doubles, where a zero divisor is +0 (the only zero the
      modelled code divides by is the result of `Math.Abs`): a non-zero
      divisor gives the real quotient, and +0 gives a signed infinity,
      or NaN for 0/0. */
  function Divide(a: real, b: real): (r: ExtReal)
    ensures r.Finite? <==> b != 0.0
    ensures r.Finite? ==> r.value * b == a
    ensures b == 0.0 ==> (r == PositiveInfinity <==> a > 0.0)
    ensures b == 0.0 ==> (r == NegativeInfinity <==> a < 0.0)
    ensures b == 0.0 ==> (r == NaN <==> a == 0.0)
  {
    if b != 0.0 then Finite(a / b)
    else if a > 0.0 then PositiveInfinity
    else if a < 0.0 then NegativeInfinity
    else NaN
  }
}
