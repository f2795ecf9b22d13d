/**
 * The JavaScript numbers that the workout form produces (`+input.value`,
 * `Number(input.value)`). Finite values are exact reals; the three
 * non-finite IEEE-754 values are kept apart because the source's `< 0`
 * test and its truthiness test treat them differently.
 */
module JsNumbers {

  datatype JsNumber = Finite(value: real) | NaN | PosInfinity | NegInfinity

  /** `Number.isFinite(x)` for a number `x`: neither NaN nor an infinity. */
  function IsFinite(x: JsNumber): (r: bool)
    ensures r <==> x != NaN && x != PosInfinity && x != NegInfinity
  {
    x.Finite?
  }

  /** `x < 0`: a negative finite value or -Infinity; NaN compares false. */
  function IsNegative(x: JsNumber): (r: bool)
    ensures r <==> x == NegInfinity || (IsFinite(x) && x.value < 0.0)
    ensures x == NaN ==> !r
  {
    match x
    case Finite(v) => v < 0.0
    case NaN => false
    case PosInfinity => false
    case NegInfinity => true
  }

  /** JavaScript truthiness of a number: only `0`, `-0` and `NaN` are falsy. */
  function Truthy(x: JsNumber): (r: bool)
    ensures r <==> x != NaN && x != Finite(0.0)
  {
    match x
    case Finite(v) => v != 0.0
    case NaN => false
    case PosInfinity => true
    case NegInfinity => true
  }

  /** A number that is finite and strictly greater than zero. */
  predicate IsPositiveFinite(x: JsNumber) {
    x.Finite? && x.value > 0.0
  }
}
