/** The part of JavaScript number arithmetic the percentage computations use:
    real-valued results, plus the infinities and NaN that a division by zero
    produces. Rounding of IEEE doubles is not modelled. */
module JsNumber {

  datatype Number = Finite(value: real) | PosInfinity | NegInfinity | NaN

  /** `a / b` on two finite numbers. */
  function Divide(a: real, b: real): Number {
    if b != 0.0 then Finite(a / b)
    else if a > 0.0 then PosInfinity
    else if a < 0.0 then NegInfinity
    else NaN
  }

  /** `k * x` for a positive constant k. */
  function Scale(k: real, x: Number): Number
    requires k > 0.0
  {
    match x
    case Finite(v) => Finite(k * v)
    case _ => x
  }

  /** `Math.max(lo, x)` */
  function Max(lo: real, x: Number): Number {
    match x
    case Finite(v) => Finite(if v < lo then lo else v)
    case PosInfinity => PosInfinity
    case NegInfinity => Finite(lo)
    case NaN => NaN
  }

  /** `Math.min(hi, x)` */
  function Min(hi: real, x: Number): Number {
    match x
    case Finite(v) => Finite(if v > hi then hi else v)
    case PosInfinity => Finite(hi)
    case NegInfinity => NegInfinity
    case NaN => NaN
  }
}
