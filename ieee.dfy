/** A float64 value reduced to what the modelled code relies on: an exact
    finite part (no rounding) and the special values IEEE 754 produces when
    dividing by zero or multiplying by an infinity. */
module Ieee {

  datatype Float = Num(r: real) | PosInf | NegInf | NaN

  /** `1 / x`. Dividing one by (positive) zero gives +Inf. */
  function Recip(x: real): Float
  {
    if x == 0.0 then PosInf else Num(1.0 / x)
  }

  /** `x * f` for a finite `x`: zero times an infinity is NaN, a nonzero
      number times an infinity is an infinity of the product's sign. */
  function Times(x: real, f: Float): Float
  {
    match f
    case Num(y) => Num(x * y)
    case PosInf => if x == 0.0 then NaN else if x > 0.0 then PosInf else NegInf
    case NegInf => if x == 0.0 then NaN else if x > 0.0 then NegInf else PosInf
    case NaN => NaN
  }

  /** `1 - f`. */
  function OneMinus(f: Float): Float
  {
    match f
    case Num(y) => Num(1.0 - y)
    case PosInf => NegInf
    case NegInf => PosInf
    case NaN => NaN
  }

  /** IEEE equality `a == b`: NaN is equal to nothing, not even itself. */
  predicate Equal(a: Float, b: Float)
  {
    match a
    case Num(x) => b.Num? && b.r == x
    case PosInf => b.PosInf?
    case NegInf => b.NegInf?
    case NaN => false
  }

  /** `math.Min(a, x)` for a finite `x` and an `a` that is a number or +Inf. */
  function MinWith(a: Float, x: real): Float
  {
    match a
    case Num(y) => Num(if x < y then x else y)
    case PosInf => Num(x)
    case NegInf => NegInf
    case NaN => NaN
  }
}
