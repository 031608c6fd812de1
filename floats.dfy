/**
 * Double-precision values as NumPy and pandas handle them: a real number,
 * one of the two infinities, or NaN. The special cases follow IEEE 754
 * (sections 6.1 and 6.2: infinity arithmetic and NaN propagation); a finite
 * result is the exact real, so rounding, overflow and the sign of zero are
 * not modelled.
 */
module Floats {

  datatype Float = Finite(value: real) | PosInf | NegInf | NaN

  /** `np.isfinite`. */
  predicate IsFinite(x: Float) {
    x.Finite?
  }

  /** The sign of a value other than NaN: -1, 0 or 1. */
  function SignOf(x: Float): (s: int)
    ensures -1 <= s <= 1
    ensures x.PosInf? ==> s == 1
    ensures x.NegInf? ==> s == -1
    ensures x.Finite? ==> (s == 0 <==> x.value == 0.0) && (s == 1 <==> x.value > 0.0)
  {
    match x
    case PosInf => 1
    case NegInf => -1
    case NaN => 0
    case Finite(v) => if v > 0.0 then 1 else if v < 0.0 then -1 else 0
  }

  /** The infinity of a sign. */
  function Infinity(positive: bool): Float {
    if positive then PosInf else NegInf
  }

  function Neg(x: Float): (r: Float)
    ensures r.NaN? <==> x.NaN?
    ensures x.Finite? ==> r == Finite(-x.value)
    ensures x.PosInf? <==> r.NegInf?
  {
    match x
    case Finite(v) => Finite(-v)
    case PosInf => NegInf
    case NegInf => PosInf
    case NaN => NaN
  }

  /** Addition: NaN with a NaN operand or for infinities of opposite signs. */
  function Add(a: Float, b: Float): (r: Float)
    ensures r.NaN? <==> a.NaN? || b.NaN? || (a.PosInf? && b.NegInf?) || (a.NegInf? && b.PosInf?)
    ensures a.Finite? && b.Finite? ==> r == Finite(a.value + b.value)
    ensures r.PosInf? <==> (a.PosInf? && !b.NaN? && !b.NegInf?) || (b.PosInf? && !a.NaN? && !a.NegInf?)
  {
    match (a, b)
    case (NaN, _) => NaN
    case (_, NaN) => NaN
    case (PosInf, NegInf) => NaN
    case (NegInf, PosInf) => NaN
    case (PosInf, _) => PosInf
    case (_, PosInf) => PosInf
    case (NegInf, _) => NegInf
    case (_, NegInf) => NegInf
    case (Finite(x), Finite(y)) => Finite(x + y)
  }

  function Sub(a: Float, b: Float): (r: Float)
    ensures a.Finite? && b.Finite? ==> r == Finite(a.value - b.value)
    ensures r.NaN? <==> a.NaN? || b.NaN? || (a.PosInf? && b.PosInf?) || (a.NegInf? && b.NegInf?)
  {
    Add(a, Neg(b))
  }

  /** Multiplication: an infinity times zero is NaN; otherwise the signs multiply. */
  function Mul(a: Float, b: Float): (r: Float)
    ensures r.NaN? <==> a.NaN? || b.NaN? || (!a.Finite? && SignOf(b) == 0) || (!b.Finite? && SignOf(a) == 0)
    ensures a.Finite? && b.Finite? ==> r == Finite(a.value * b.value)
  {
    if a.NaN? || b.NaN? then NaN
    else if a.Finite? && b.Finite? then Finite(a.value * b.value)
    else if SignOf(a) == 0 || SignOf(b) == 0 then NaN
    else Infinity(SignOf(a) * SignOf(b) == 1)
  }

  /**
   * Division: 0 / 0 and an infinity over an infinity are NaN; a non-zero
   * number over zero is the infinity of its sign (the zero being +0); a
   * finite number over an infinity is 0.
   */
  function Div(a: Float, b: Float): (r: Float)
    ensures r.NaN? <==> a.NaN? || b.NaN? || (!a.Finite? && !b.Finite?) || (SignOf(a) == 0 && SignOf(b) == 0)
    ensures a.Finite? && b.Finite? && b.value != 0.0 ==> r == Finite(a.value / b.value)
    ensures a.Finite? && a.value != 0.0 && b == Finite(0.0) ==> r == Infinity(a.value > 0.0)
  {
    if a.NaN? || b.NaN? then NaN
    else if !a.Finite? && !b.Finite? then NaN
    else if !a.Finite? then Infinity(SignOf(a) * (if SignOf(b) == -1 then -1 else 1) == 1)
    else if !b.Finite? then Finite(0.0)
    else if b.value == 0.0 then (if a.value == 0.0 then NaN else Infinity(a.value > 0.0))
    else Finite(a.value / b.value)
  }

  /** `a < b`: false when either side is NaN. */
  predicate Less(a: Float, b: Float) {
    match (a, b)
    case (NaN, _) => false
    case (_, NaN) => false
    case (NegInf, NegInf) => false
    case (NegInf, _) => true
    case (_, PosInf) => !a.PosInf?
    case (PosInf, _) => false
    case (_, NegInf) => false
    case (Finite(x), Finite(y)) => x < y
  }

  /** `a > b`. */
  predicate Greater(a: Float, b: Float) {
    Less(b, a)
  }

  /** The order is the order of the extended reals: irreflexive and transitive, NaN being unordered. */
  lemma LessOrder(a: Float, b: Float, c: Float)
    ensures !Less(a, a)
    ensures Less(a, b) ==> !Less(b, a)
    ensures Less(a, b) && Less(b, c) ==> Less(a, c)
    ensures Less(a, b) || Less(b, a) || a == b || a.NaN? || b.NaN?
  {
  }

  /** Comparisons with NaN are false both ways. */
  lemma NaNUnordered(x: Float)
    ensures !Less(NaN, x) && !Less(x, NaN)
  {
  }
}
