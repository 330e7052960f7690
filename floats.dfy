/**
 * Single-precision floats as the layout and normalisation code uses them:
 * a finite value (kept as an exact real; IEEE-754 rounding is not modelled)
 * or one of the three special values, with the IEEE rules for how the special
 * values propagate, and the Unity.Mathematics helpers max, min and clamp.
 */
module Floats {
  datatype Float = Fin(v: real) | PosInf | NegInf | NaN

  const Zero: Float := Fin(0.0)
  const One: Float := Fin(1.0)

  /** float.IsInfinity: true for both infinities. */
  predicate IsInfinity(a: Float) { a.PosInf? || a.NegInf? }

  /** float.IsNaN. */
  predicate IsNaN(a: Float) { a.NaN? }

  function Neg(a: Float): Float
  {
    match a
    case Fin(x) => Fin(-x)
    case PosInf => NegInf
    case NegInf => PosInf
    case NaN => NaN
  }

  function Add(a: Float, b: Float): (r: Float)
    ensures a.NaN? || b.NaN? ==> r.NaN?
  {
    if a.Fin? && b.Fin? then Fin(a.v + b.v)
    else if a.NaN? || b.NaN? then NaN
    else if (a.PosInf? && b.NegInf?) || (a.NegInf? && b.PosInf?) then NaN
    else if a.PosInf? || b.PosInf? then PosInf
    else NegInf
  }

  function Sub(a: Float, b: Float): Float
  {
    Add(a, Neg(b))
  }

  /** The sign of a non-zero finite real as an infinity. */
  function InfOfSign(positive: bool): Float
  {
    if positive then PosInf else NegInf
  }

  function Mul(a: Float, b: Float): (r: Float)
    ensures a.NaN? || b.NaN? ==> r.NaN?
  {
    if a.Fin? && b.Fin? then Fin(a.v * b.v)
    else if a.NaN? || b.NaN? then NaN
    else if a.Fin? then (if a.v == 0.0 then NaN else InfOfSign((a.v > 0.0) == b.PosInf?))
    else if b.Fin? then (if b.v == 0.0 then NaN else InfOfSign((b.v > 0.0) == a.PosInf?))
    else InfOfSign(a == b)
  }

  function Div(a: Float, b: Float): (r: Float)
    ensures a.NaN? || b.NaN? ==> r.NaN?
  {
    if a.NaN? || b.NaN? then NaN
    else if a.Fin? && b.Fin? then
      (if b.v != 0.0 then Fin(a.v / b.v)
       else if a.v == 0.0 then NaN
       else InfOfSign(a.v > 0.0))
    else if a.Fin? then Zero
    else if b.Fin? then InfOfSign((b.v >= 0.0) == a.PosInf?)
    else NaN
  }

  /** IEEE a < b: false whenever either side is NaN. */
  predicate Less(a: Float, b: Float)
  {
    if a.Fin? && b.Fin? then a.v < b.v
    else (a.NegInf? && (b.Fin? || b.PosInf?)) || (a.Fin? && b.PosInf?)
  }

  /** math.max(x, y) = x > y ? x : y */
  function Max(a: Float, b: Float): Float
  {
    if Less(b, a) then a else b
  }

  /** math.min(x, y) = x < y ? x : y */
  function Min(a: Float, b: Float): Float
  {
    if Less(a, b) then a else b
  }

  /** math.clamp(x, a, b) = max(a, min(b, x)) */
  function Clamp(x: Float, lo: Float, hi: Float): Float
  {
    Max(lo, Min(hi, x))
  }

  predicate LessEq(a: Float, b: Float)
  {
    Less(a, b) || (a == b && !a.NaN?)
  }

  datatype Float2 = Float2(x: Float, y: Float)
  datatype Float4 = Float4(x: Float, y: Float, z: Float, w: Float)

  const Zero2: Float2 := Float2(Zero, Zero)
  const Zero4: Float4 := Float4(Zero, Zero, Zero, Zero)

  function Add2(a: Float2, b: Float2): Float2
  {
    Float2(Add(a.x, b.x), Add(a.y, b.y))
  }

  /** Less is a strict order on the non-NaN values. */
  lemma LessTotal(a: Float, b: Float)
    requires !a.NaN? && !b.NaN?
    ensures Less(a, b) || a == b || Less(b, a)
    ensures !(Less(a, b) && Less(b, a))
  {
  }

  /** max returns one of its arguments, and without NaN it is at least both. */
  lemma MaxSpec(a: Float, b: Float)
    ensures Max(a, b) == a || Max(a, b) == b
    ensures !a.NaN? && !b.NaN? ==> LessEq(a, Max(a, b)) && LessEq(b, Max(a, b))
  {
  }

  /** Clamping a non-NaN value between ordered non-NaN bounds lands between them. */
  lemma ClampWithin(x: Float, lo: Float, hi: Float)
    requires !x.NaN? && !lo.NaN? && !hi.NaN? && LessEq(lo, hi)
    ensures LessEq(lo, Clamp(x, lo, hi)) && LessEq(Clamp(x, lo, hi), hi)
  {
  }

  /** An infinite upper bound never limits a finite value. */
  lemma ClampUnbounded(x: real, lo: real)
    ensures Clamp(Fin(x), Fin(lo), PosInf) == Fin(if x > lo then x else lo)
  {
  }

  /** On finite values the arithmetic is the exact real arithmetic. */
  lemma FiniteArithmetic(x: real, y: real)
    ensures Add(Fin(x), Fin(y)) == Fin(x + y)
    ensures Sub(Fin(x), Fin(y)) == Fin(x - y)
    ensures Mul(Fin(x), Fin(y)) == Fin(x * y)
    ensures Max(Fin(x), Fin(y)) == Fin(if x > y then x else y)
    ensures Min(Fin(x), Fin(y)) == Fin(if x < y then x else y)
  {
  }

  /**
   * Addition is associative on every value (the exact reals make the finite
   * case so; a NaN, or both infinities anywhere in the sum, gives NaN either way),
   * and 0 is its identity.
   */
  lemma AddAssoc(a: Float, b: Float, c: Float)
    ensures Add(Add(a, b), c) == Add(a, Add(b, c))
  {
  }

  lemma AddZero(a: Float)
    ensures Add(a, Zero) == a && Add(Zero, a) == a
  {
  }
}
