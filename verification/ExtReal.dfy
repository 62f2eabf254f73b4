/**
 Extended reals: the finite values together with the special values that the
 floating-point arithmetic of the cost engine can produce. Rounding is not
 modelled: a finite value is an exact real. Only the special-value rules of
 IEEE 754 that the engine relies on are kept (an infinity times a positive
 constant stays infinite, zero times an infinity is NaN, opposite infinities
 add to NaN, NaN absorbs everything).
 */
module ExtReal {

  datatype Ext = Fin(v: real) | PosInf | NegInf | NaN {

    predicate IsInfinite() {
      PosInf? || NegInf?
    }

    /** A value a minimiser can order: zero or more, possibly +inf, never NaN. */
    predicate IsNonNeg() {
      (Fin? && v >= 0.0) || PosInf?
    }
  }

  function RealAbs(x: real): (r: real)
    ensures r >= 0.0
    ensures r == x || r == -x
  {
    if x < 0.0 then -x else x
  }

  /** The product of a finite constant `c` and an extended value `x`. */
  function Mul(c: real, x: Ext): (r: Ext)
    ensures r.NaN? <==> x.NaN? || (c == 0.0 && x.IsInfinite())
    ensures x.Fin? <==> r.Fin?
    ensures c > 0.0 && x.PosInf? ==> r.PosInf?
    ensures c > 0.0 && x.Fin? ==> (r.v >= 0.0 <==> x.v >= 0.0)
  {
    match x
    case Fin(y) => Fin(c * y)
    case PosInf => if c > 0.0 then PosInf else if c < 0.0 then NegInf else NaN
    case NegInf => if c > 0.0 then NegInf else if c < 0.0 then PosInf else NaN
    case NaN => NaN
  }

  /** The sum of two extended values. */
  function Add(x: Ext, y: Ext): (r: Ext)
    ensures r.NaN? <==> x.NaN? || y.NaN? || (x.PosInf? && y.NegInf?) || (x.NegInf? && y.PosInf?)
    ensures r.Fin? <==> x.Fin? && y.Fin?
    ensures x.IsNonNeg() && y.IsNonNeg() ==> r.IsNonNeg()
    ensures x.PosInf? && y.IsNonNeg() ==> r.PosInf?
  {
    match (x, y)
    case (NaN, _) => NaN
    case (_, NaN) => NaN
    case (PosInf, NegInf) => NaN
    case (NegInf, PosInf) => NaN
    case (PosInf, _) => PosInf
    case (_, PosInf) => PosInf
    case (NegInf, _) => NegInf
    case (_, NegInf) => NegInf
    case (Fin(a), Fin(b)) => Fin(a + b)
  }

  /** The absolute value of an extended value. */
  function Abs(x: Ext): (r: Ext)
    ensures r.NaN? <==> x.NaN?
    ensures !x.NaN? ==> r.IsNonNeg()
    ensures x.IsInfinite() ==> r.PosInf?
    ensures x.Fin? ==> r.Fin? && (r.v == x.v || r.v == -x.v)
  {
    match x
    case Fin(y) => Fin(RealAbs(y))
    case NaN => NaN
    case _ => PosInf
  }

  /**
   One divided by an extended value. Division by zero gives +inf: the only
   zero divided here comes out of `Abs`, which in IEEE 754 is the positive zero.
   */
  function Recip(x: Ext): (r: Ext)
    ensures r.NaN? <==> x.NaN?
    ensures x == Fin(0.0) <==> r.PosInf?
    ensures x.Fin? && x.v != 0.0 ==> r.Fin? && r.v * x.v == 1.0
    ensures x.IsNonNeg() ==> r.IsNonNeg()
  {
    match x
    case Fin(y) => if y == 0.0 then PosInf else Fin(1.0 / y)
    case NaN => NaN
    case _ => Fin(0.0)
  }
}
