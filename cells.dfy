/**
 * Numeric cells as the dataframe holds them, with the float comparison rules
 * the cleaning steps rely on: every comparison involving NaN is false.
 */
module Cells {

  /** A cell: a finite value, a missing value (NaN) or an infinity. */
  datatype Num = Finite(v: real) | NaN | PosInf | NegInf

  /** What `isna() or isinf()` flags. */
  predicate IsInvalid(x: Num) {
    !x.Finite?
  }

  /** Float `x == 0`; false for NaN and for the infinities. */
  predicate EqualsZero(x: Num) {
    x == Finite(0.0)
  }

  /** Float `x < t`; false for NaN and for +inf. */
  predicate LessThan(x: Num, t: real) {
    match x
    case Finite(v) => v < t
    case NegInf => true
    case _ => false
  }

  /** Float `x > t`; false for NaN and for -inf. */
  predicate GreaterThan(x: Num, t: real) {
    match x
    case Finite(v) => v > t
    case PosInf => true
    case _ => false
  }

  /** `fillna(v)` on one cell: only NaN is replaced. */
  function FillMissing(x: Num, v: real): (r: Num)
    ensures !r.NaN?
    ensures x.NaN? ==> r == Finite(v)
    ensures !x.NaN? ==> r == x
  {
    if x.NaN? then Finite(v) else x
  }

  /** `clip(upper=u)` on one cell: NaN stays NaN, +inf becomes u. */
  function ClipUpper(x: Num, u: real): (r: Num)
    ensures x.NaN? <==> r.NaN?
    ensures x.Finite? ==> r.Finite? && r.v <= u && r.v <= x.v && (r.v == x.v || r.v == u)
    ensures x.PosInf? ==> r == Finite(u)
    ensures x.NegInf? ==> r == NegInf
  {
    match x
    case Finite(v) => Finite(if v <= u then v else u)
    case PosInf => Finite(u)
    case _ => x
  }
}
