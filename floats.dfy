/**
 * The numbers of the data frame: pandas stores cells as IEEE doubles, where a
 * missing value is NaN and an overflowing or infinite input is +/-inf. Finite
 * values are modelled as exact reals.
 */
module Floats {
  import opened Wrappers

  datatype Num = Finite(value: real) | NaN | PosInf | NegInf

  /** pandas' notna: only NaN counts as missing; an infinity is a present value. */
  predicate Present(n: Num) {
    !n.NaN?
  }

  /** Elementwise `+` of two float columns, with IEEE rules for NaN and infinities. */
  function Add(a: Num, b: Num): (r: Num)
    ensures r.NaN? <==> a.NaN? || b.NaN? || (a.PosInf? && b.NegInf?) || (a.NegInf? && b.PosInf?)
    ensures r.Finite? <==> a.Finite? && b.Finite?
    ensures r.Finite? ==> r.value == a.value + b.value
  {
    match (a, b)
    case (Finite(x), Finite(y)) => Finite(x + y)
    case (NaN, _) => NaN
    case (_, NaN) => NaN
    case (PosInf, NegInf) => NaN
    case (NegInf, PosInf) => NaN
    case (PosInf, _) => PosInf
    case (_, PosInf) => PosInf
    case (NegInf, _) => NegInf
    case (_, NegInf) => NegInf
  }

  /**
   * The replacement of NaN, +inf and -inf by None before the records are
   * serialised: only finite values reach the output as numbers.
   */
  function ToJson(n: Num): (r: Option<real>)
    ensures r.Some? <==> n.Finite?
    ensures r.Some? ==> r.value == n.value
  {
    if n.Finite? then Some(n.value) else None
  }
}
