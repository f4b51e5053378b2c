/** Python floats as far as the period and preset logic needs them: the
    value of `float(text)` (parsing itself stays abstract), the chained
    comparison `lo <= x <= hi`, `1 / x` and the truncating `int(x)`.
    Finite values are exact reals; rounding is not modelled. */
module PyFloat {
  import opened Base

  datatype Float = Finite(v: real) | Inf(negative: bool) | NaN

  /** `lo <= x <= hi` for finite bounds: false for NaN and both infinities. */
  predicate Within(x: Float, lo: real, hi: real)
  {
    x.Finite? && lo <= x.v <= hi
  }

  /** Python's `int(r)` on a finite float: truncation toward zero. */
  function Trunc(r: real): (i: int)
    ensures 0.0 <= r ==> i as real <= r < i as real + 1.0
    ensures r < 0.0 ==> i as real - 1.0 < r <= i as real
  {
    if r >= 0.0 then r.Floor else -((-r).Floor)
  }

  /** `1 / x`; `None` is the `ZeroDivisionError` raised for zero. */
  function Reciprocal(x: Float): (r: Option<Float>)
    ensures r.None? <==> x == Finite(0.0)
    ensures x.Finite? && x.v != 0.0 ==> r == Some(Finite(1.0 / x.v))
    ensures x.Inf? ==> r == Some(Finite(0.0))
    ensures x.NaN? ==> r == Some(NaN)
  {
    match x
    case Finite(v) => if v == 0.0 then None else Some(Finite(1.0 / v))
    case Inf(_) => Some(Finite(0.0))
    case NaN => Some(NaN)
  }

  /** `int(x)`; `None` is the `OverflowError` for an infinity or the `ValueError` for NaN. */
  function ToInt(x: Float): (r: Option<int>)
    ensures r.Some? <==> x.Finite?
  {
    match x
    case Finite(v) => Some(Trunc(v))
    case _ => None
  }

  /** `time.sleep(x)` returns: it raises `ValueError` for a negative
      duration or NaN and `OverflowError` for an infinite one. */
  predicate SleepAccepts(x: Float)
  {
    x.Finite? && x.v >= 0.0
  }

  /** Truncation never moves a value away from zero and is exact on integers. */
  lemma TruncProperties(r: real, k: int)
    ensures Trunc(k as real) == k
    ensures 0.0 <= r ==> 0 <= Trunc(r)
    ensures r <= k as real && 0 <= k ==> Trunc(r) <= k
    ensures k as real <= r && 0 <= k ==> k <= Trunc(r)
  {
  }
}
