/** The JavaScript numbers the stream estimates take, made explicit. Arithmetic is
    exact over `real` instead of IEEE doubles. */
module Numbers {

  /** A number that is finite or `Infinity`: the "unknown" estimate of a binding
      stream is `Infinity`, every other estimate is finite. */
  datatype Ext = Fin(v: real) | Inf {

    /** `this - x` for a finite `x`; `Infinity` absorbs the subtraction. */
    function Minus(x: real): (r: Ext)
      ensures r.Inf? <==> Inf?
      ensures r.Fin? ==> r.v + x == v
    {
      match this
      case Fin(a) => Fin(a - x)
      case Inf => Inf
    }

    /** `this <= x` for a finite `x`. */
    predicate AtMost(x: real)
    {
      Fin? && v <= x
    }
  }

  /** A number that may be `NaN`, the outcome of `0 / 0` and of arithmetic on
      `undefined`. Every ordered comparison with `NaN` is false. */
  datatype JsNum = Num(v: real) | NaN

  /** `k / n` for counts, `NaN` when both are zero. */
  function Ratio(k: nat, n: nat): (r: JsNum)
    requires k <= n
    ensures r.NaN? <==> n == 0
    ensures r.Num? ==> 0.0 <= r.v <= 1.0 && r.v * n as real == k as real
  {
    if n == 0 then NaN else Num(k as real / n as real)
  }

  function Max(a: int, b: int): int
  {
    if a < b then b else a
  }

  function MinReal(a: real, b: real): real
  {
    if a < b then a else b
  }

  /** `Math.ceil(x)`: the least integer not below `x`. */
  function Ceil(x: real): (r: int)
    ensures x <= r as real < x + 1.0
  {
    -((-x).Floor)
  }

  /** `Math.ceil(x / d)` for an integer `x` and a positive divisor. */
  function CeilDiv(x: int, d: nat): (r: int)
    requires d > 0
    ensures x <= r * d < x + d
  {
    (x + d - 1) / d
  }
}
