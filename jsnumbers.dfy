/**
 * JavaScript numbers as the browser scripts use them: a finite value or NaN.
 * Values are exact reals; double rounding, the infinities and the sign of zero are not
 * modelled.
 */
module JsNumbers {

  datatype Num = NaN | Fin(v: real)

  /** The number is truthy: neither NaN nor zero. */
  predicate Truthy(n: Num) {
    n.Fin? && n.v != 0.0
  }

  /** `n || d` with a numeric default `d`. */
  function Or(n: Num, d: real): (r: real)
    ensures Truthy(n) ==> r == n.v
    ensures !Truthy(n) ==> r == d
  {
    if Truthy(n) then n.v else d
  }

  /** `Math.max(1, n)`: NaN stays NaN, anything else is at least 1. */
  function AtLeastOne(n: Num): (r: Num)
    ensures r.NaN? <==> n.NaN?
    ensures r.Fin? ==> r.v >= 1.0 && (r.v == 1.0 || r.v == n.v)
    ensures n.Fin? && n.v >= 1.0 ==> r == n
  {
    if n.NaN? then NaN else if n.v < 1.0 then Fin(1.0) else n
  }

  /** `a * b`: NaN as soon as either factor is. */
  function Times(a: Num, b: Num): (r: Num)
    ensures r.NaN? <==> a.NaN? || b.NaN?
    ensures r.Fin? ==> r.v == a.v * b.v
  {
    if a.NaN? || b.NaN? then NaN else Fin(a.v * b.v)
  }

  /** `Math.max(0, x)`. */
  function AtLeastZero(x: real): (r: real)
    ensures r >= 0.0 && r >= x
    ensures r == 0.0 || r == x
  {
    if x < 0.0 then 0.0 else x
  }
}
