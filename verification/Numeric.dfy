/** PostgreSQL `numeric` rounding, in units of the last stored place.

A cast to `numeric(p, s)` and `ROUND(x, s)` both round half away from zero.  A
value is given in units of its last place (thousandths of a litre, cents), so
rounding is to an integer.
 */
module Numeric {

  function Round(x: real): int {
    if x >= 0.0 then (x + 0.5).Floor else -((-x + 0.5).Floor)
  }

  /** x lies exactly between two storable values. */
  predicate Halfway(x: real) {
    x - x.Floor as real == 0.5
  }

  function AbsReal(x: real): (r: real)
    ensures r >= 0.0
  {
    if x < 0.0 then -x else x
  }

  /** Rounding never moves a value by more than half a unit. */
  lemma RoundNearest(x: real)
    ensures -0.5 <= Round(x) as real - x <= 0.5
  {
  }

  lemma RoundMonotone(x: real, y: real)
    requires x <= y
    ensures Round(x) <= Round(y)
  {
  }

  lemma RoundOfStored(n: int)
    ensures Round(n as real) == n
  {
  }

  /** Adding a stored value commutes with the cast exactly when the addend is not
      halfway, or is halfway with the same sign as the sum. */
  lemma RoundShift(n: int, x: real)
    ensures Round(n as real + x) == n + Round(x)
            <==> (!Halfway(x) || (x > 0.0 <==> n as real + x > 0.0))
  {
    var f := x.Floor;
    assert (n as real + x).Floor == n + f;
    var d := x - f as real;
    assert 0.0 <= d < 1.0;
    assert Round(x) == if d < 0.5 then f else if d > 0.5 then f + 1 else if x >= 0.0 then f + 1 else f;
    var y := n as real + x;
    assert y - y.Floor as real == d;
    assert Round(y) == if d < 0.5 then n + f else if d > 0.5 then n + f + 1 else if y >= 0.0 then n + f + 1 else n + f;
  }
}
