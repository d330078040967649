/**
 * Integer helpers for the arithmetic the application does with
 * `Math.ceil`, `Math.min` and `Math.max` on integer operands.
 */
module Arith {

  /** `Math.ceil(d / m)` for integers `d` and a positive divisor `m`. */
  function CeilDiv(d: int, m: int): (r: int)
    requires m > 0
    ensures (r - 1) * m < d <= r * m
  {
    var q := (-d) / m;
    DivBounds(-d, m);
    -q
  }

  /** Euclidean division by a positive divisor rounds down. */
  lemma DivBounds(n: int, m: int)
    requires m > 0
    ensures (n / m) * m <= n < (n / m) * m + m
  {
    assert n == (n / m) * m + n % m;
  }

  /** The ceiling is positive exactly when the dividend is. */
  lemma CeilDivPositive(d: int, m: int)
    requires m > 0
    ensures CeilDiv(d, m) >= 1 <==> d > 0
  {
    var r := CeilDiv(d, m);
    if r >= 1 {
      assert (r - 1) * m >= 0;
    } else {
      assert r * m <= 0;
    }
  }

  function Min(a: int, b: int): (r: int)
    ensures r <= a && r <= b && (r == a || r == b)
  {
    if a <= b then a else b
  }

  function Max(a: int, b: int): (r: int)
    ensures r >= a && r >= b && (r == a || r == b)
  {
    if a >= b then a else b
  }
}
