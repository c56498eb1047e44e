/**
 * The rounding helpers of the credit engine on exact reals:
 * JavaScript's `Math.round` and `Math.ceil`, and `roundVal`, which rounds to a multiple.
 */
module Rounding {

  /** `Math.round`: the nearest integer, halves rounded towards +infinity. */
  function Round(x: real): (n: int)
    ensures n as real - 0.5 <= x < n as real + 0.5
  {
    (x + 0.5).Floor
  }

  /** `Math.ceil`: the least integer not below `x`. */
  function Ceil(x: real): (n: int)
    ensures x <= n as real < x + 1.0
  {
    -((-x).Floor)
  }

  /** `x` is an integral multiple of `m`. */
  predicate IsMultipleOf(x: real, m: real)
    requires m > 0.0
  {
    (x / m).Floor as real == x / m
  }

  /** The two modes of `roundVal`: `'round'` and `'ceil'`. */
  datatype Direction = Nearest | Up

  /** `roundVal(num, multiple, direction)`: `num` rounded to a multiple of `multiple`. */
  function RoundVal(num: real, multiple: real, direction: Direction): (r: real)
    requires multiple > 0.0
    ensures IsMultipleOf(r, multiple)
    ensures direction == Up ==> num <= r < num + multiple
    ensures direction == Nearest ==> r - multiple / 2.0 <= num < r + multiple / 2.0
  {
    var q := num / multiple;
    var k := (if direction == Up then Ceil(q) else Round(q)) as real;
    MultipleDividesBack(k, multiple);
    assert q * multiple == num;
    if direction == Up then
      NotAboveScaled(num, q, multiple, k);
      AboveScaled(num, q, multiple, k - 1.0);
      k * multiple
    else
      NotBelowScaled(num, q, multiple, k - 0.5);
      BelowScaled(num, q, multiple, k + 0.5);
      k * multiple
  }

  lemma MultipleDividesBack(k: real, m: real)
    requires m > 0.0
    ensures (k * m) / m == k
  {
  }

  // Each lemma below multiplies one bound on the quotient `q = num / m` back by `m`.

  lemma NotAboveScaled(num: real, q: real, m: real, b: real)
    requires m > 0.0 && q * m == num && q <= b
    ensures num <= b * m
  {
    assert b * m - num == (b - q) * m;
  }

  lemma BelowScaled(num: real, q: real, m: real, b: real)
    requires m > 0.0 && q * m == num && q < b
    ensures num < b * m
  {
    assert b * m - num == (b - q) * m;
  }

  lemma NotBelowScaled(num: real, q: real, m: real, a: real)
    requires m > 0.0 && q * m == num && a <= q
    ensures a * m <= num
  {
    assert num - a * m == (q - a) * m;
  }

  lemma AboveScaled(num: real, q: real, m: real, a: real)
    requires m > 0.0 && q * m == num && a < q
    ensures a * m < num
  {
    assert num - a * m == (q - a) * m;
  }
}
