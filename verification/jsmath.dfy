/** The JavaScript number operations the source relies on, stated over
    mathematical integers and reals: truncation (`x | 0`, `Math.trunc`),
    `Math.floor`, and the remainder operator `%`, whose result takes the sign
    of the dividend. */
module JsMath {

  /** `x | 0` on a value inside the 32-bit range: truncation toward zero. */
  function Trunc(x: real): (n: int)
    ensures x >= 0.0 ==> 0 <= n && n as real <= x < n as real + 1.0
    ensures x < 0.0 ==> n <= 0 && n as real - 1.0 < x <= n as real
  {
    if x >= 0.0 then x.Floor else -((-x).Floor)
  }

  lemma TruncMonotone(x: real, y: real)
    requires x <= y
    ensures Trunc(x) <= Trunc(y)
  {
  }

  /** `Math.min(a, b)`. */
  function Min(a: real, b: real): real {
    if a <= b then a else b
  }

  /** `Math.max(a, b)`. */
  function Max(a: real, b: real): real {
    if a >= b then a else b
  }

  /** `Math.floor(x)`. */
  function Floor(x: real): (n: int)
    ensures n as real <= x < n as real + 1.0
  {
    x.Floor
  }

  /** `a % n` on integers, for a positive n as everywhere in the source:
      the magnitude is that of |a| modulo n and the sign is the sign of a. */
  function Rem(a: int, n: int): (r: int)
    requires n > 0
    ensures a >= 0 ==> 0 <= r < n
    ensures a < 0 ==> -n < r <= 0
  {
    if a >= 0 then a % n else -((-a) % n)
  }

  /** The quotient `Math.trunc(a / n)`. */
  function Quot(a: int, n: int): int
    requires n > 0
  {
    if a >= 0 then a / n else -((-a) / n)
  }

  /** The remainder completes the truncated quotient, and on a non-negative
      dividend it is Dafny's (Euclidean) remainder. */
  lemma RemQuot(a: int, n: int)
    requires n > 0
    ensures a == n * Quot(a, n) + Rem(a, n)
    ensures a >= 0 ==> Rem(a, n) == a % n
  {
  }

  /** x less m*t lies in [0, m) when t is the floor of x/m. */
  lemma BelowScaled(x: real, m: real, y: real, t: real)
    requires m > 0.0
    requires x == m * y
    requires t <= y < t + 1.0
    ensures 0.0 <= x - m * t < m
  {
    var d := y - t;
    assert m * d < m;
    assert m * d >= 0.0;
    assert m * d == m * y - m * t;
    assert m * d == x - m * t;
  }

  /** x less m*t lies in (-m, 0] when t is the ceiling of x/m. */
  lemma AboveScaled(x: real, m: real, y: real, t: real)
    requires m > 0.0
    requires x == m * y
    requires t - 1.0 < y <= t
    ensures -m < x - m * t <= 0.0
  {
    var d := t - y;
    assert m * d < m;
    assert m * d >= 0.0;
    assert m * d == m * t - m * y;
    assert m * d == m * t - x;
  }

  /** `x % m` on numbers, for a positive m. */
  function RemReal(x: real, m: real): (r: real)
    requires m > 0.0
    ensures x >= 0.0 ==> 0.0 <= r < m
    ensures x < 0.0 ==> -m < r <= 0.0
  {
    var y := x / m;
    var t := Trunc(y) as real;
    assert x == m * y;
    if x >= 0.0 then
      BelowScaled(x, m, y, t);
      x - m * t
    else
      AboveScaled(x, m, y, t);
      x - m * t
  }
}
