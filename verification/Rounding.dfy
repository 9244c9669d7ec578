/** JavaScript's `Math.round` and `Math.trunc`, on exact numbers. */
module Rounding {
  /** `Math.round(n / d)`: the nearest integer, halves up. */
  function RoundRatio(n: int, d: int): int
    requires d > 0
  {
    (2 * n + d) / (2 * d)
  }

  /** `Math.trunc(x)`: towards zero. */
  function Trunc(x: real): int {
    if x >= 0.0 then x.Floor else -((-x).Floor)
  }

  /** Rounding is off by at most half a unit, and a half is rounded up. */
  lemma RoundIsNearest(n: int, d: int)
    requires d > 0
    ensures -d <= 2 * n - 2 * d * RoundRatio(n, d) < d
  {
  }

  /** `n` is `x` without its fraction: the whole number next to it on the side of zero. */
  predicate IsWholePart(n: int, x: real) {
    if x >= 0.0 then n as real <= x < n as real + 1.0 else n as real - 1.0 < x <= n as real
  }

  lemma TruncIsWholePart(x: real)
    ensures IsWholePart(Trunc(x), x)
    ensures -1.0 < x - Trunc(x) as real < 1.0
  {
  }

  lemma MultipleAtLeast(d: int, a: int)
    requires d > 0 && a >= 1
    ensures d * a >= d
  {
  }

  lemma QuotientIsUnique(n: int, d: int, q: int)
    requires d > 0 && d * q <= n < d * q + d
    ensures n / d == q
  {
    var p := n / d;
    assert n == d * p + n % d;
    assert d * (p - q) == d * p - d * q && d * (q - p) == d * q - d * p;
    if p > q {
      MultipleAtLeast(d, p - q);
    } else if p < q {
      MultipleAtLeast(d, q - p);
    }
  }

  /** Adding `y` to the dividend adds the quotient of `y`, or one more. */
  lemma QuotientStep(x: int, y: int, d: int)
    requires d > 0
    ensures y / d <= (x + y) / d - x / d <= y / d + 1
  {
    var rest := x % d + y % d;
    assert x + y == d * (x / d + y / d) + rest by {
      assert x == d * (x / d) + x % d && y == d * (y / d) + y % d;
      assert d * (x / d + y / d) == d * (x / d) + d * (y / d);
    }
    if rest < d {
      QuotientIsUnique(x + y, d, x / d + y / d);
    } else {
      assert d * (x / d + y / d + 1) == d * (x / d + y / d) + d;
      QuotientIsUnique(x + y, d, x / d + y / d + 1);
    }
  }
}
