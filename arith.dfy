/** Facts about Euclidean division and remainder used by the index arithmetic. */
module Arithmetic {

  lemma ModStep(r: int, d: int, n: int)
    requires 0 <= r < n && 0 < d < n
    ensures (r + d) % n != r
  {
    if r + d < n {
      assert (r + d) % n == r + d;
    } else {
      assert (r + d) % n == r + d - n;
    }
  }

  lemma MulAtLeast(d: int, n: int)
    requires n > 0
    ensures d >= 1 ==> d * n >= n
    ensures d <= -1 ==> d * n <= -n
    ensures d == 0 ==> d * n == 0
  {
    if d >= 1 {
      assert d * n == (d - 1) * n + n;
      assert (d - 1) * n >= 0;
    } else if d <= -1 {
      assert d * n == (d + 1) * n - n;
      assert (-(d + 1)) * n >= 0;
    }
  }

  /** Euclidean division is determined by its quotient and remainder. */
  lemma ModUnique(a: int, n: int, q: int, r: int)
    requires n > 0 && 0 <= r < n && a == q * n + r
    ensures a % n == r
  {
    var d := q - a / n;
    assert a == (a / n) * n + a % n;
    assert d * n == q * n - (a / n) * n;
    assert d * n == a % n - r;
    MulAtLeast(d, n);
  }

  lemma ModShift(a: int, d: int, n: int)
    requires n >= 1
    ensures (a + d) % n == (a % n + d) % n
  {
    var r, q2 := (a % n + d) % n, (a % n + d) / n;
    assert a % n + d == q2 * n + r;
    assert a == (a / n) * n + a % n;
    assert a + d == (a / n + q2) * n + r;
    ModUnique(a + d, n, a / n + q2, r);
  }

  /** a / b is below c when a is below b * c. */
  lemma DivBelow(a: int, b: int, c: int)
    requires b > 0 && a < b * c
    ensures a / b < c
  {
    var d := c - a / b;
    assert a == (a / b) * b + a % b;
    assert d * b == c * b - (a / b) * b;
    assert d * b > 0;
    MulAtLeast(d, b);
  }

  /** a / b is at least c when a is at least b * c. */
  lemma DivAtLeast(a: int, b: int, c: int)
    requires b > 0 && a >= b * c
    ensures a / b >= c
  {
    var d := a / b - c + 1;
    assert a == (a / b) * b + a % b;
    assert d * b == (a / b) * b - c * b + b;
    assert d * b > 0;
    MulAtLeast(d, b);
  }
}
