/** Facts about integer multiplication and Euclidean division that the
    solver verifier does not find on its own. */
module Arithmetic {

  lemma {:induction false} MulSign(d: int, n: int)
    requires 0 <= n
    ensures d >= 1 ==> d * n >= n
    ensures d <= -1 ==> d * n <= -n
    decreases if d < 0 then -d else d
  {
    if d > 1 {
      MulSign(d - 1, n);
      assert d * n == (d - 1) * n + n;
    } else if d < -1 {
      MulSign(d + 1, n);
      assert d * n == (d + 1) * n - n;
    }
  }

  /** The quotient is the `c` with c * n <= a < (c + 1) * n. */
  lemma DivExact(a: int, n: int, c: int)
    requires 0 < n && c * n <= a < c * n + n
    ensures a / n == c
  {
    var q, m := a / n, a % n;
    assert a == q * n + m && 0 <= m < n;
    assert (q - c) * n == q * n - c * n;
    MulSign(q - c, n);
  }

  /** Exact division is the integer quotient plus a fraction in [0, 1). */
  lemma RealQuotient(a: int, n: int)
    requires 0 < n
    ensures a as real / n as real == (a / n) as real + (a % n) as real / n as real
    ensures 0.0 <= (a % n) as real / n as real < 1.0
  {
    var q, m := a / n, a % n;
    assert a == q * n + m;
    assert a as real == q as real * n as real + m as real;
    assert m as real < n as real;
  }

  lemma DivMonotone(a: int, b: int, n: int)
    requires a <= b && 0 < n
    ensures a / n <= b / n
  {
    var qa, qb := a / n, b / n;
    assert a == qa * n + a % n && b == qb * n + b % n;
    assert (qa - qb) * n == qa * n - qb * n;
    MulSign(qa - qb, n);
  }
}
