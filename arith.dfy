/** Small facts of integer arithmetic that the solver does not find by itself. */
module Arith {

  lemma MulLe(a: int, b: int, n: int)
    requires a <= b && n >= 0
    ensures n * a <= n * b
  {
    assert n * b - n * a == n * (b - a);
  }

  /** Division with remainder is unique: a quotient and remainder that rebuild `x` are the ones `/` and `%` give. */
  lemma DivModUnique(x: int, n: int, q: int, r: int)
    requires n > 0 && 0 <= r < n && x == n * q + r
    ensures x / n == q && x % n == r
  {
    var q' := x / n;
    assert x == n * q' + x % n;
    if q' > q {
      MulLe(q + 1, q', n);
      assert false;
    }
    if q' < q {
      MulLe(q' + 1, q, n);
      assert false;
    }
  }

  lemma ModShift(a: int, n: int)
    requires n > 0
    ensures (n + a) % n == a % n
  {
    DivModUnique(n + a, n, a / n + 1, a % n);
  }
}
