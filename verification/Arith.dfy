/** Facts about products, quotients and remainders that the index computations need. */
module Arith {

  lemma MulMonotone(a: int, b: int, c: int)
    requires a <= b && 0 <= c
    ensures a * c <= b * c && c * a <= c * b
  {
    assert (b - a) * c >= 0;
    assert (b - a) * c == b * c - a * c;
  }

  lemma MulNonNegative(a: int, b: int)
    requires 0 <= a && 0 <= b
    ensures 0 <= a * b
  {
  }

  /** Quotient and remainder are unique. */
  lemma DivModUnique(q: int, d: int, r: int)
    requires 0 <= r < d
    ensures (q * d + r) / d == q && (q * d + r) % d == r
  {
    var n := q * d + r;
    var (q1, r1) := (n / d, n % d);
    assert n == q1 * d + r1;
    EqualDigits(d, q, r, q1, r1);
  }

  lemma EqualDigits(d: int, q1: int, r1: int, q2: int, r2: int)
    requires 0 <= r1 < d && 0 <= r2 < d && q1 * d + r1 == q2 * d + r2
    ensures q1 == q2 && r1 == r2
  {
    if q1 > q2 {
      assert (q2 + 1) * d == q2 * d + d;
      MulMonotone(q2 + 1, q1, d);
    } else if q2 > q1 {
      assert (q1 + 1) * d == q1 * d + d;
      MulMonotone(q1 + 1, q2, d);
    }
  }

  /** A two-digit number stays below the product of its bases. */
  lemma DigitBound(q: int, n: int, r: int, d: int)
    requires 0 <= q < n && 0 <= r < d
    ensures 0 <= q * d + r < n * d
  {
    MulMonotone(q + 1, n, d);
    MulNonNegative(q, d);
    assert (q + 1) * d == q * d + d;
  }
}
