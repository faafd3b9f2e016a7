/** Integer facts and C numeric conversions shared by the models: truncation of a
    float toward zero and Euclidean division by a positive divisor. */
module Numeric {

  lemma MulNonNegativeInt(a: int, b: int)
    requires a >= 0 && b >= 0
    ensures a * b >= 0
  {
  }

  /** A nonzero integer multiple of a positive m is at least m in size. */
  lemma MulMonotone(e: int, m: int)
    requires m > 0
    ensures e >= 1 ==> e * m >= m
    ensures e <= -1 ==> e * m <= -m
  {
    if e >= 1 {
      assert e * m == (e - 1) * m + m;
      MulNonNegativeInt(e - 1, m);
    } else if e <= -1 {
      assert e * m == -((-e - 1) * m + m);
      MulNonNegativeInt(-e - 1, m);
    }
  }

  /** d is the only integer whose multiple by a positive m lies strictly within m of
      m * d. */
  lemma PinnedMultiple(p: int, d: int, m: int)
    requires m > 0 && d * m - m < p * m < d * m + m
    ensures p == d
  {
    assert p * m - d * m == (p - d) * m;
    MulMonotone(p - d, m);
  }

  /** Quotient and remainder are determined by `n == q*m + r` with `0 <= r < m`. */
  lemma DivModUnique(n: int, m: int, q: int, r: int)
    requires m > 0 && 0 <= r < m && n == q * m + r
    ensures n / m == q && n % m == r
  {
    var q' := n / m;
    assert n == q' * m + n % m;
    PinnedMultiple(q', q, m);
  }

  /** C conversion of a float to an integer type: truncation toward zero. */
  function Trunc(x: real): (n: int)
    ensures x >= 0.0 ==> 0 <= n && n as real <= x < n as real + 1.0
    ensures x < 0.0 ==> n as real - 1.0 < x <= n as real <= 0.0
  {
    if x >= 0.0 then x.Floor else -((-x).Floor)
  }
}
