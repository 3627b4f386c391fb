// Multiples, quotients and remainders, where the solver needs the step spelled out.
module Arithmetic {

  lemma SmallMultiple(k: int, m: int)
    requires m > 0 && -m < k * m < m
    ensures k == 0
  {
    if k > 0 {
      NonNegative(k - 1, m);
    } else if k < 0 {
      NonNegative(-k - 1, m);
    }
  }

  lemma NonNegative(k: int, m: int)
    requires k >= 0 && m >= 0
    ensures k * m >= 0
  {
  }

  /** Quotient and remainder are the only pair that rebuilds the number. */
  lemma ModIs(x: int, m: int, q: int, r: int)
    requires 0 <= r < m && x == q * m + r
    ensures x / m == q && x % m == r
  {
    var d := x / m;
    assert x == d * m + x % m;
    assert (q - d) * m == q * m - d * m;
    SmallMultiple(q - d, m);
  }

  lemma OneMoreTime(k: int, m: int)
    ensures (k + 1) * m == k * m + m
  {
  }
}
