/** Division with remainder, for divisors that are not constants. */
module Arithmetic {

  lemma AtLeast(n: nat, d: int)
    requires d > 0
    ensures n * d >= n
  {
  }

  lemma Unique(n: nat, q: int, r: int, q1: int, r1: int)
    requires n * q + r == n * q1 + r1 && 0 <= r < n && 0 <= r1 < n
    ensures q == q1 && r == r1
  {
    assert n * (q - q1) == r1 - r;
    if q > q1 {
      AtLeast(n, q - q1);
    } else if q1 > q {
      AtLeast(n, q1 - q);
    }
  }

  lemma Divided(n: nat, q: nat, r: nat)
    requires r < n
    ensures (n * q + r) / n == q && (n * q + r) % n == r
  {
    Unique(n, q, r, (n * q + r) / n, (n * q + r) % n);
  }
}
