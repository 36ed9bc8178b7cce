/** Products and quotients of integers, one step at a time. */
module Arithmetic {

  lemma Distribute(a: int, b: int, d: int)
    ensures (a + b) * d == a * d + b * d
  {
  }

  lemma Associate(a: int, b: int, c: int)
    ensures a * (b * c) == (a * b) * c
  {
  }

  lemma NonNegative(a: nat, b: nat)
    ensures a * b >= 0
  {
  }

  lemma MulMonotone(a: int, b: int, d: nat)
    requires a <= b
    ensures a * d <= b * d
  {
    Distribute(a, b - a, d);
    NonNegative(b - a, d);
  }

  lemma MulStrict(a: int, b: int, d: nat)
    requires a < b
    ensures a * d + d <= b * d
  {
    Distribute(a, 1, d);
    MulMonotone(a + 1, b, d);
  }

  lemma Cancel(a: int, b: int, d: nat)
    requires d > 0 && a * d == b * d
    ensures a == b
  {
    if a < b {
      MulStrict(a, b, d);
    } else if b < a {
      MulStrict(b, a, d);
    }
  }

  lemma EqualQuotients(a: int, r: nat, b: int, t: nat, d: nat)
    requires a * d + r == b * d + t && r < d && t < d
    ensures a == b
  {
    if a < b {
      MulStrict(a, b, d);
    } else if b < a {
      MulStrict(b, a, d);
    }
  }

  lemma QuotientUnique(x: nat, q: nat, d: nat, r: nat)
    requires d > 0 && x == q * d + r && r < d
    ensures x / d == q
  {
    assert x == (x / d) * d + x % d;
    EqualQuotients(q, r, x / d, x % d, d);
  }

  lemma QuotientAtMost(n: nat, d: nat, k: nat)
    requires d > 0 && n <= k * d
    ensures n / d <= k
  {
    assert n == (n / d) * d + n % d;
    if k < n / d {
      MulStrict(k, n / d, d);
    }
  }

  lemma Regroup(v: int, p: int, r: int, q: int)
    ensures (v * p + r) * q == v * (p * q) + r * q
  {
    Distribute(v * p, r, q);
    Associate(v, p, q);
  }

  lemma ScaledLess(r: nat, p: nat, q: nat)
    requires r < p && q > 0
    ensures r * q < p * q
  {
    MulStrict(r, p, q);
  }
}
