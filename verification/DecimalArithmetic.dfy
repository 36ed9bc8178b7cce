/** Decimal arithmetic as decimal.js does it: every operation is exact and then rounded half up
    to 40 significant digits; `toFixed` rounds half up to a number of decimals. */
module DecimalArithmetic {
  import opened Decimals

  const PRECISION: nat := 40

  /** 10^39: half of its inverse is the relative error of one operation. */
  const E39: real := 1_000_000_000_000_000_000_000_000_000_000_000_000_000.0

  /** 10^k, for negative k as well. */
  function Pow(k: int): (p: real)
    ensures p > 0.0
  {
    if k >= 0 then Pow10(k) as real else 1.0 / Pow10(-k) as real
  }

  function Abs(x: real): real { if x < 0.0 then -x else x }

  /** The multiple of 1/p nearest to a magnitude, a tie going up. */
  function HalfUp(magnitude: real, p: real): real
    requires p > 0.0
  {
    (magnitude * p + 0.5).Floor as real / p
  }

  /** Half up: the magnitude's tie goes away from zero. */
  function RoundAt(x: real, decimals: int): real {
    if x < 0.0 then -HalfUp(-x, Pow(decimals)) else HalfUp(x, Pow(decimals))
  }

  lemma TenthSmaller(x: real)
    requires x >= 10.0
    ensures 0 <= (x / 10.0).Floor < x.Floor
  {
    assert x / 10.0 <= x - 9.0;
  }

  lemma InverseShrinks(x: real)
    requires 0.0 < x && 10.0 * x < 1.0
    ensures 0 <= (1.0 / (10.0 * x)).Floor < (1.0 / x).Floor
  {
    var y := 1.0 / x;
    assert y * x == 1.0;
    assert y > 10.0;
    assert 1.0 / (10.0 * x) == y / 10.0;
    TenthSmaller(y);
  }

  /** The e with 10^e <= x < 10^(e+1). */
  function Exponent(x: real): int
    requires x > 0.0
    decreases if x >= 1.0 then x.Floor else (1.0 / x).Floor
  {
    if x >= 10.0 then
      TenthSmaller(x);
      Exponent(x / 10.0) + 1
    else if x >= 1.0 then
      0
    else if 10.0 * x >= 1.0 then
      -1
    else
      InverseShrinks(x);
      Exponent(10.0 * x) - 1
  }

  function Rounded(x: real): real {
    if x == 0.0 then 0.0 else RoundAt(x, PRECISION - 1 - Exponent(Abs(x)))
  }

  // ---- Powers of ten ----

  lemma TenthInverse(p: real)
    requires p > 0.0
    ensures 1.0 / p == 10.0 * (1.0 / (10.0 * p))
  {
    var inverse := 1.0 / (10.0 * p);
    assert inverse * (10.0 * p) == 1.0;
    assert (10.0 * inverse) * p == 1.0;
  }

  lemma PowStep(k: int)
    ensures Pow(k + 1) == 10.0 * Pow(k)
  {
    if k < 0 {
      TenthInverse(Pow10(-k - 1) as real);
    }
  }

  lemma PowTenSteps(k: int)
    ensures Pow(k + 10) == 10_000_000_000.0 * Pow(k)
  {
    hide Pow;
    PowStep(k); PowStep(k + 1); PowStep(k + 2); PowStep(k + 3); PowStep(k + 4);
    PowStep(k + 5); PowStep(k + 6); PowStep(k + 7); PowStep(k + 8); PowStep(k + 9);
  }

  lemma PowE39(k: int)
    ensures Pow(k + 39) == E39 * Pow(k)
  {
    hide Pow;
    PowTenSteps(k);
    PowTenSteps(k + 10);
    PowTenSteps(k + 20);
    PowTenSteps(k + 29);
    PowStep(k + 29);
  }

  lemma PowMinus30()
    ensures Pow(-30) * E39 == 1_000_000_000.0
  {
    assert Pow(0) == 1.0;
    hide Pow;
    PowTenSteps(-10);
    PowTenSteps(-20);
    PowTenSteps(-30);
  }

  lemma PowInverse(k: int)
    ensures Pow(k) * Pow(-k) == 1.0
  {
  }

  lemma {:induction false} ExponentBounds(x: real)
    requires x > 0.0
    ensures Pow(Exponent(x)) <= x < Pow(Exponent(x) + 1)
    decreases if x >= 1.0 then x.Floor else (1.0 / x).Floor
  {
    assert Pow(0) == 1.0;
    hide Pow;
    PowStep(0);
    PowStep(-1);
    if x >= 10.0 {
      TenthSmaller(x);
      ExponentBounds(x / 10.0);
      PowStep(Exponent(x / 10.0));
      PowStep(Exponent(x / 10.0) + 1);
    } else if 10.0 * x < 1.0 {
      InverseShrinks(x);
      ExponentBounds(10.0 * x);
      PowStep(Exponent(10.0 * x));
      PowStep(Exponent(10.0 * x) - 1);
    }
  }

  lemma {:induction false} PowMonotone(a: int, b: int)
    requires a <= b
    ensures Pow(a) <= Pow(b)
    decreases b - a
  {
    if a < b {
      PowMonotone(a, b - 1);
      PowStep(b - 1);
    }
  }

  lemma ExponentUnique(x: real, e: int)
    requires x > 0.0 && Pow(e) <= x < Pow(e + 1)
    ensures Exponent(x) == e
  {
    hide Pow, Exponent;
    ExponentBounds(x);
    if Exponent(x) < e {
      PowMonotone(Exponent(x) + 1, e);
    } else if e < Exponent(x) {
      PowMonotone(e + 1, Exponent(x));
    }
  }

  // ---- Rounding errors ----

  lemma MulLe(a: real, b: real, c: real)
    requires a <= b && c >= 0.0
    ensures a * c <= b * c
  {
  }

  lemma Group(a: real, b: real, c: real)
    ensures (a * b) * c == a * (b * c)
  {
  }

  lemma DistributeMinus(a: real, b: real, c: real)
    ensures (a - b) * c == a * c - b * c
  {
  }

  lemma QuotientOf(n: real, p: real, inverse: real)
    requires p > 0.0 && p * inverse == 1.0
    ensures n / p == n * inverse
  {
    var q := n / p;
    assert q * p == n;
    Group(q, p, inverse);
  }

  lemma HalfUpError(a: real, p: real, unit: real)
    requires a >= 0.0 && p > 0.0 && unit > 0.0 && p * unit == 1.0
    ensures HalfUp(a, p) >= 0.0
    ensures -0.5 * unit <= HalfUp(a, p) - a <= 0.5 * unit
  {
    MulLe(0.0, a, p);
    var y := a * p;
    var n := (y + 0.5).Floor as real;
    assert n >= 0.0 && -0.5 <= n - y <= 0.5;
    MulLe(n - y, 0.5, unit);
    MulLe(-0.5, n - y, unit);
    QuotientOf(n, p, unit);
    Group(a, p, unit);
    DistributeMinus(n, y, unit);
    MulLe(0.0, n, unit);
  }

  /** Rounding to k decimals errs by at most half a unit of the k-th decimal. */
  lemma RoundAtError(x: real, k: int)
    ensures Abs(RoundAt(x, k) - x) <= 0.5 * Pow(-k)
  {
    hide Pow, HalfUp;
    PowInverse(k);
    HalfUpError(Abs(x), Pow(k), Pow(-k));
  }

  /** An operation errs by at most half a unit of the 40th significant digit. */
  lemma RoundedError(x: real)
    ensures Abs(Rounded(x) - x) * E39 <= 0.5 * Abs(x)
  {
    hide Pow, Exponent, RoundAt;
    if x != 0.0 {
      var e := Exponent(Abs(x));
      ExponentBounds(Abs(x));
      RoundAtError(x, 39 - e);
      PowE39(e - 39);
      assert -(39 - e) == e - 39;
    }
  }

  /** Nothing but 0 is rounded to 0, and the sign is kept. */
  lemma RoundedSign(x: real)
    ensures Rounded(x) == 0.0 <==> x == 0.0
    ensures x > 0.0 ==> Rounded(x) > 0.0
  {
    assert Rounded(0.0) == 0.0;
    hide Rounded;
    RoundedError(x);
  }

  lemma QuotientBack(q: real, n: real, p: real)
    requires p > 0.0 && q * p == n
    ensures n / p == q
  {
  }

  lemma QuotientSign(n: real, p: real)
    requires p > 0.0
    ensures n / p == 0.0 <==> n == 0.0
  {
    assert (n / p) * p == n;
  }

  lemma HalfUpUnits(magnitude: real, p: real) returns (n: int)
    requires p > 0.0
    ensures HalfUp(magnitude, p) * p == n as real
  {
    n := (magnitude * p + 0.5).Floor;
  }

  lemma Negate(x: real, p: real)
    ensures (-x) * p == -(x * p)
  {
  }

  /** The multiple of 1/p that HalfUp picks is the only one this near. */
  lemma HalfUpIs(magnitude: real, p: real, n: int, q: real)
    requires p > 0.0 && n as real - 0.5 <= magnitude * p < n as real + 0.5
    requires q * p == n as real
    ensures HalfUp(magnitude, p) == q
  {
    QuotientBack(q, n as real, p);
    assert (magnitude * p + 0.5).Floor == n;
  }

  /** x is n units of the k-th decimal. */
  predicate IsMultiple(x: real, k: int, n: int) { x * Pow(k) == n as real }

  /** x is less than half a unit of the k-th decimal. */
  predicate IsNegligible(x: real, k: int) { BelowHalf(Abs(x), Pow(k)) }

  predicate BelowHalf(magnitude: real, p: real) { magnitude * p < 0.5 }

  /** A number that already has at most k decimals is left alone. */
  lemma RoundAtFixed(n: int, k: int, x: real)
    requires IsMultiple(x, k, n)
    ensures RoundAt(x, k) == x
  {
    hide Pow, HalfUp;
    Negate(x, Pow(k));
    if x < 0.0 {
      HalfUpIs(-x, Pow(k), -n, -x);
    } else {
      HalfUpIs(x, Pow(k), n, x);
    }
  }

  lemma HalfUpZero(magnitude: real, p: real)
    requires magnitude >= 0.0 && p > 0.0
    ensures HalfUp(magnitude, p) == 0.0 <==> BelowHalf(magnitude, p)
  {
    MulLe(0.0, magnitude, p);
    var n := (magnitude * p + 0.5).Floor;
    QuotientSign(n as real, p);
  }

  /** What rounds to 0 is what lies within half a unit of it. */
  lemma RoundsToZeroIff(x: real, k: int)
    ensures RoundAt(x, k) == 0.0 <==> IsNegligible(x, k)
  {
    hide Pow, HalfUp, BelowHalf;
    HalfUpZero(Abs(x), Pow(k));
  }

  /** Rounding a positive number whose exponent is known to the n-th unit of its 40th digit. */
  lemma RoundedIs(x: real, e: int, p: real, n: int, q: real)
    requires x > 0.0 && Pow(e) <= x < Pow(e + 1) && Pow(39 - e) == p
    requires n as real - 0.5 <= x * p < n as real + 0.5 && q * p == n as real
    ensures Rounded(x) == q
  {
    hide Pow, Exponent, HalfUp;
    ExponentUnique(x, e);
    HalfUpIs(x, p, n, q);
  }

  lemma TieUp(magnitude: real, p: real, n: nat)
    requires p > 0.0 && magnitude * p == n as real + 0.5
    ensures HalfUp(magnitude, p) * p == (n + 1) as real
  {
    var y := magnitude * p + 0.5;
    assert y.Floor == n + 1;
    assert (n + 1) as real / p * p == (n + 1) as real;
  }

  /** A tie goes away from zero, on both sides. */
  lemma TieAwayFromZero(x: real, k: int, n: nat)
    requires x > 0.0 && x * Pow(k) == n as real + 0.5
    ensures RoundAt(x, k) * Pow(k) == (n + 1) as real
    ensures RoundAt(-x, k) == -RoundAt(x, k)
  {
    hide Pow;
    assert -(-x) == x;
    TieUp(x, Pow(k), n);
    hide HalfUp;
  }
}
