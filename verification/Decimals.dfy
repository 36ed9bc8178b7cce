/** Decimal digits of natural numbers, most significant digit first. Both the canonical
    JSON number form and the money strings are built from these. */
module Decimals {

  type Digit = d: int | 0 <= d < 10

  function Pow10(k: nat): (p: nat)
    ensures p > 0
  {
    if k == 0 then 1 else 10 * Pow10(k - 1)
  }

  lemma {:induction false} Pow10Add(a: nat, b: nat)
    ensures Pow10(a + b) == Pow10(a) * Pow10(b)
  {
    if b == 0 {
    } else {
      Pow10Add(a, b - 1);
      calc {
        Pow10(a + b);
        10 * Pow10(a + (b - 1));
        10 * (Pow10(a) * Pow10(b - 1));
        Pow10(a) * (10 * Pow10(b - 1));
      }
    }
  }

  lemma {:induction false} Pow10Monotone(a: nat, b: nat)
    requires a <= b
    ensures Pow10(a) <= Pow10(b)
    decreases b
  {
    if a < b {
      Pow10Monotone(a, b - 1);
    }
  }

  /** The number a digit sequence denotes; the empty sequence denotes 0. */
  function FromDigits(ds: seq<Digit>): nat {
    if ds == [] then 0 else FromDigits(ds[..|ds| - 1]) * 10 + ds[|ds| - 1]
  }

  /** The decimal form of `n` without leading zeros: what `BigInt.toString` prints. */
  function ToDigits(n: nat): (ds: seq<Digit>)
    ensures ds != []
    ensures n > 0 ==> ds[0] != 0
    ensures n == 0 ==> ds == [0]
  {
    if n < 10 then [n] else ToDigits(n / 10) + [n % 10]
  }

  lemma {:induction false} ValueOfToDigits(n: nat)
    ensures FromDigits(ToDigits(n)) == n
  {
    if n < 10 {
      assert [n][..0] == [];
    } else {
      var init := ToDigits(n / 10);
      ValueOfToDigits(n / 10);
      assert (init + [n % 10])[..|init|] == init;
    }
  }

  /** No leading zero, except for the single digit 0. */
  predicate Minimal(ds: seq<Digit>) {
    ds != [] && (ds[0] != 0 || |ds| == 1)
  }

  lemma {:induction false} MinimalPositive(ds: seq<Digit>)
    requires ds != [] && ds[0] != 0
    ensures FromDigits(ds) >= Pow10(|ds| - 1)
  {
    if |ds| == 1 {
      assert ds[..0] == [];
    } else {
      MinimalPositive(ds[..|ds| - 1]);
    }
  }

  lemma {:induction false} ToDigitsOfValue(ds: seq<Digit>)
    requires Minimal(ds)
    ensures ToDigits(FromDigits(ds)) == ds
  {
    var init, last := ds[..|ds| - 1], ds[|ds| - 1];
    assert ds == init + [last];
    if |ds| == 1 {
      assert init == [];
    } else {
      ToDigitsOfValue(init);
      MinimalPositive(init);
      assert FromDigits(ds) / 10 == FromDigits(init) && FromDigits(ds) % 10 == last;
    }
  }

  lemma {:induction false} ValueConcat(a: seq<Digit>, b: seq<Digit>)
    ensures FromDigits(a + b) == FromDigits(a) * Pow10(|b|) + FromDigits(b)
    decreases |b|
  {
    if b == [] {
      assert a + b == a;
    } else {
      var init, last := b[..|b| - 1], b[|b| - 1];
      assert (a + b)[..|a + b| - 1] == a + init;
      ValueConcat(a, init);
      ShiftOneDigit(FromDigits(a), Pow10(|init|), FromDigits(init), last);
    }
  }

  lemma ShiftOneDigit(x: int, p: int, y: int, last: int)
    ensures (x * p + y) * 10 + last == x * (10 * p) + (y * 10 + last)
  {
  }

  lemma {:induction false} ValueBound(ds: seq<Digit>)
    ensures FromDigits(ds) < Pow10(|ds|)
  {
    if ds != [] {
      ValueBound(ds[..|ds| - 1]);
    }
  }

  /** `k` zeros. */
  function Zeros(k: nat): (ds: seq<Digit>)
    ensures |ds| == k
    ensures forall i :: 0 <= i < k ==> ds[i] == 0
  {
    seq(k, _ => 0)
  }

  lemma {:induction false} ValueOfZeros(k: nat)
    ensures FromDigits(Zeros(k)) == 0
  {
    if k > 0 {
      assert Zeros(k)[..k - 1] == Zeros(k - 1);
      ValueOfZeros(k - 1);
    }
  }

  /** `replace(/^0+/, "")`. */
  function StripLeading(ds: seq<Digit>): (r: seq<Digit>)
    ensures r == [] || r[0] != 0
    ensures |r| <= |ds| && ds[|ds| - |r|..] == r
    ensures forall i :: 0 <= i < |ds| - |r| ==> ds[i] == 0
  {
    if ds != [] && ds[0] == 0 then StripLeading(ds[1..]) else ds
  }

  /** `replace(/0+$/, "")`. */
  function StripTrailing(ds: seq<Digit>): (r: seq<Digit>)
    ensures r == [] || r[|r| - 1] != 0
    ensures |r| <= |ds| && ds[..|r|] == r
    ensures forall i :: |r| <= i < |ds| ==> ds[i] == 0
  {
    if ds != [] && ds[|ds| - 1] == 0 then StripTrailing(ds[..|ds| - 1]) else ds
  }

  lemma {:induction false} StripLeadingZeros(k: nat, ds: seq<Digit>)
    requires ds == [] || ds[0] != 0
    ensures StripLeading(Zeros(k) + ds) == ds
  {
    if k == 0 {
      assert Zeros(k) + ds == ds;
    } else {
      assert (Zeros(k) + ds)[1..] == Zeros(k - 1) + ds;
      StripLeadingZeros(k - 1, ds);
    }
  }

  lemma {:induction false} StripTrailingZeros(ds: seq<Digit>, k: nat)
    requires ds == [] || ds[|ds| - 1] != 0
    ensures StripTrailing(ds + Zeros(k)) == ds
  {
    if k == 0 {
      assert ds + Zeros(k) == ds;
    } else {
      var all := ds + Zeros(k);
      assert all[..|all| - 1] == ds + Zeros(k - 1);
      StripTrailingZeros(ds, k - 1);
    }
  }

  lemma StripTrailingValue(ds: seq<Digit>)
    ensures FromDigits(ds) == FromDigits(StripTrailing(ds)) * Pow10(|ds| - |StripTrailing(ds)|)
  {
    var r := StripTrailing(ds);
    var k := |ds| - |r|;
    assert ds == r + Zeros(k);
    ValueConcat(r, Zeros(k));
    ValueOfZeros(k);
  }

  /** Two digit sequences of the same length that denote the same number are equal. */
  lemma {:induction false} ValueInjective(a: seq<Digit>, b: seq<Digit>)
    requires |a| == |b| && FromDigits(a) == FromDigits(b)
    ensures a == b
  {
    if a != [] {
      var m := |a| - 1;
      assert FromDigits(a) % 10 == a[m] && FromDigits(b) % 10 == b[m];
      ValueInjective(a[..m], b[..m]);
      assert a == a[..m] + [a[m]] && b == b[..m] + [b[m]];
    }
  }
}
