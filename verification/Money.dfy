/** Decimal amounts and integer base units. */
module Money {
  import opened Wrappers
  import opened Sequences
  import opened Decimals
  import opened Arithmetic

  const STELLAR_DECIMALS: nat := 7

  // ---- Numerals: what /^-?\d+(\.\d+)?$/ accepts ----

  /** `frac` is empty when there is no point. */
  datatype Numeral = Numeral(negative: bool, whole: seq<Digit>, frac: seq<Digit>)

  predicate IsDigit(c: char) { '0' <= c <= '9' }

  predicate AllDigits(s: string) {
    forall i :: 0 <= i < |s| ==> IsDigit(s[i])
  }

  function CharsOf(ds: seq<Digit>): (s: string)
    ensures |s| == |ds| && AllDigits(s)
  {
    seq(|ds|, i requires 0 <= i < |ds| => '0' + ds[i] as char)
  }

  function DigitsOf(s: string): (ds: seq<Digit>)
    requires AllDigits(s)
    ensures |ds| == |s|
  {
    seq(|s|, i requires 0 <= i < |s| => (s[i] - '0') as int)
  }

  lemma DigitsOfChars(ds: seq<Digit>)
    ensures DigitsOf(CharsOf(ds)) == ds
  {
  }

  lemma CharsOfDigits(s: string)
    requires AllDigits(s)
    ensures CharsOf(DigitsOf(s)) == s
  {
  }

  function Print(n: Numeral): string {
    (if n.negative then "-" else "") + CharsOf(n.whole) + (if n.frac == [] then "" else "." + CharsOf(n.frac))
  }

  function Parse(s: string): (r: Option<Numeral>)
    ensures r.Some? ==> r.value.whole != []
  {
    var negative := s != "" && s[0] == '-';
    var (whole, frac) := SplitAt(if negative then s[1..] else s, '.');
    if whole == "" || !AllDigits(whole) then None
    else if frac.None? then Some(Numeral(negative, DigitsOf(whole), []))
    else if frac.value == "" || !AllDigits(frac.value) then None
    else Some(Numeral(negative, DigitsOf(whole), DigitsOf(frac.value)))
  }

  lemma ParsePrint(n: Numeral)
    requires n.whole != []
    ensures Parse(Print(n)) == Some(n)
  {
    var w, f := CharsOf(n.whole), CharsOf(n.frac);
    var body := w + (if n.frac == [] then "" else "." + f);
    assert Print(n) == if n.negative then "-" + body else body;
    assert ("-" + body)[1..] == body;
    assert '.' !in w;
    DigitsOfChars(n.whole);
    DigitsOfChars(n.frac);
    hide SplitAt, CharsOf, DigitsOf;
    if n.frac == [] {
      assert body == w;
      SplitAtNone(w, '.');
    } else {
      assert body == w + ['.'] + f;
      SplitAtFirst(w, '.', f);
    }
  }

  /** The accepted strings are exactly the printed numerals. */
  lemma ParseIff(s: string)
    ensures Parse(s).Some? <==> exists n: Numeral :: n.whole != [] && Print(n) == s
  {
    if Parse(s).Some? {
      PrintParse(s);
    }
    forall n: Numeral | n.whole != [] && Print(n) == s
      ensures Parse(s).Some?
    {
      ParsePrint(n);
    }
  }

  lemma PrintParse(s: string)
    requires Parse(s).Some?
    ensures Print(Parse(s).value) == s
  {
    var negative := s != "" && s[0] == '-';
    var body := if negative then s[1..] else s;
    var (whole, frac) := SplitAt(body, '.');
    SplitAtRejoins(body, '.');
    CharsOfDigits(whole);
    if frac.Some? {
      CharsOfDigits(frac.value);
    }
    hide SplitAt, CharsOf, DigitsOf, AllDigits;
    var n := Parse(s).value;
    assert CharsOf(n.whole) == whole;
    assert body == whole + (if n.frac == [] then "" else "." + CharsOf(n.frac));
    assert s == (if negative then "-" else "") + body;
    Reassociate(if negative then "-" else "", whole, if n.frac == [] then "" else "." + CharsOf(n.frac));
  }

  lemma Reassociate(a: string, b: string, c: string)
    ensures a + (b + c) == a + b + c
  {
  }

  // ---- The two conversions ----

  /** What `trim` removes: white space and line terminators of ECMA-262, sections 12.2 and 12.3. */
  predicate IsSpace(c: char) {
    c in "\t\n\r " || c == 11 as char || c == 12 as char || c == 0xA0 as char || c == 0x1680 as char ||
    (0x2000 as char <= c && c <= 0x200A as char) || c == 0x2028 as char || c == 0x2029 as char ||
    c == 0x202F as char || c == 0x205F as char || c == 0x3000 as char || c == 0xFEFF as char
  }

  function Trim(s: string): string {
    if s == "" then ""
    else if IsSpace(s[0]) then Trim(s[1..])
    else if IsSpace(s[|s| - 1]) then Trim(s[..|s| - 1])
    else s
  }

  /** `replace(/^0+(?=\d)/, "")`. */
  function StripToOne(ds: seq<Digit>): seq<Digit> {
    if |ds| > 1 && ds[0] == 0 then StripToOne(ds[1..]) else ds
  }

  /** None when the amount is not a decimal numeral and the source throws. */
  function ToBaseUnits(amount: string, decimals: nat): Option<int> {
    var n :- Parse(Trim(amount));
    var padded := (n.frac + Zeros(decimals))[..decimals];
    var value: int := FromDigits(StripToOne(n.whole + padded));
    Some(if n.negative then -value else value)
  }

  function PadStart(ds: seq<Digit>, length: nat): (r: seq<Digit>)
    ensures |r| == if |ds| < length then length else |ds|
  {
    if |ds| < length then Zeros(length - |ds|) + ds else ds
  }

  function Magnitude(b: int): nat { if b < 0 then -b else b }

  /** The numeral that fromBaseUnits prints. */
  function NumeralOf(b: int, decimals: nat): (n: Numeral)
    ensures n.whole != []
  {
    var abs := PadStart(ToDigits(Magnitude(b)), decimals + 1);
    var cut := |abs| - decimals;
    Numeral(b < 0, abs[..cut], StripTrailing(abs[cut..]))
  }

  function FromBaseUnits(b: int, decimals: nat): string {
    Print(NumeralOf(b, decimals))
  }

  // ---- What an accepted amount converts to ----

  lemma {:induction false} StripToOneValue(ds: seq<Digit>)
    ensures FromDigits(StripToOne(ds)) == FromDigits(ds)
  {
    if |ds| > 1 && ds[0] == 0 {
      StripToOneValue(ds[1..]);
      assert ds == Zeros(1) + ds[1..];
      ValueConcat(Zeros(1), ds[1..]);
      ValueOfZeros(1);
    }
  }

  /** Padding or cutting the fraction to `decimals` digits scales by 10^decimals and truncates. */
  lemma PaddedValue(whole: seq<Digit>, frac: seq<Digit>, decimals: nat)
    ensures FromDigits(whole + (frac + Zeros(decimals))[..decimals]) ==
            FromDigits(whole + frac) * Pow10(decimals) / Pow10(|frac|)
  {
    hide FromDigits, Pow10;
    var v := FromDigits(whole + (frac + Zeros(decimals))[..decimals]);
    var all := FromDigits(whole + frac);
    if |frac| <= decimals {
      var k := decimals - |frac|;
      assert whole + (frac + Zeros(decimals))[..decimals] == (whole + frac) + Zeros(k);
      ValueConcat(whole + frac, Zeros(k));
      ValueOfZeros(k);
      Pow10Add(k, |frac|);
      Regroup(all, Pow10(k), 0, Pow10(|frac|));
      QuotientUnique(all * Pow10(decimals), v, Pow10(|frac|), 0);
    } else {
      var k := |frac| - decimals;
      var kept, cut := frac[..decimals], frac[decimals..];
      assert (frac + Zeros(decimals))[..decimals] == kept;
      assert whole + frac == (whole + kept) + cut;
      ValueConcat(whole + kept, cut);
      ValueBound(cut);
      Pow10Add(k, decimals);
      Regroup(v, Pow10(k), FromDigits(cut), Pow10(decimals));
      ScaledLess(FromDigits(cut), Pow10(k), Pow10(decimals));
      QuotientUnique(all * Pow10(decimals), v, Pow10(|frac|), FromDigits(cut) * Pow10(decimals));
    }
  }

  /** An amount converts exactly when it is a numeral, and then to its exact value times
      10^decimals, truncated toward zero. */
  lemma ToBaseUnitsTruncates(amount: string, decimals: nat)
    ensures ToBaseUnits(amount, decimals).Some? <==> exists n: Numeral :: n.whole != [] && Print(n) == Trim(amount)
    ensures ToBaseUnits(amount, decimals).Some? ==>
              var n := Parse(Trim(amount)).value;
              var magnitude := FromDigits(n.whole + n.frac) * Pow10(decimals) / Pow10(|n.frac|);
              ToBaseUnits(amount, decimals).value == if n.negative then -magnitude else magnitude
  {
    ParseIff(Trim(amount));
    if Parse(Trim(amount)).Some? {
      var n := Parse(Trim(amount)).value;
      PaddedValue(n.whole, n.frac, decimals);
      StripToOneValue(n.whole + (n.frac + Zeros(decimals))[..decimals]);
    }
    hide Parse, Print, Trim, FromDigits, Pow10, StripToOne;
  }

  // ---- White space ----

  predicate AllSpace(s: string) {
    forall i :: 0 <= i < |s| ==> IsSpace(s[i])
  }

  lemma {:induction false} TrimBefore(space: string, s: string)
    requires AllSpace(space)
    ensures Trim(space + s) == Trim(s)
  {
    hide IsSpace;
    if space == "" {
      assert space + s == s;
    } else {
      assert (space + s)[1..] == space[1..] + s;
      TrimBefore(space[1..], s);
    }
  }

  lemma {:induction false} TrimOneAfter(s: string, c: char)
    requires IsSpace(c)
    ensures Trim(s + [c]) == Trim(s)
  {
    hide IsSpace;
    if s == "" {
      assert ([c])[1..] == "" && s + [c] == [c];
    } else if IsSpace(s[0]) {
      assert (s + [c])[1..] == s[1..] + [c];
      TrimOneAfter(s[1..], c);
    } else {
      assert (s + [c])[..|s + [c]| - 1] == s;
    }
  }

  lemma {:induction false} TrimAfter(s: string, space: string)
    requires AllSpace(space)
    ensures Trim(s + space) == Trim(s)
    decreases |space|
  {
    hide IsSpace, Trim;
    if space == "" {
      assert s + space == s;
    } else {
      var init, c := space[..|space| - 1], space[|space| - 1];
      assert s + space == (s + init) + [c];
      TrimOneAfter(s + init, c);
      TrimAfter(s, init);
    }
  }

  /** White space around an amount does not change what it converts to, or whether it does. */
  lemma SpaceAround(before: string, amount: string, after: string, decimals: nat)
    requires AllSpace(before) && AllSpace(after)
    ensures ToBaseUnits(before + amount + after, decimals) == ToBaseUnits(amount, decimals)
  {
    hide IsSpace, Trim, Parse;
    assert before + amount + after == before + (amount + after);
    TrimBefore(before, amount + after);
    TrimAfter(amount, after);
  }

  /** White space inside a numeral does: it makes the conversion throw. */
  lemma SpaceInside(amount: string, decimals: nat, i: nat)
    requires i < |Trim(amount)| && IsSpace(Trim(amount)[i])
    ensures ToBaseUnits(amount, decimals).None?
  {
    var s := Trim(amount);
    if Parse(s).Some? {
      PrintParse(s);
      NoSpacePrinted(Parse(s).value, i);
    }
    hide Trim, Parse, IsSpace;
  }

  lemma NoSpacePrinted(n: Numeral, i: nat)
    requires i < |Print(n)|
    ensures !IsSpace(Print(n)[i])
  {
    assert IsDigit(Print(n)[i]) || Print(n)[i] == '-' || Print(n)[i] == '.';
  }

  // ---- Round trip ----

  lemma TrimPrinted(n: Numeral)
    requires n.whole != []
    ensures Trim(Print(n)) == Print(n)
  {
    var s := Print(n);
    assert s != "" && !IsSpace(s[0]) && !IsSpace(s[|s| - 1]);
  }

  lemma PaddedAbs(b: int, decimals: nat)
    ensures var n := NumeralOf(b, decimals);
            n.whole + (n.frac + Zeros(decimals))[..decimals] == PadStart(ToDigits(Magnitude(b)), decimals + 1)
    ensures FromDigits(PadStart(ToDigits(Magnitude(b)), decimals + 1)) == Magnitude(b)
  {
    hide FromDigits, ToDigits, StripTrailing;
    var ds := ToDigits(Magnitude(b));
    var abs := PadStart(ds, decimals + 1);
    var cut := |abs| - decimals;
    var frac := StripTrailing(abs[cut..]);
    assert (frac + Zeros(decimals))[..decimals] == abs[cut..];
    assert abs == abs[..cut] + abs[cut..];
    ValueOfToDigits(Magnitude(b));
    if |ds| <= decimals {
      ValueConcat(Zeros(decimals + 1 - |ds|), ds);
      ValueOfZeros(decimals + 1 - |ds|);
    }
  }

  /** Base units printed and read back are the same base units, for every integer and every
      number of decimals. */
  lemma RoundTrip(b: int, decimals: nat)
    ensures ToBaseUnits(FromBaseUnits(b, decimals), decimals) == Some(b)
  {
    var n := NumeralOf(b, decimals);
    TrimPrinted(n);
    ParsePrint(n);
    PaddedAbs(b, decimals);
    StripToOneValue(n.whole + (n.frac + Zeros(decimals))[..decimals]);
    hide Parse, Print, Trim, FromDigits, ToDigits, StripToOne, PadStart, Zeros;
  }

  // ---- The printed form is the shortest ----

  lemma PrintLength(n: Numeral)
    ensures |Print(n)| == (if n.negative then 1 else 0) + |n.whole| + (if n.frac == [] then 0 else 1 + |n.frac|)
  {
  }

  /** A minimal digit sequence is no longer than any other for the same number. */
  lemma MinimalShortest(a: seq<Digit>, b: seq<Digit>)
    requires Minimal(a) && b != [] && FromDigits(a) == FromDigits(b)
    ensures |a| <= |b|
  {
    hide FromDigits, Pow10;
    if a[0] != 0 {
      MinimalPositive(a);
      ValueBound(b);
      if |b| < |a| {
        Pow10Monotone(|b|, |a| - 1);
      }
    }
  }

  lemma WholeMinimal(b: int, decimals: nat)
    ensures Minimal(NumeralOf(b, decimals).whole)
  {
    hide StripTrailing;
    var ds := ToDigits(Magnitude(b));
    if |ds| <= decimals {
      assert PadStart(ds, decimals + 1)[..1] == [0];
    }
  }

  /** The numeral n denotes b / 10^decimals exactly. */
  predicate Denotes(n: Numeral, b: int, decimals: nat) {
    && FromDigits(n.whole + n.frac) * Pow10(decimals) == Magnitude(b) * Pow10(|n.frac|)
    && (b < 0 ==> n.negative)
  }

  lemma WholePartsEqual(a: nat, f: nat, b: nat, r: nat, p: nat, q: nat)
    requires f < p && r < q
    requires (a * p + f) * q == (b * q + r) * p
    ensures a == b
  {
    Regroup(a, p, f, q);
    Regroup(b, q, r, p);
    ScaledLess(f, p, q);
    ScaledLess(r, q, p);
    NonNegative(f, q);
    NonNegative(r, p);
    assert p * q == q * p;
    EqualQuotients(a, f * q, b, r * p, p * q);
  }

  /** The whole part of an exact numeral is the whole part that is printed. */
  lemma SameWhole(n: Numeral, b: int, decimals: nat)
    requires n.whole != [] && Denotes(n, b, decimals)
    ensures FromDigits(n.whole) == FromDigits(NumeralOf(b, decimals).whole)
  {
    var m := NumeralOf(b, decimals);
    var abs := PadStart(ToDigits(Magnitude(b)), decimals + 1);
    var rest := abs[|abs| - decimals..];
    PaddedAbs(b, decimals);
    assert abs == m.whole + rest;
    hide FromDigits, Pow10, NumeralOf, PadStart, ToDigits;
    ValueConcat(n.whole, n.frac);
    ValueConcat(m.whole, rest);
    ValueBound(n.frac);
    ValueBound(rest);
    WholePartsEqual(FromDigits(n.whole), FromDigits(n.frac), FromDigits(m.whole), FromDigits(rest),
                    Pow10(|n.frac|), Pow10(decimals));
  }

  lemma TensDivide(n: nat, m: nat, h: nat, k: nat, z: nat, l: nat, b: nat, d: nat)
    requires k > 0 && k == z * l && b == m * z && d == 10 * h * k
    requires n * d == b * l
    ensures m == 10 * (n * h)
  {
    Associate(n, 10 * h, k);
    Associate(m, z, l);
    Cancel(n * (10 * h), m, k);
    Associate(n, 10, h);
  }

  lemma LastDigit(ds: seq<Digit>)
    requires ds != []
    ensures FromDigits(ds) % 10 == ds[|ds| - 1]
  {
  }

  lemma PrintedFracShape(b: int, decimals: nat)
    ensures var m := NumeralOf(b, decimals);
            |m.frac| <= decimals && (m.frac != [] ==> m.frac[|m.frac| - 1] != 0)
  {
    hide StripTrailing, ToDigits;
  }

  lemma CutPadding(whole: seq<Digit>, frac: seq<Digit>, decimals: nat)
    requires |frac| <= decimals
    ensures whole + (frac + Zeros(decimals))[..decimals] == whole + frac + Zeros(decimals - |frac|)
  {
    assert (frac + Zeros(decimals))[..decimals] == frac + Zeros(decimals - |frac|);
  }

  lemma PrintedFraction(b: int, decimals: nat)
    ensures var m := NumeralOf(b, decimals);
            && |m.frac| <= decimals && (m.frac != [] ==> m.frac[|m.frac| - 1] != 0)
            && FromDigits(m.whole + m.frac + Zeros(decimals - |m.frac|)) == Magnitude(b)
  {
    hide *;
    PaddedAbs(b, decimals);
    PrintedFracShape(b, decimals);
    CutPadding(NumeralOf(b, decimals).whole, NumeralOf(b, decimals).frac, decimals);
  }

  /** The fraction of an exact numeral is at least as long as the one that is printed. */
  lemma FractionNotShorter(n: Numeral, b: int, decimals: nat)
    requires n.whole != [] && Denotes(n, b, decimals)
    ensures |NumeralOf(b, decimals).frac| <= |n.frac|
  {
    hide *;
    PrintedFraction(b, decimals);
    if |n.frac| < |NumeralOf(b, decimals).frac| {
      LongerFraction(n, NumeralOf(b, decimals), b, decimals);
    }
  }

  lemma LongerFraction(n: Numeral, m: Numeral, b: int, decimals: nat)
    requires Denotes(n, b, decimals)
    requires |n.frac| < |m.frac| <= decimals
    requires FromDigits(m.whole + m.frac + Zeros(decimals - |m.frac|)) == Magnitude(b)
    ensures m.frac[|m.frac| - 1] == 0
  {
    var z, l := decimals - |m.frac|, |n.frac|;
    var g := |m.frac| - l;
    var significant := m.whole + m.frac;
    hide FromDigits, Pow10;
    LastDigit(significant);
    assert significant[|significant| - 1] == m.frac[|m.frac| - 1];
    ValueConcat(significant, Zeros(z));
    ValueOfZeros(z);
    Pow10Add(g, z + l);
    Pow10Add(z, l);
    Ten(g);
    TensDivide(FromDigits(n.whole + n.frac), FromDigits(significant), Pow10(g - 1), Pow10(z + l), Pow10(z), Pow10(l),
               Magnitude(b), Pow10(decimals));
  }

  lemma Ten(g: nat)
    requires g > 0
    ensures Pow10(g) == 10 * Pow10(g - 1)
  {
  }

  /** No accepted string for the same amount is shorter than the printed one. */
  lemma PrintedIsShortest(amount: string, b: int, decimals: nat)
    requires Parse(Trim(amount)).Some?
    requires Denotes(Parse(Trim(amount)).value, b, decimals)
    ensures |FromBaseUnits(b, decimals)| <= |Trim(amount)|
  {
    var n, m := Parse(Trim(amount)).value, NumeralOf(b, decimals);
    PrintParse(Trim(amount));
    SameWhole(n, b, decimals);
    WholeMinimal(b, decimals);
    MinimalShortest(m.whole, n.whole);
    FractionNotShorter(n, b, decimals);
    PrintLength(n);
    PrintLength(m);
    hide Parse, Print, Trim, FromDigits, Pow10;
  }
}
