/** A reader of canonical JSON, following the grammar of RFC 8259, and the proof that it reads
    every printed text back to the sorted normal form of the value that was printed. */
module JsonReader {
  import opened Wrappers
  import opened Sequences
  import opened Decimals
  import opened Texts
  import opened Json
  import opened CanonicalJson

  // ---- Numbers ----

  predicate IsDigit(u: Unit) { 0x30 <= u <= 0x39 }

  predicate AllDigits(t: Text) {
    forall i :: 0 <= i < |t| ==> IsDigit(t[i])
  }

  predicate IsNumberUnit(u: Unit) {
    IsDigit(u) || u == PLUS || u == MINUS || u == POINT || u == EXPONENT
  }

  function TextDigits(t: Text): seq<Digit>
    requires AllDigits(t)
  {
    seq(|t|, i requires 0 <= i < |t| => t[i] as int - 0x30)
  }

  function ReadExponent(t: Text): Option<int> {
    if t == [] then None
    else
      var digits := if t[0] == PLUS || t[0] == MINUS then t[1..] else t;
      if digits == [] || !AllDigits(digits) then None
      else if t[0] == MINUS then Some(-(FromDigits(TextDigits(digits)) as int))
      else Some(FromDigits(TextDigits(digits)))
  }

  /** The number whole.frac * 10^exponent, with its shortest digits. */
  function FromDecimal(negative: bool, whole: seq<Digit>, frac: seq<Digit>, exponent: int): Number {
    var all := whole + frac;
    var significant := StripLeading(all);
    var digits := StripTrailing(significant);
    if digits == [] then Zero(negative)
    else Finite(negative, digits, |whole| + exponent - (|all| - |significant|))
  }

  function ReadMantissa(t: Text): Option<(seq<Digit>, seq<Digit>)> {
    var (whole, frac) := SplitAt(t, POINT);
    if whole == [] || !AllDigits(whole) || (|whole| > 1 && whole[0] == 0x30) then None
    else if frac.None? then Some((TextDigits(whole), []))
    else if frac.value == [] || !AllDigits(frac.value) then None
    else Some((TextDigits(whole), TextDigits(frac.value)))
  }

  function ReadUnsigned(negative: bool, t: Text): Option<Number> {
    var (mantissa, tail) := SplitAt(t, EXPONENT);
    var (whole, frac) :- ReadMantissa(mantissa);
    var exponent :- if tail.Some? then ReadExponent(tail.value) else Some(0);
    Some(FromDecimal(negative, whole, frac, exponent))
  }

  function ReadNumber(t: Text): Option<Number> {
    if t != [] && t[0] == MINUS then ReadUnsigned(true, t[1..]) else ReadUnsigned(false, t)
  }

  function NormalNumber(x: Number): Number {
    if x.Zero? then Zero(false) else x
  }

  lemma TextDigitsOfDigitText(ds: seq<Digit>)
    ensures AllDigits(DigitText(ds)) && TextDigits(DigitText(ds)) == ds
  {
  }

  lemma DigitTextLacks(ds: seq<Digit>, u: Unit)
    requires !IsDigit(u)
    ensures u !in DigitText(ds)
  {
  }

  lemma SignedReadBack(sign: Unit, ds: seq<Digit>)
    requires sign == PLUS || sign == MINUS
    requires ds != []
    ensures ReadExponent([sign] + DigitText(ds)) ==
            Some(if sign == MINUS then -(FromDigits(ds) as int) else FromDigits(ds))
  {
    assert ([sign] + DigitText(ds))[1..] == DigitText(ds);
    TextDigitsOfDigitText(ds);
  }

  lemma DropFirst(a: Unit, b: Unit, t: Text)
    ensures ([a, b] + t)[1..] == [b] + t
  {
  }

  lemma ExponentReadBack(e: int)
    requires e != 0
    ensures ReadExponent(PrintExponent(e)[1..]) == Some(e)
  {
    hide ReadExponent, ToDigits, FromDigits, DigitText;
    var n: nat := if e > 0 then e else -e;
    var sign := if e > 0 then PLUS else MINUS;
    var digits := DigitText(ToDigits(n));
    assert PrintExponent(e) == [EXPONENT, sign] + digits;
    DropFirst(EXPONENT, sign, digits);
    SignedReadBack(sign, ToDigits(n));
    ValueOfToDigits(n);
  }

  function PrintMantissa(whole: seq<Digit>, frac: seq<Digit>): Text {
    DigitText(whole) + (if frac == [] then [] else [POINT] + DigitText(frac))
  }

  lemma MantissaReadBack(whole: seq<Digit>, frac: seq<Digit>)
    requires Minimal(whole)
    ensures ReadMantissa(PrintMantissa(whole, frac)) == Some((whole, frac))
    ensures EXPONENT !in PrintMantissa(whole, frac)
  {
    var w, f := DigitText(whole), DigitText(frac);
    TextDigitsOfDigitText(whole);
    DigitTextLacks(whole, POINT);
    DigitTextLacks(whole, EXPONENT);
    if frac == [] {
      assert PrintMantissa(whole, frac) == w;
      SplitAtNone(w, POINT);
    } else {
      assert PrintMantissa(whole, frac) == w + [POINT] + f;
      TextDigitsOfDigitText(frac);
      DigitTextLacks(frac, EXPONENT);
      SplitAtFirst(w, POINT, f);
    }
  }

  lemma UnscaledReadBack(negative: bool, mantissa: Text, whole: seq<Digit>, frac: seq<Digit>)
    requires EXPONENT !in mantissa && ReadMantissa(mantissa) == Some((whole, frac))
    ensures ReadUnsigned(negative, mantissa) == Some(FromDecimal(negative, whole, frac, 0))
  {
    SplitAtNone(mantissa, EXPONENT);
    hide FromDecimal, ReadMantissa, SplitAt;
  }

  lemma ScaledReadBack(negative: bool, mantissa: Text, tail: Text, whole: seq<Digit>, frac: seq<Digit>, e: int)
    requires EXPONENT !in mantissa && ReadMantissa(mantissa) == Some((whole, frac)) && ReadExponent(tail) == Some(e)
    ensures ReadUnsigned(negative, mantissa + [EXPONENT] + tail) == Some(FromDecimal(negative, whole, frac, e))
  {
    SplitAtFirst(mantissa, EXPONENT, tail);
    hide FromDecimal, ReadMantissa, ReadExponent, SplitAt;
  }

  lemma LayoutParts(l: Layout)
    ensures PrintLayout(l) == PrintMantissa(l.whole, l.frac) + PrintExponent(l.exponent)
    ensures l.exponent == 0 ==> PrintExponent(l.exponent) == []
    ensures l.exponent != 0 ==> PrintExponent(l.exponent) == [EXPONENT] + PrintExponent(l.exponent)[1..]
  {
    hide DigitText, ToDigits;
  }

  lemma LayoutReadBack(negative: bool, l: Layout)
    requires Minimal(l.whole)
    ensures ReadUnsigned(negative, PrintLayout(l)) == Some(FromDecimal(negative, l.whole, l.frac, l.exponent))
  {
    hide FromDecimal, ReadMantissa, ReadExponent, ReadUnsigned, PrintLayout, PrintMantissa, PrintExponent, Minimal;
    var mantissa, exponent := PrintMantissa(l.whole, l.frac), PrintExponent(l.exponent);
    LayoutParts(l);
    MantissaReadBack(l.whole, l.frac);
    if l.exponent == 0 {
      assert mantissa + exponent == mantissa;
      UnscaledReadBack(negative, mantissa, l.whole, l.frac);
    } else {
      ExponentReadBack(l.exponent);
      assert mantissa + exponent == mantissa + [EXPONENT] + exponent[1..];
      ScaledReadBack(negative, mantissa, exponent[1..], l.whole, l.frac, l.exponent);
    }
  }

  /** Zeros around the significant digits only move the point. */
  lemma FromPadded(negative: bool, whole: seq<Digit>, frac: seq<Digit>, exponent: int,
                   lead: nat, digits: seq<Digit>, trail: nat)
    requires digits != [] && digits[0] != 0 && digits[|digits| - 1] != 0
    requires whole + frac == Zeros(lead) + (digits + Zeros(trail))
    ensures FromDecimal(negative, whole, frac, exponent) ==
            Finite(negative, digits, |whole| + exponent - lead)
  {
    hide StripLeading, StripTrailing;
    var significant := digits + Zeros(trail);
    assert significant[0] != 0;
    StripLeadingZeros(lead, significant);
    StripTrailingZeros(digits, trail);
  }

  lemma LayoutDigits(digits: seq<Digit>, point: int)
    requires digits != []
    ensures var l := LayoutOf(digits, point);
            l.whole + l.frac == Zeros(if -6 < point <= 0 then 1 - point else 0) +
                                (digits + Zeros(if |digits| <= point <= 21 then point - |digits| else 0))
  {
    if |digits| <= point <= 21 {
    } else if -6 < point <= 0 {
      assert [0] + Zeros(-point) == Zeros(1 - point);
    } else if 0 < point <= 21 {
      assert digits[..point] + digits[point..] == digits;
    } else {
      assert digits[..1] + digits[1..] == digits;
    }
  }

  lemma LayoutShape(digits: seq<Digit>, point: int)
    requires digits != [] && digits[0] != 0
    ensures var l := LayoutOf(digits, point);
            Minimal(l.whole) && |l.whole| + l.exponent - (if -6 < point <= 0 then 1 - point else 0) == point
  {
  }

  lemma FromLayout(negative: bool, digits: seq<Digit>, point: int)
    requires ValidNumber(Finite(negative, digits, point))
    ensures Minimal(LayoutOf(digits, point).whole)
    ensures var l := LayoutOf(digits, point);
            FromDecimal(negative, l.whole, l.frac, l.exponent) == Finite(negative, digits, point)
  {
    hide FromDecimal, Zeros, LayoutOf;
    var l := LayoutOf(digits, point);
    var lead := if -6 < point <= 0 then 1 - point else 0;
    var trail := if |digits| <= point <= 21 then point - |digits| else 0;
    LayoutDigits(digits, point);
    LayoutShape(digits, point);
    FromPadded(negative, l.whole, l.frac, l.exponent, lead, digits, trail);
  }

  lemma ExponentUnits(e: int)
    ensures forall i :: 0 <= i < |PrintExponent(e)| ==> IsNumberUnit(PrintExponent(e)[i])
  {
  }

  lemma LayoutUnits(l: Layout)
    requires l.whole != []
    ensures PrintLayout(l) != [] && IsDigit(PrintLayout(l)[0])
    ensures forall i :: 0 <= i < |PrintLayout(l)| ==> IsNumberUnit(PrintLayout(l)[i])
  {
    ExponentUnits(l.exponent);
    assert PrintLayout(l) == PrintMantissa(l.whole, l.frac) + PrintExponent(l.exponent);
  }

  lemma ZeroFromDecimal(whole: seq<Digit>)
    requires whole == Zeros(1)
    ensures FromDecimal(false, whole, [], 0) == Zero(false)
  {
    assert whole + [] == Zeros(1) + [];
    StripLeadingZeros(1, []);
  }

  lemma ZeroReadBack(whole: seq<Digit>)
    requires whole == Zeros(1)
    ensures ReadUnsigned(false, DigitText(whole)) == Some(Zero(false))
  {
    var l := Layout(whole, [], 0);
    LayoutReadBack(false, l);
    assert PrintLayout(l) == DigitText(whole);
    ZeroFromDecimal(whole);
  }

  lemma ReadSign(negative: bool, t: Text)
    requires t != [] && IsDigit(t[0])
    ensures ReadNumber((if negative then [MINUS] else []) + t) == ReadUnsigned(negative, t)
  {
    assert ([MINUS] + t)[1..] == t;
    assert [] + t == t;
  }

  lemma NumberReadBack(x: Number)
    requires (x.Zero? || x.Finite?) && ValidNumber(x)
    ensures ReadNumber(PrintNumber(x)) == Some(NormalNumber(x))
    ensures PrintNumber(x) != [] && forall i :: 0 <= i < |PrintNumber(x)| ==> IsNumberUnit(PrintNumber(x)[i])
  {
    if x.Zero? {
      assert [0] == Zeros(1);
      ZeroReadBack([0]);
      ReadSign(false, DigitText([0]));
      assert [] + DigitText([0]) == DigitText([0]);
    } else {
      var l := LayoutOf(x.digits, x.point);
      FromLayout(x.negative, x.digits, x.point);
      LayoutUnits(l);
      LayoutReadBack(x.negative, l);
      ReadSign(x.negative, PrintLayout(l));
    }
  }

  // ---- Strings ----

  function HexValue(u: Unit): Option<int> {
    if IsDigit(u) then Some(u as int - 0x30)
    else if 0x61 <= u <= 0x66 then Some(u as int - 0x61 + 10)
    else None
  }

  function ReadHex(t: Text): (r: Option<Unit>)
    requires |t| == 4
  {
    var a :- HexValue(t[0]);
    var b :- HexValue(t[1]);
    var c :- HexValue(t[2]);
    var d :- HexValue(t[3]);
    Some((a * 0x10 + b) * 0x100 + (c * 0x10 + d))
  }

  /** The unit that `\` followed by `u` stands for, for the one-letter escapes. */
  function ReadEscape(u: Unit): Option<Unit> {
    if u == 0x62 then Some(0x08)
    else if u == 0x74 then Some(0x09)
    else if u == 0x6E then Some(0x0A)
    else if u == 0x66 then Some(0x0C)
    else if u == 0x72 then Some(0x0D)
    else if u == QUOTE || u == BACKSLASH || u == 0x2F then Some(u)
    else None
  }

  /** Reads up to and including the closing quote. */
  function ReadString(t: Text): (r: Option<(Text, Text)>)
    ensures r.Some? ==> |r.value.1| < |t|
  {
    if t == [] || t[0] < 0x20 then None
    else if t[0] == QUOTE then Some(([], t[1..]))
    else if t[0] != BACKSLASH then
      var (s, rest) :- ReadString(t[1..]);
      Some(([t[0]] + s, rest))
    else if |t| >= 6 && t[1] == 0x75 then
      var u :- ReadHex(t[2..6]);
      var (s, rest) :- ReadString(t[6..]);
      Some(([u] + s, rest))
    else if |t| >= 2 then
      var u :- ReadEscape(t[1]);
      var (s, rest) :- ReadString(t[2..]);
      Some(([u] + s, rest))
    else None
  }

  lemma HexDigitReadBack(d: int)
    requires 0 <= d < 16
    ensures HexValue(HexDigit(d)) == Some(d)
  {
  }

  lemma HexReadBack(u: Unit)
    ensures ReadHex(UnicodeEscape(u)[2..6]) == Some(u)
  {
    hide HexDigit, HexValue;
    var high, low := u as int / 0x100, u as int % 0x100;
    HexDigitReadBack(high / 0x10);
    HexDigitReadBack(high % 0x10);
    HexDigitReadBack(low / 0x10);
    HexDigitReadBack(low % 0x10);
    var t := UnicodeEscape(u)[2..6];
    assert t[0] == HexDigit(high / 0x10) && t[1] == HexDigit(high % 0x10);
    assert t[2] == HexDigit(low / 0x10) && t[3] == HexDigit(low % 0x10);
  }

  /** What reading `u` and then `tail` gives. */
  function Prepend(u: Unit, r: Option<(Text, Text)>): Option<(Text, Text)> {
    if r.None? then None else Some(([u] + r.value.0, r.value.1))
  }

  lemma PlainReadBack(u: Unit, tail: Text)
    requires u >= 0x20 && u != QUOTE && u != BACKSLASH
    ensures ReadString([u] + tail) == Prepend(u, ReadString(tail))
  {
    assert ([u] + tail)[1..] == tail;
  }

  lemma UnicodeReadBack(u: Unit, tail: Text)
    ensures ReadString(UnicodeEscape(u) + tail) == Prepend(u, ReadString(tail))
  {
    var t := UnicodeEscape(u) + tail;
    HexReadBack(u);
    assert t[2..6] == UnicodeEscape(u)[2..6] && t[6..] == tail;
  }

  lemma EscapeReadBack(u: Unit, letter: Unit, tail: Text)
    requires ReadEscape(letter) == Some(u)
    ensures ReadString([BACKSLASH, letter] + tail) == Prepend(u, ReadString(tail))
  {
    var t := [BACKSLASH, letter] + tail;
    assert letter != 0x75;
    assert t[2..] == tail;
  }

  /** One quoted unit is read back whatever follows it. */
  lemma UnitReadBack(u: Unit, tail: Text)
    ensures ReadString(QuoteUnit(u) + tail) == Prepend(u, ReadString(tail))
  {
    if QuoteUnit(u) == [u] {
      PlainReadBack(u, tail);
    } else if QuoteUnit(u) == UnicodeEscape(u) {
      UnicodeReadBack(u, tail);
    } else {
      EscapeReadBack(u, QuoteUnit(u)[1], tail);
      assert QuoteUnit(u) == [BACKSLASH, QuoteUnit(u)[1]];
    }
  }

  lemma QuoteBodyPair(s: Text, x: Text)
    requires StartsWithPair(s)
    ensures QuoteBody(s) + x == [s[0]] + ([s[1]] + (QuoteBody(s[2..]) + x))
  {
  }

  lemma QuoteBodyUnit(s: Text, x: Text)
    requires s != [] && !StartsWithPair(s)
    ensures QuoteBody(s) + x == QuoteUnit(s[0]) + (QuoteBody(s[1..]) + x)
  {
  }

  lemma ReadClosingQuote(rest: Text)
    ensures ReadString(QuoteBody([]) + ([QUOTE] + rest)) == Some(([], rest))
  {
    assert QuoteBody([]) + ([QUOTE] + rest) == [QUOTE] + rest;
  }

  lemma {:induction false} StringReadBack(s: Text, rest: Text)
    ensures ReadString(QuoteBody(s) + ([QUOTE] + rest)) == Some((s, rest))
  {
    var close := [QUOTE] + rest;
    if s == [] {
      ReadClosingQuote(rest);
    } else if StartsWithPair(s) {
      var tail := QuoteBody(s[2..]) + close;
      StringReadBack(s[2..], rest);
      QuoteBodyPair(s, close);
      PlainReadBack(s[0], [s[1]] + tail);
      PlainReadBack(s[1], tail);
      assert [s[0]] + ([s[1]] + s[2..]) == s;
    } else {
      StringReadBack(s[1..], rest);
      QuoteBodyUnit(s, close);
      UnitReadBack(s[0], QuoteBody(s[1..]) + close);
      assert [s[0]] + s[1..] == s;
    }
  }

  // ---- Values ----

  function NumberSpan(t: Text): (k: nat)
    ensures k <= |t|
    ensures k < |t| ==> !IsNumberUnit(t[k])
  {
    if t == [] || !IsNumberUnit(t[0]) then 0 else 1 + NumberSpan(t[1..])
  }

  /** Reads one value and returns it with the unread rest. */
  function ReadValue(t: Text): (r: Option<(Value, Text)>)
    ensures r.Some? ==> |r.value.1| < |t|
    decreases |t|, 0
  {
    if NULL_TEXT <= t then Some((Null, t[4..]))
    else if TRUE_TEXT <= t then Some((Bool(true), t[4..]))
    else if FALSE_TEXT <= t then Some((Bool(false), t[5..]))
    else if t == [] then None
    else if t[0] == QUOTE then
      var (s, rest) :- ReadString(t[1..]);
      Some((Str(s), rest))
    else if t[0] == LBRACKET then
      if |t| >= 2 && t[1] == RBRACKET then Some((Arr([]), t[2..]))
      else
        var (items, rest) :- ReadItems(t[1..]);
        Some((Arr(items), rest))
    else if t[0] == LBRACE then
      if |t| >= 2 && t[1] == RBRACE then Some((Obj([]), t[2..]))
      else
        var (ms, rest) :- ReadMembers(t[1..]);
        Some((Obj(ms), rest))
    else
      var k := NumberSpan(t);
      var x :- ReadNumber(t[..k]);
      if k == 0 then None else Some((Num(x), t[k..]))
  }

  /** Reads values separated by commas, up to and including the closing bracket. */
  function ReadItems(t: Text): (r: Option<(seq<Value>, Text)>)
    ensures r.Some? ==> |r.value.1| < |t|
    decreases |t|, 1
  {
    var (v, after) :- ReadValue(t);
    if after == [] then None
    else if after[0] == RBRACKET then Some(([v], after[1..]))
    else if after[0] == COMMA then
      var (vs, rest) :- ReadItems(after[1..]);
      Some(([v] + vs, rest))
    else None
  }

  function ReadMembers(t: Text): (r: Option<(seq<Member>, Text)>)
    ensures r.Some? ==> |r.value.1| < |t|
    decreases |t|, 1
  {
    if t == [] || t[0] != QUOTE then None
    else
      var (key, colon) :- ReadString(t[1..]);
      if colon == [] || colon[0] != COLON then None
      else
        var (v, after) :- ReadValue(colon[1..]);
        if after == [] then None
        else if after[0] == RBRACE then Some(([Member(key, v)], after[1..]))
        else if after[0] == COMMA then
          var (ms, rest) :- ReadMembers(after[1..]);
          Some(([Member(key, v)] + ms, rest))
        else None
  }

  /** Undefined members dropped, members sorted by key, -0 turned into 0. */
  function Normal(v: Value): Value
    decreases v
  {
    match v
    case Num(x) => Num(NormalNumber(x))
    case Arr(items) => Arr(seq(|items|, i requires 0 <= i < |items| => Normal(items[i])))
    case Obj(ms) =>
      var es := Entries(ms);
      Obj(seq(|es|, i requires 0 <= i < |es| => Member(es[i].key, Normal(es[i].value))))
    case _ => v
  }

  function NormalItems(items: seq<Value>): seq<Value> {
    seq(|items|, i requires 0 <= i < |items| => Normal(items[i]))
  }

  function NormalMembers(ms: seq<Member>): seq<Member> {
    seq(|ms|, i requires 0 <= i < |ms| => Member(ms[i].key, Normal(ms[i].value)))
  }

  /** What may follow a value inside a document. */
  predicate Delimited(rest: Text) {
    rest != [] ==> !IsNumberUnit(rest[0])
  }

  lemma {:induction false} NumberSpanOf(a: Text, rest: Text)
    requires forall i :: 0 <= i < |a| ==> IsNumberUnit(a[i])
    requires Delimited(rest)
    ensures NumberSpan(a + rest) == |a|
  {
    if a == [] {
      assert a + rest == rest;
    } else {
      assert (a + rest)[1..] == a[1..] + rest;
      NumberSpanOf(a[1..], rest);
    }
  }

  lemma NotKeyword(t: Text)
    requires t != [] && t[0] != 0x6E && t[0] != 0x74 && t[0] != 0x66
    ensures !(NULL_TEXT <= t) && !(TRUE_TEXT <= t) && !(FALSE_TEXT <= t)
  {
  }

  lemma ReadNumberValue(x: Number, rest: Text)
    requires (x.Zero? || x.Finite?) && ValidNumber(x)
    requires Delimited(rest)
    ensures ReadValue(PrintNumber(x) + rest) == Some((Num(NormalNumber(x)), rest))
  {
    hide NumberSpan, ReadNumber, PrintNumber, ReadString, ReadItems, ReadMembers;
    var a := PrintNumber(x);
    var t := a + rest;
    NumberReadBack(x);
    NumberSpanOf(a, rest);
    assert IsNumberUnit(t[0]);
    NotKeyword(t);
    assert t[..|a|] == a && t[|a|..] == rest;
  }

  /** The first unit of a printed value is none of the closing brackets. */
  lemma FirstUnit(v: Value)
    requires Valid(v) && Serialize(v).Ok?
    ensures Serialize(v).value != []
    ensures Serialize(v).value[0] != RBRACKET && Serialize(v).value[0] != RBRACE
  {
    if v.Num? {
      NumberReadBack(v.number);
      assert IsNumberUnit(PrintNumber(v.number)[0]);
    }
  }

  lemma ReadArray(body: Text)
    requires body != [] && body[0] != RBRACKET && ReadItems(body).Some?
    ensures ReadValue([LBRACKET] + body) == Some((Arr(ReadItems(body).value.0), ReadItems(body).value.1))
  {
    var t := [LBRACKET] + body;
    NotKeyword(t);
    assert t[1..] == body && t[1] == body[0];
  }

  lemma ReadObject(body: Text)
    requires body != [] && body[0] != RBRACE && ReadMembers(body).Some?
    ensures ReadValue([LBRACE] + body) == Some((Obj(ReadMembers(body).value.0), ReadMembers(body).value.1))
  {
    var t := [LBRACE] + body;
    NotKeyword(t);
    assert t[1..] == body && t[1] == body[0];
  }

  lemma ReadEmpty(rest: Text)
    ensures ReadValue([LBRACKET, RBRACKET] + rest) == Some((Arr([]), rest))
    ensures ReadValue([LBRACE, RBRACE] + rest) == Some((Obj([]), rest))
  {
    NotKeyword([LBRACKET, RBRACKET] + rest);
    NotKeyword([LBRACE, RBRACE] + rest);
    assert ([LBRACKET, RBRACKET] + rest)[2..] == rest;
    assert ([LBRACE, RBRACE] + rest)[2..] == rest;
  }

  lemma ReadText(s: Text, rest: Text)
    ensures ReadValue(Quote(s) + rest) == Some((Str(s), rest))
  {
    StringReadBack(s, rest);
    NotKeyword(Quote(s) + rest);
    assert (Quote(s) + rest)[1..] == QuoteBody(s) + ([QUOTE] + rest);
  }

  lemma ReadKeyword(v: Value, rest: Text)
    requires v.Null? || v.Bool?
    ensures ReadValue(Serialize(v).value + rest) == Some((v, rest))
  {
    var a := Serialize(v).value;
    var t := a + rest;
    assert a <= t && t[|a|..] == rest;
    assert t[0] == a[0];
  }

  lemma ReadLastItem(text: Text, v: Value, rest: Text)
    requires ReadValue(text + ([RBRACKET] + rest)) == Some((v, [RBRACKET] + rest))
    ensures ReadItems(text + ([RBRACKET] + rest)) == Some(([v], rest))
  {
    assert ([RBRACKET] + rest)[1..] == rest;
  }

  lemma ReadItem(text: Text, v: Value, tail: Text)
    requires ReadValue(text + ([COMMA] + tail)) == Some((v, [COMMA] + tail))
    requires ReadItems(tail).Some?
    ensures ReadItems(text + ([COMMA] + tail)) ==
            Some(([v] + ReadItems(tail).value.0, ReadItems(tail).value.1))
  {
    assert ([COMMA] + tail)[1..] == tail;
  }

  lemma ReadKey(key: Text, t: Text)
    ensures var all := Quote(key) + [COLON] + t;
            all[0] == QUOTE && ReadString(all[1..]) == Some((key, [COLON] + t)) && ([COLON] + t)[1..] == t
  {
    StringReadBack(key, [COLON] + t);
    assert (Quote(key) + [COLON] + t)[1..] == QuoteBody(key) + ([QUOTE] + ([COLON] + t));
  }

  lemma ReadLastMember(key: Text, text: Text, v: Value, rest: Text)
    requires ReadValue(text + ([RBRACE] + rest)) == Some((v, [RBRACE] + rest))
    ensures ReadMembers(Quote(key) + [COLON] + (text + ([RBRACE] + rest))) == Some(([Member(key, v)], rest))
  {
    ReadKey(key, text + ([RBRACE] + rest));
    assert ([RBRACE] + rest)[1..] == rest;
  }

  lemma ReadMember(key: Text, text: Text, v: Value, tail: Text)
    requires ReadValue(text + ([COMMA] + tail)) == Some((v, [COMMA] + tail))
    requires ReadMembers(tail).Some?
    ensures ReadMembers(Quote(key) + [COLON] + (text + ([COMMA] + tail))) ==
            Some(([Member(key, v)] + ReadMembers(tail).value.0, ReadMembers(tail).value.1))
  {
    ReadKey(key, text + ([COMMA] + tail));
    assert ([COMMA] + tail)[1..] == tail;
  }

  lemma {:induction false} ItemsLength(context: Value, items: seq<Value>)
    requires forall i :: 0 <= i < |items| ==> items[i] < context && Valid(items[i])
    requires SerializeItems(context, items).Ok?
    ensures |SerializeItems(context, items).value| == |items|
  {
    if items != [] {
      ItemsLength(context, items[1..]);
    }
  }

  lemma {:induction false} MembersLength(context: Value, ms: seq<Member>)
    requires forall i :: 0 <= i < |ms| ==> ms[i].value < context && Valid(ms[i].value)
    requires SerializeMembers(context, ms).Ok?
    ensures |SerializeMembers(context, ms).value| == |ms|
  {
    if ms != [] {
      MembersLength(context, ms[1..]);
    }
  }

  lemma ItemsStart(context: Value, items: seq<Value>, tail: Text)
    requires forall i :: 0 <= i < |items| ==> items[i] < context && Valid(items[i])
    requires items != [] && SerializeItems(context, items).Ok?
    ensures var body := Join(SerializeItems(context, items).value) + tail;
            body != [] && body[0] != RBRACKET
  {
    FirstUnit(items[0]);
    ItemsLength(context, items);
  }

  lemma MembersStart(context: Value, ms: seq<Member>, tail: Text)
    requires forall i :: 0 <= i < |ms| ==> ms[i].value < context && Valid(ms[i].value)
    requires ms != [] && SerializeMembers(context, ms).Ok?
    ensures var body := Join(SerializeMembers(context, ms).value) + tail;
            body != [] && body[0] == QUOTE
  {
    MembersLength(context, ms);
  }

  /** Reading a printed value gives its normal form and leaves the rest untouched. */
  lemma {:induction false} ReadBack(v: Value, rest: Text)
    requires Valid(v) && Serialize(v).Ok? && Delimited(rest)
    ensures ReadValue(Serialize(v).value + rest) == Some((Normal(v), rest))
    decreases v
  {
    match v
    case Num(x) => ReadNumberValue(x, rest);
    case Str(s) => ReadText(s, rest);
    case Arr(items) => ReadBackArray(v, rest);
    case Obj(ms) => ReadBackObject(v, rest);
    case Null => ReadKeyword(v, rest);
    case Bool(_) => ReadKeyword(v, rest);
    case Undefined =>
    case Opaque =>
  }

  lemma {:induction false} ReadBackArray(v: Value, rest: Text)
    requires v.Arr? && Valid(v) && Serialize(v).Ok?
    ensures ReadValue(Serialize(v).value + rest) == Some((Normal(v), rest))
    decreases v, 0
  {
    var body := Join(SerializeItems(v, v.items).value) + ([RBRACKET] + rest);
    assert Serialize(v).value + rest == [LBRACKET] + body;
    if v.items == [] {
      ReadEmpty(rest);
      assert [LBRACKET] + body == [LBRACKET, RBRACKET] + rest;
      assert Normal(v) == Arr([]);
    } else {
      ReadBackItems(v, v.items, rest);
      ItemsStart(v, v.items, [RBRACKET] + rest);
      ReadArray(body);
    }
  }

  lemma {:induction false} ReadBackObject(v: Value, rest: Text)
    requires v.Obj? && Valid(v) && Serialize(v).Ok?
    ensures ReadValue(Serialize(v).value + rest) == Some((Normal(v), rest))
    decreases v, 0
  {
    hide Entries, ReadValue, ReadMembers;
    var es := Entries(v.members);
    var close := [RBRACE] + rest;
    var body := Join(SerializeMembers(v, es).value) + close;
    assert Serialize(v).value + rest == [LBRACE] + body;
    assert Normal(v) == Obj(NormalMembers(es));
    if es == [] {
      ReadEmpty(rest);
      assert [LBRACE] + body == [LBRACE, RBRACE] + rest;
    } else {
      ReadBackMembers(v, es, rest);
      MembersStart(v, es, close);
      ReadObject(body);
    }
  }

  lemma JoinCons(first: Text, others: seq<Text>, x: Text)
    ensures Join([first] + others) + x ==
            if others == [] then first + x else first + ([COMMA] + (Join(others) + x))
  {
    assert ([first] + others)[1..] == others;
  }

  lemma NormalItemsCons(items: seq<Value>)
    requires items != []
    ensures NormalItems(items) == [Normal(items[0])] + NormalItems(items[1..])
  {
  }

  lemma NormalMembersCons(ms: seq<Member>)
    requires ms != []
    ensures NormalMembers(ms) == [Member(ms[0].key, Normal(ms[0].value))] + NormalMembers(ms[1..])
  {
  }

  lemma {:induction false} ReadBackItems(context: Value, items: seq<Value>, rest: Text)
    requires forall i :: 0 <= i < |items| ==> items[i] < context && Valid(items[i])
    requires items != [] && SerializeItems(context, items).Ok?
    ensures ReadItems(Join(SerializeItems(context, items).value) + ([RBRACKET] + rest)) ==
            Some((NormalItems(items), rest))
    decreases context, 0, |items|
  {
    var close := [RBRACKET] + rest;
    var text := Serialize(items[0]).value;
    var others := SerializeItems(context, items[1..]).value;
    ItemsLength(context, items[1..]);
    assert SerializeItems(context, items).value == [text] + others;
    JoinCons(text, others, close);
    NormalItemsCons(items);
    var all := Join([text] + others) + close;
    if others == [] {
      ReadBack(items[0], close);
      ReadLastItem(text, Normal(items[0]), rest);
      assert items[1..] == [] && NormalItems(items) == [Normal(items[0])];
      assert ReadItems(all) == Some((NormalItems(items), rest));
    } else {
      var tail := Join(others) + close;
      ReadBack(items[0], [COMMA] + tail);
      ReadBackItems(context, items[1..], rest);
      ReadItem(text, Normal(items[0]), tail);
      assert ReadItems(all) == Some((NormalItems(items), rest));
    }
  }

  lemma {:induction false} ReadBackMembers(context: Value, ms: seq<Member>, rest: Text)
    requires forall i :: 0 <= i < |ms| ==> ms[i].value < context && Valid(ms[i].value)
    requires ms != [] && SerializeMembers(context, ms).Ok?
    ensures ReadMembers(Join(SerializeMembers(context, ms).value) + ([RBRACE] + rest)) ==
            Some((NormalMembers(ms), rest))
    decreases context, 0, |ms|
  {
    var close := [RBRACE] + rest;
    var key, v := ms[0].key, ms[0].value;
    var text := Serialize(v).value;
    var others := SerializeMembers(context, ms[1..]).value;
    MembersLength(context, ms[1..]);
    assert SerializeMembers(context, ms).value == [Quote(key) + [COLON] + text] + others;
    NormalMembersCons(ms);
    MemberText(key, text, others, close);
    if others == [] {
      ReadBack(v, close);
      ReadLastMember(key, text, Normal(v), rest);
      assert ms[1..] == [] && NormalMembers(ms) == [Member(key, Normal(v))];
    } else {
      ReadBack(v, [COMMA] + (Join(others) + close));
      ReadBackMembers(context, ms[1..], rest);
      ReadMember(key, text, Normal(v), Join(others) + close);
    }
  }

  lemma MemberText(key: Text, text: Text, others: seq<Text>, x: Text)
    ensures Join([Quote(key) + [COLON] + text] + others) + x ==
            Quote(key) + [COLON] + (text + (if others == [] then x else [COMMA] + (Join(others) + x)))
  {
    JoinCons(Quote(key) + [COLON] + text, others, x);
  }
}
