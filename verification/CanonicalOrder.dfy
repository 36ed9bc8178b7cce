/** How canonical text looks, said without the functions that print it: the order of the keys, the
    escapes of a string and the notation of a number. */
module CanonicalOrder {
  import opened Wrappers
  import opened Decimals
  import opened Texts
  import opened Json
  import opened CanonicalJson
  import opened JsonReader
  import opened CanonicalForm

  // ---- Keys ----

  /** At every depth, an object's keys ascend by their UTF-16 units (section 3.2.3 of RFC 8785). */
  ghost predicate Ascending(v: Value) {
    match v
    case Arr(items) => forall i :: 0 <= i < |items| ==> Ascending(items[i])
    case Obj(ms) =>
      && (forall i, j :: 0 <= i < j < |ms| ==> Before(ms[i].key, ms[j].key))
      && (forall i :: 0 <= i < |ms| ==> Ascending(ms[i].value))
    case _ => true
  }

  lemma EntriesAscend(ms: seq<Member>)
    requires DistinctKeys(ms)
    ensures forall i, j :: 0 <= i < j < |Entries(ms)| ==> Before(Entries(ms)[i].key, Entries(ms)[j].key)
  {
    EntriesSorted(ms);
    hide Entries, Before, Less;
    var es := Entries(ms);
    forall i, j | 0 <= i < j < |es|
      ensures Before(es[i].key, es[j].key)
    {
      LessIsBefore(es[i].key, es[j].key);
    }
  }

  lemma {:induction false} NormalAscends(v: Value)
    requires Valid(v)
    ensures Ascending(Normal(v))
    decreases v
  {
    if v.Arr? {
      forall i | 0 <= i < |v.items|
        ensures Ascending(Normal(v.items[i]))
      {
        NormalAscends(v.items[i]);
      }
    } else if v.Obj? {
      EntriesAscend(v.members);
      hide Before;
      forall i | 0 <= i < |Entries(v.members)|
        ensures Ascending(Normal(Entries(v.members)[i].value))
      {
        NormalAscends(Entries(v.members)[i].value);
      }
    }
  }

  /** What a JSON reader reads from a canonical text lists its keys in ascending order, object by
      object, in the order they stand in the text. */
  lemma CanonicalKeysAscend(v: Value)
    requires Valid(v) && Printable(v)
    ensures Serialize(v).Ok?
    ensures var read := ReadValue(Serialize(v).value);
            read.Some? && Ascending(read.value.0) && read.value.1 == []
  {
    CanonicalReadBack(v);
    NormalAscends(v);
  }

  // ---- Strings ----

  const HEX: Text := T("0123456789abcdef")

  lemma HexDigits(d: int)
    requires 0 <= d < 16
    ensures HexDigit(d) == HEX[d]
  {
  }

  lemma HexParts(u: Unit)
    ensures u / 0x100 / 0x10 == u / 0x1000
    ensures u % 0x100 / 0x10 == u / 0x10 % 0x10
    ensures u % 0x100 % 0x10 == u % 0x10
    ensures u / 0x1000 < 0x10
  {
  }

  lemma UnicodeEscapeOf(u: Unit)
    ensures u / 0x1000 < 0x10
    ensures UnicodeEscape(u) ==
            T("\\u") + [HEX[u / 0x1000], HEX[u / 0x100 % 0x10], HEX[u / 0x10 % 0x10], HEX[u % 0x10]]
  {
    HexParts(u);
    HexDigits(u / 0x1000);
    HexDigits(u / 0x100 % 0x10);
    HexDigits(u / 0x10 % 0x10);
    HexDigits(u % 0x10);
    assert T("\\u") == [BACKSLASH, 0x75];
    hide HexDigit, HEX;
  }

  lemma ShortEscapes()
    ensures QuoteUnit(0x08) == T("\\b") && QuoteUnit(0x09) == T("\\t") && QuoteUnit(0x0A) == T("\\n")
    ensures QuoteUnit(0x0C) == T("\\f") && QuoteUnit(0x0D) == T("\\r")
    ensures QuoteUnit(0x22) == T("\\\"") && QuoteUnit(0x5C) == T("\\\\")
  {
  }

  predicate HasShortEscape(u: Unit) {
    u in {0x08, 0x09, 0x0A, 0x0C, 0x0D, 0x22, 0x5C}
  }

  /** Which units are escaped, and how (section 3.2.2.2 of RFC 8785): in short form where there is one,
      with four lower-case hex digits for other control characters and lone surrogates, else not. */
  lemma EscapeOf(u: Unit)
    ensures !HasShortEscape(u) && (u < 0x20 || 0xD800 <= u < 0xE000) ==>
              && u / 0x1000 < 0x10
              && QuoteUnit(u) ==
                 T("\\u") + [HEX[u / 0x1000], HEX[u / 0x100 % 0x10], HEX[u / 0x10 % 0x10], HEX[u % 0x10]]
    ensures !HasShortEscape(u) && 0x20 <= u && !(0xD800 <= u < 0xE000) ==> QuoteUnit(u) == [u]
  {
    hide UnicodeEscape, T, HEX;
    UnicodeEscapeOf(u);
  }

  /** Every unit of a string is printed by itself, except that a surrogate pair is copied. */
  lemma QuotedUnits(s: Text)
    ensures Quote([]) == T("\"\"")
    ensures s != [] && StartsWithPair(s) ==> QuoteBody(s) == [s[0], s[1]] + QuoteBody(s[2..])
    ensures s != [] && !StartsWithPair(s) ==> QuoteBody(s) == QuoteUnit(s[0]) + QuoteBody(s[1..])
  {
    assert StartsWithPair(s) ==> s[..2] == [s[0], s[1]];
  }

  // ---- Numbers ----

  function Unsigned(x: Number): Text
    requires x.Finite? && ValidNumber(x)
  {
    if x.negative then PrintNumber(x)[1..] else PrintNumber(x)
  }

  lemma UnsignedIsLayout(x: Number)
    requires x.Finite? && ValidNumber(x)
    ensures Unsigned(x) == PrintLayout(LayoutOf(x.digits, x.point))
  {
  }

  lemma DigitsOnly(ds: seq<Digit>)
    ensures EXPONENT !in DigitText(ds) && POINT !in DigitText(ds) && PLUS !in DigitText(ds) && MINUS !in DigitText(ds)
  {
  }

  lemma ExponentMarks(e: int)
    ensures EXPONENT in PrintExponent(e) <==> e != 0
    ensures POINT !in PrintExponent(e)
    ensures e != 0 ==> PrintExponent(e)[0] == EXPONENT
  {
    hide DigitText, ToDigits;
    DigitsOnly(ToDigits(if e > 0 then e else -e));
  }

  function Magnitude(e: int): nat { if e < 0 then -e else e }

  lemma ExponentLength(e: int)
    ensures |PrintExponent(e)| == if e == 0 then 0 else 2 + |ToDigits(Magnitude(e))|
  {
  }

  lemma LayoutMarks(l: Layout)
    requires l.whole != []
    ensures var t := PrintLayout(l);
            && (EXPONENT in t <==> l.exponent != 0)
            && (POINT in t <==> l.frac != [])
            && |t| == |l.whole| + (if l.frac == [] then 0 else 1 + |l.frac|) +
                      (if l.exponent == 0 then 0 else 2 + |ToDigits(Magnitude(l.exponent))|)
            && t[0] == 0x30 + l.whole[0] as int
            && (|l.whole| == 1 && l.frac != [] ==> t[1] == POINT)
            && (|l.whole| == 1 && l.frac == [] && l.exponent != 0 ==> t[1] == EXPONENT)
  {
    DigitsOnly(l.whole);
    DigitsOnly(l.frac);
    ExponentMarks(l.exponent);
    ExponentLength(l.exponent);
    hide PrintExponent, ToDigits;
    var frac := if l.frac == [] then [] else [POINT] + DigitText(l.frac);
    assert PrintLayout(l) == DigitText(l.whole) + frac + PrintExponent(l.exponent);
  }

  lemma LayoutChosen(digits: seq<Digit>, point: int)
    requires digits != [] && digits[0] != 0
    ensures var l := LayoutOf(digits, point);
            && (l.exponent != 0 <==> !(-6 < point <= 21))
            && (l.exponent != 0 ==> l.exponent == point - 1 && |l.whole| == 1 && l.whole[0] != 0)
            && (l.frac != [] <==> if -6 < point <= 21 then point < |digits| else |digits| > 1)
            && (l.exponent == 0 ==> |l.whole| == if point > 0 then point else 1)
            && |l.frac| == (if l.exponent != 0 then |digits| - 1 else if point < |digits| then |digits| - point else 0)
  {
  }

  /** The text has an exponent exactly outside 10^-7 .. 10^21, then with one digit before the point; its
      length leaves no room for a superfluous zero. */
  predicate InNotation(t: Text, digits: seq<Digit>, point: int) {
    && (EXPONENT in t <==> !(-6 < point <= 21))
    && |t| > 0 && (EXPONENT in t ==> |t| > 1 && t[0] != 0x30 && (t[1] == POINT || t[1] == EXPONENT))
    && (POINT in t <==> if -6 < point <= 21 then point < |digits| else |digits| > 1)
    && |t| == (if |digits| <= point <= 21 then point
               else if 0 < point <= 21 then |digits| + 1
               else if -6 < point <= 0 then 2 - point + |digits|
               else |digits| + (if |digits| > 1 then 1 else 0) + 2 + |ToDigits(Magnitude(point - 1))|)
  }

  /** Which notation is printed for 0.digits * 10^point (section 6.1.6.1.20 of ECMA-262). */
  lemma NotationOf(x: Number)
    requires x.Finite? && ValidNumber(x)
    ensures InNotation(Unsigned(x), x.digits, x.point)
  {
    UnsignedIsLayout(x);
    hide PrintNumber, Unsigned, PrintLayout, LayoutOf, ToDigits;
    LayoutChosen(x.digits, x.point);
    LayoutMarks(LayoutOf(x.digits, x.point));
  }

  // ---- The marks of JSON ----

  /** The marks that printer and reader share are those of RFC 8259, section 2. */
  lemma Marks()
    ensures [LBRACE, RBRACE, LBRACKET, RBRACKET, COLON, COMMA, QUOTE, BACKSLASH] == T("{}[]:,\"\\")
    ensures [PLUS, MINUS, POINT, EXPONENT] == T("+-.e")
    ensures Serialize(Null) == Ok(T("null"))
    ensures Serialize(Bool(true)) == Ok(T("true")) && Serialize(Bool(false)) == Ok(T("false"))
    ensures Serialize(Num(Zero(true))) == Ok(T("0")) && Serialize(Num(Zero(false))) == Ok(T("0"))
  {
    assert T("{}[]:,\"\\") == [0x7B, 0x7D, 0x5B, 0x5D, 0x3A, 0x2C, 0x22, 0x5C];
    assert T("+-.e") == [0x2B, 0x2D, 0x2E, 0x65];
    assert T("null") == NULL_TEXT && T("true") == TRUE_TEXT && T("false") == FALSE_TEXT;
    assert T("0") == DigitText([0]);
  }
}
