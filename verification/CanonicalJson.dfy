/** The canonical JSON printer that the platform and the SDK both carry. */
module CanonicalJson {
  import opened Wrappers
  import opened Decimals
  import opened Texts
  import opened Json

  datatype PrintError = NonFiniteNumber | UnprintableType

  const QUOTE: Unit := 0x22
  const BACKSLASH: Unit := 0x5C
  const COMMA: Unit := 0x2C
  const COLON: Unit := 0x3A
  const LBRACKET: Unit := 0x5B
  const RBRACKET: Unit := 0x5D
  const LBRACE: Unit := 0x7B
  const RBRACE: Unit := 0x7D
  const PLUS: Unit := 0x2B
  const MINUS: Unit := 0x2D
  const POINT: Unit := 0x2E
  const EXPONENT: Unit := 0x65
  const NULL_TEXT: Text := [0x6E, 0x75, 0x6C, 0x6C]
  const TRUE_TEXT: Text := [0x74, 0x72, 0x75, 0x65]
  const FALSE_TEXT: Text := [0x66, 0x61, 0x6C, 0x73, 0x65]

  // ---- Numbers: Number::toString of ECMA-262, section 6.1.6.1.20 ----

  function DigitText(ds: seq<Digit>): (t: Text)
    ensures |t| == |ds|
    ensures forall i :: 0 <= i < |ds| ==> t[i] == 0x30 + ds[i] as int
  {
    seq(|ds|, i requires 0 <= i < |ds| => 0x30 + ds[i] as int)
  }

  /** A decimal numeral: digits before and after the point, and an exponent that is left out
      when it is 0. */
  datatype Layout = Layout(whole: seq<Digit>, frac: seq<Digit>, exponent: int)

  /** The layout that the size of the number selects. */
  function LayoutOf(digits: seq<Digit>, point: int): (l: Layout)
    requires digits != []
    ensures l.whole != []
  {
    if |digits| <= point <= 21 then Layout(digits + Zeros(point - |digits|), [], 0)
    else if 0 < point <= 21 then Layout(digits[..point], digits[point..], 0)
    else if -6 < point <= 0 then Layout([0], Zeros(-point) + digits, 0)
    else Layout(digits[..1], digits[1..], point - 1)
  }

  function PrintExponent(e: int): Text {
    if e == 0 then []
    else if e > 0 then [EXPONENT, PLUS] + DigitText(ToDigits(e))
    else [EXPONENT, MINUS] + DigitText(ToDigits(-e))
  }

  function PrintLayout(l: Layout): Text {
    DigitText(l.whole)
    + (if l.frac == [] then [] else [POINT] + DigitText(l.frac))
    + PrintExponent(l.exponent)
  }

  function PrintNumber(x: Number): Text
    requires x.Zero? || x.Finite?
    requires ValidNumber(x)
  {
    if x.Zero? then DigitText([0])
    else (if x.negative then [MINUS] else []) + PrintLayout(LayoutOf(x.digits, x.point))
  }

  // ---- Strings: QuoteJSONString of ECMA-262, section 25.5.2.3 ----

  function HexDigit(d: int): Unit
    requires 0 <= d < 16
  {
    if d < 10 then 0x30 + d else 0x61 + (d - 10)
  }

  function UnicodeEscape(u: Unit): Text {
    var high, low := u / 0x100, u % 0x100;
    [BACKSLASH, 0x75, HexDigit(high / 0x10), HexDigit(high % 0x10), HexDigit(low / 0x10), HexDigit(low % 0x10)]
  }

  function QuoteUnit(u: Unit): Text {
    if u == 0x08 then [BACKSLASH, 0x62]
    else if u == 0x09 then [BACKSLASH, 0x74]
    else if u == 0x0A then [BACKSLASH, 0x6E]
    else if u == 0x0C then [BACKSLASH, 0x66]
    else if u == 0x0D then [BACKSLASH, 0x72]
    else if u == QUOTE || u == BACKSLASH then [BACKSLASH, u]
    else if u < 0x20 || IsSurrogate(u) then UnicodeEscape(u)
    else [u]
  }

  /** A surrogate pair is one code point and is copied; a lone surrogate is escaped. */
  function QuoteBody(s: Text): Text {
    if s == [] then []
    else if StartsWithPair(s) then s[..2] + QuoteBody(s[2..])
    else QuoteUnit(s[0]) + QuoteBody(s[1..])
  }

  function Quote(s: Text): Text {
    [QUOTE] + QuoteBody(s) + [QUOTE]
  }

  // ---- Objects: undefined members dropped, the others sorted by key ----

  function Defined(ms: seq<Member>): (r: seq<Member>)
    ensures forall m :: m in r <==> m in ms && !m.value.Undefined?
  {
    if ms == [] then []
    else
      assert ms == [ms[0]] + ms[1..];
      if ms[0].value.Undefined? then Defined(ms[1..]) else [ms[0]] + Defined(ms[1..])
  }

  function Insert(m: Member, ms: seq<Member>): (r: seq<Member>)
    ensures multiset(r) == multiset([m]) + multiset(ms)
  {
    if ms == [] || Less(m.key, ms[0].key) then [m] + ms
    else
      assert ms == [ms[0]] + ms[1..];
      [ms[0]] + Insert(m, ms[1..])
  }

  /** A stable sort by key. */
  function SortMembers(ms: seq<Member>): (r: seq<Member>)
    ensures multiset(r) == multiset(ms)
  {
    if ms == [] then []
    else
      assert ms == ms[..|ms| - 1] + [ms[|ms| - 1]];
      Insert(ms[|ms| - 1], SortMembers(ms[..|ms| - 1]))
  }

  function Entries(ms: seq<Member>): (r: seq<Member>)
    ensures forall i :: 0 <= i < |r| ==> r[i] in ms && !r[i].value.Undefined?
    ensures forall m :: m in ms && !m.value.Undefined? ==> m in r
  {
    var r := SortMembers(Defined(ms));
    assert forall m :: m in r <==> m in multiset(r);
    assert forall m :: m in Defined(ms) <==> m in multiset(Defined(ms));
    r
  }

  // ---- The printer ----

  function Join(parts: seq<Text>): Text {
    if parts == [] then []
    else if |parts| == 1 then parts[0]
    else parts[0] + [COMMA] + Join(parts[1..])
  }

  function Serialize(v: Value): Result<Text, PrintError>
    requires Valid(v)
    decreases v
  {
    match v
    case Null => Ok(NULL_TEXT)
    case Num(x) => if x.Zero? || x.Finite? then Ok(PrintNumber(x)) else Err(NonFiniteNumber)
    case Bool(b) => Ok(if b then TRUE_TEXT else FALSE_TEXT)
    case Str(s) => Ok(Quote(s))
    case Arr(items) =>
      var parts :- SerializeItems(v, items);
      Ok([LBRACKET] + Join(parts) + [RBRACKET])
    case Obj(ms) =>
      var parts :- SerializeMembers(v, Entries(ms));
      Ok([LBRACE] + Join(parts) + [RBRACE])
    case Undefined => Err(UnprintableType)
    case Opaque => Err(UnprintableType)
  }

  function SerializeItems(context: Value, items: seq<Value>): (r: Result<seq<Text>, PrintError>)
    requires forall i :: 0 <= i < |items| ==> items[i] < context && Valid(items[i])
    decreases context, |items|
  {
    if items == [] then Ok([])
    else
      var first :- Serialize(items[0]);
      var rest :- SerializeItems(context, items[1..]);
      Ok([first] + rest)
  }

  function SerializeMembers(context: Value, ms: seq<Member>): (r: Result<seq<Text>, PrintError>)
    requires forall i :: 0 <= i < |ms| ==> ms[i].value < context && Valid(ms[i].value)
    decreases context, |ms|
  {
    if ms == [] then Ok([])
    else
      var first :- Serialize(ms[0].value);
      var rest :- SerializeMembers(context, ms[1..]);
      Ok([Quote(ms[0].key) + [COLON] + first] + rest)
  }
}
