/** JavaScript strings: sequences of UTF-16 code units, with the code-unit order that `<`
    uses on strings and the code points that a UTF-8 encoder reads from them. */
module Texts {

  type Unit = u: int | 0 <= u < 0x1_0000
  type Text = seq<Unit>
  type CodePoint = c: int | 0 <= c < 0x11_0000

  /** A Dafny string as a JavaScript string; every literal of the program is in the BMP. */
  function T(s: string): (t: Text)
    ensures |t| == |s|
    ensures forall i :: 0 <= i < |s| && s[i] as int < 0x1_0000 ==> t[i] == s[i] as int
  {
    seq(|s|, i requires 0 <= i < |s| => if s[i] as int < 0x1_0000 then s[i] as int else 0xFFFD)
  }

  /** `a < b` on strings. */
  predicate Less(a: Text, b: Text) {
    if b == [] then false
    else if a == [] then true
    else a[0] < b[0] || (a[0] == b[0] && Less(a[1..], b[1..]))
  }

  /** The same order by index: at the first position where they part, b goes on, with a greater unit if
      a goes on too. */
  ghost predicate Before(a: Text, b: Text) {
    exists k :: 0 <= k <= |a| && PartsAt(a, b, k)
  }

  predicate PartsAt(a: Text, b: Text, k: nat)
    requires k <= |a|
  {
    k < |b| && a[..k] == b[..k] && (k == |a| || a[k] < b[k])
  }

  lemma {:induction false} LessIsBefore(a: Text, b: Text)
    ensures Less(a, b) <==> Before(a, b)
  {
    if a != [] && b != [] && a[0] == b[0] {
      LessIsBefore(a[1..], b[1..]);
      if Before(a[1..], b[1..]) {
        var k :| 0 <= k <= |a[1..]| && PartsAt(a[1..], b[1..], k);
        assert a[..k + 1] == [a[0]] + a[1..][..k] && b[..k + 1] == [b[0]] + b[1..][..k];
        assert PartsAt(a, b, k + 1);
      }
      if Before(a, b) {
        var k :| 0 <= k <= |a| && PartsAt(a, b, k);
        assert k > 0;
        assert a[1..][..k - 1] == a[..k][1..] && b[1..][..k - 1] == b[..k][1..];
        assert PartsAt(a[1..], b[1..], k - 1);
      }
    } else {
      if Before(a, b) {
        BeforeHeads(a, b);
      }
      assert Less(a, b) ==> PartsAt(a, b, 0);
    }
  }

  lemma BeforeHeads(a: Text, b: Text)
    requires Before(a, b)
    ensures b != [] && (a != [] ==> a[0] <= b[0])
  {
    var k :| 0 <= k <= |a| && PartsAt(a, b, k);
    assert k > 0 ==> a[..k][0] == b[..k][0];
  }

  lemma {:induction false} LessTotal(a: Text, b: Text)
    ensures Less(a, b) || a == b || Less(b, a)
    ensures !(Less(a, b) && Less(b, a))
    ensures !Less(a, a)
  {
    if a != [] && b != [] {
      LessTotal(a[1..], b[1..]);
      assert a == [a[0]] + a[1..] && b == [b[0]] + b[1..];
    }
    if a != [] {
      LessTotal(a[1..], a[1..]);
    }
  }

  lemma {:induction false} LessTransitive(a: Text, b: Text, c: Text)
    requires Less(a, b) && Less(b, c)
    ensures Less(a, c)
  {
    if a != [] && a[0] == b[0] && b[0] == c[0] {
      LessTransitive(a[1..], b[1..], c[1..]);
    }
  }

  predicate IsHigh(u: Unit) { 0xD800 <= u < 0xDC00 }

  predicate IsLow(u: Unit) { 0xDC00 <= u < 0xE000 }

  predicate IsSurrogate(u: Unit) { IsHigh(u) || IsLow(u) }

  /** `t` starts with a surrogate pair. */
  predicate StartsWithPair(t: Text) {
    |t| >= 2 && IsHigh(t[0]) && IsLow(t[1])
  }

  /** Every surrogate of `t` belongs to a pair. */
  predicate WellFormed(t: Text) {
    if t == [] then true
    else if StartsWithPair(t) then WellFormed(t[2..])
    else !IsSurrogate(t[0]) && WellFormed(t[1..])
  }

  lemma {:induction false} WellFormedConcat(a: Text, b: Text)
    requires WellFormed(a) && WellFormed(b)
    ensures WellFormed(a + b)
  {
    if a == [] {
      assert a + b == b;
    } else if StartsWithPair(a) {
      WellFormedConcat(a[2..], b);
      assert (a + b)[2..] == a[2..] + b;
    } else {
      WellFormedConcat(a[1..], b);
      assert (a + b)[1..] == a[1..] + b;
    }
  }

  lemma {:induction false} WellFormedPlain(t: Text)
    requires forall i :: 0 <= i < |t| ==> !IsSurrogate(t[i])
    ensures WellFormed(t)
  {
    if t != [] {
      assert !IsSurrogate(t[0]);
      WellFormedPlain(t[1..]);
    }
  }

  function PairPoint(high: Unit, low: Unit): (c: CodePoint)
    requires IsHigh(high) && IsLow(low)
    ensures c >= 0x1_0000
    ensures (c - 0x1_0000) / 0x400 == high - 0xD800 && (c - 0x1_0000) % 0x400 == low - 0xDC00
  {
    var h: int, l: int := high, low;
    0x1_0000 + (h - 0xD800) * 0x400 + (l - 0xDC00)
  }

  /** What a UTF-8 encoder is given: code points, with U+FFFD for a lone surrogate. */
  function Encode(t: Text): seq<CodePoint> {
    if t == [] then []
    else if StartsWithPair(t) then
      [PairPoint(t[0], t[1])] + Encode(t[2..])
    else [if IsSurrogate(t[0]) then 0xFFFD else t[0]] + Encode(t[1..])
  }

  function Decode(cs: seq<CodePoint>): Text {
    if cs == [] then []
    else if cs[0] < 0x1_0000 then [cs[0]] + Decode(cs[1..])
    else
      var x := cs[0] - 0x1_0000;
      [0xD800 + x / 0x400, 0xDC00 + x % 0x400] + Decode(cs[1..])
  }

  /** Encoding loses nothing of a well-formed text. */
  lemma {:induction false} DecodeEncode(t: Text)
    requires WellFormed(t)
    ensures Decode(Encode(t)) == t
  {
    if t == [] {
    } else if StartsWithPair(t) {
      DecodeEncode(t[2..]);
      assert Encode(t)[1..] == Encode(t[2..]);
      assert t == [t[0], t[1]] + t[2..];
    } else {
      DecodeEncode(t[1..]);
      assert Encode(t)[1..] == Encode(t[1..]);
      assert t == [t[0]] + t[1..];
    }
  }

  /** Two texts that encode alike are equal, unless one of them holds a lone surrogate. */
  lemma EncodeInjective(a: Text, b: Text)
    requires WellFormed(a) && WellFormed(b)
    requires Encode(a) == Encode(b)
    ensures a == b
  {
    DecodeEncode(a);
    DecodeEncode(b);
  }

  /** Unit by unit: a pair becomes its code point, a lone surrogate U+FFFD, any other unit itself. */
  lemma EncodedUnits(t: Text)
    ensures Encode([]) == []
    ensures t != [] && StartsWithPair(t) ==>
              Encode(t) == [0x1_0000 + (t[0] as int - 0xD800) * 0x400 + (t[1] as int - 0xDC00)] + Encode(t[2..])
    ensures t != [] && !StartsWithPair(t) ==>
              Encode(t) == [if 0xD800 <= t[0] < 0xE000 then 0xFFFD else t[0]] + Encode(t[1..])
  {
  }
}
