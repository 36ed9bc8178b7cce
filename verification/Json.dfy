/** JavaScript values as the canonical printer meets them, and when two of them are the same
    JSON document. */
module Json {
  import opened Decimals
  import opened Texts

  /** A JavaScript number. A finite non-zero one is the pair (digits, point) that
      Number::toString of ECMA-262 section 6.1.6.1.20 computes for it, the number
      0.digits * 10^point: the shortest digits that identify the number, so they neither start
      nor end with 0. */
  datatype Number =
    | NaN
    | Infinite(negative: bool)
    | Zero(negative: bool)
    | Finite(negative: bool, digits: seq<Digit>, point: int)

  /** `Opaque` stands for functions, symbols and bigints. */
  datatype Value =
    | Undefined
    | Null
    | Bool(b: bool)
    | Num(number: Number)
    | Str(text: Text)
    | Arr(items: seq<Value>)
    | Obj(members: seq<Member>)
    | Opaque

  /** An own enumerable property; an object lists them in insertion order. */
  datatype Member = Member(key: Text, value: Value)

  predicate ValidNumber(x: Number) {
    x.Finite? ==> x.digits != [] && x.digits[0] != 0 && x.digits[|x.digits| - 1] != 0
  }

  predicate DistinctKeys(ms: seq<Member>) {
    forall i, j :: 0 <= i < j < |ms| ==> ms[i].key != ms[j].key
  }

  /** What every JavaScript value satisfies: an object has one property per key. */
  predicate Valid(v: Value) {
    match v
    case Num(x) => ValidNumber(x)
    case Arr(items) => forall i :: 0 <= i < |items| ==> Valid(items[i])
    case Obj(ms) => DistinctKeys(ms) && forall i :: 0 <= i < |ms| ==> Valid(ms[i].value)
    case _ => true
  }

  /** The values that have a JSON form: everything but NaN, the infinities and, outside object
      members, undefined. */
  predicate Printable(v: Value) {
    match v
    case Undefined => false
    case Opaque => false
    case Num(x) => x.Zero? || x.Finite?
    case Arr(items) => forall i :: 0 <= i < |items| ==> Printable(items[i])
    case Obj(ms) => forall i :: 0 <= i < |ms| ==> ms[i].value.Undefined? || Printable(ms[i].value)
    case _ => true
  }

  predicate Has(ms: seq<Member>, key: Text) {
    exists i :: 0 <= i < |ms| && ms[i].key == key && !ms[i].value.Undefined?
  }

  /** The same JSON document: the order of an object's keys, members that are undefined and the
      sign of zero do not matter. */
  ghost predicate Equivalent(a: Value, b: Value)
    decreases a
  {
    match a
    case Num(x) => b.Num? && (x == b.number || (x.Zero? && b.number.Zero?))
    case Arr(items) =>
      b.Arr? && |items| == |b.items| &&
      forall i :: 0 <= i < |items| ==> Equivalent(items[i], b.items[i])
    case Obj(ms) =>
      && b.Obj?
      && (forall j :: 0 <= j < |b.members| && !b.members[j].value.Undefined? ==> Has(ms, b.members[j].key))
      && (forall i :: 0 <= i < |ms| && !ms[i].value.Undefined? ==>
            exists j :: 0 <= j < |b.members| && b.members[j].key == ms[i].key &&
                        Equivalent(ms[i].value, b.members[j].value))
    case _ => a == b
  }
}
