/** Object schemas as the legal-context documents use them: unknown keys are dropped, defaults are
    filled in, and the parsed object lists its keys in the order of the schema. */
module Schema {
  import opened Wrappers
  import opened Texts
  import opened Json
  import opened CanonicalJson
  import opened CanonicalForm

  datatype Schema =
    | StringOf(accepts: Text -> bool)
    | NumberOf(counts: Number -> bool)
    | Boolean
    | ArrayOf(element: Schema, min: nat)
    | ObjectOf(shape: seq<Field>)

  datatype Presence = Required | Optional | Default(value: Value)

  datatype Field = Field(key: Text, schema: Schema, presence: Presence)

  /** A property read: undefined when the key is missing. */
  function Lookup(ms: seq<Member>, key: Text): (v: Value)
    ensures !v.Undefined? ==> exists i :: 0 <= i < |ms| && ms[i] == Member(key, v)
  {
    if ms == [] then Undefined
    else if ms[0].key == key then ms[0].value
    else
      var v := Lookup(ms[1..], key);
      assert forall i :: 0 <= i < |ms[1..]| ==> ms[1..][i] == ms[i + 1];
      v
  }

  /** None when the value does not match. */
  function Parse(s: Schema, v: Value): (r: Option<Value>)
    ensures r.Some? ==> !r.value.Undefined?
    decreases s, 2
  {
    match s
    case StringOf(accepts) => if v.Str? && accepts(v.text) then Some(v) else None
    case NumberOf(counts) => if v.Num? && counts(v.number) then Some(v) else None
    case Boolean => if v.Bool? then Some(v) else None
    case ArrayOf(element, min) =>
      if !v.Arr? || |v.items| < min then None
      else
        var items :- ParseItems(element, v.items);
        Some(Arr(items))
    case ObjectOf(shape) =>
      if !v.Obj? then None
      else
        var ms :- ParseFields(s, shape, v.members);
        Some(Obj(ms))
  }

  function ParseItems(element: Schema, items: seq<Value>): (r: Option<seq<Value>>)
    ensures r.Some? ==> |r.value| == |items|
    decreases element, 3, |items|
  {
    if items == [] then Some([])
    else
      var first :- Parse(element, items[0]);
      var rest :- ParseItems(element, items[1..]);
      Some([first] + rest)
  }

  /** One field, given what the object holds under its key; undefined means left out. */
  function ParseField(context: Schema, f: Field, v: Value): Option<Value>
    requires f.schema < context
    decreases context, 0
  {
    if !v.Undefined? then Parse(f.schema, v)
    else match f.presence
      case Required => None
      case Optional => Some(Undefined)
      case Default(d) => Parse(f.schema, d)
  }

  function ParseFields(context: Schema, shape: seq<Field>, ms: seq<Member>): Option<seq<Member>>
    requires forall i :: 0 <= i < |shape| ==> shape[i].schema < context
    decreases context, 1, |shape|
  {
    if shape == [] then Some([])
    else
      var v :- ParseField(context, shape[0], Lookup(ms, shape[0].key));
      var rest :- ParseFields(context, shape[1..], ms);
      Some((if v.Undefined? then [] else [Member(shape[0].key, v)]) + rest)
  }

  predicate DistinctFields(shape: seq<Field>) {
    forall i, j :: 0 <= i < j < |shape| ==> shape[i].key != shape[j].key
  }

  /** Field keys do not repeat, defaults are values; accepted numbers are finite, and 0 and -0 are treated alike. */
  ghost predicate WellFormedSchema(s: Schema) {
    match s
    case NumberOf(counts) =>
      && (forall x :: counts(x) ==> x.Zero? || x.Finite?)
      && (counts(Zero(true)) == counts(Zero(false)))
    case ArrayOf(element, _) => WellFormedSchema(element)
    case ObjectOf(shape) =>
      && DistinctFields(shape)
      && forall i :: 0 <= i < |shape| ==>
           WellFormedSchema(shape[i].schema) && (shape[i].presence.Default? ==> Valid(shape[i].presence.value))
    case _ => true
  }

  // ---- Lookups ----

  lemma {:induction false} LookupAt(ms: seq<Member>, i: nat)
    requires DistinctKeys(ms) && i < |ms|
    ensures Lookup(ms, ms[i].key) == ms[i].value
  {
    if i > 0 {
      assert ms[0].key != ms[i].key;
      LookupAt(ms[1..], i - 1);
    }
  }

  lemma {:induction false} LookupMissing(ms: seq<Member>, key: Text)
    requires forall i :: 0 <= i < |ms| ==> ms[i].key != key
    ensures Lookup(ms, key).Undefined?
  {
  }

  /** Equivalent objects hold equivalent values under every key. */
  lemma LookupEquivalent(a: Value, b: Value, key: Text)
    requires Valid(a) && Valid(b) && a.Obj? && b.Obj? && Equivalent(a, b)
    ensures var x, y := Lookup(a.members, key), Lookup(b.members, key);
            (x.Undefined? && y.Undefined?) || (!x.Undefined? && !y.Undefined? && Equivalent(x, y) && Valid(x) && Valid(y))
  {
    var x, y := Lookup(a.members, key), Lookup(b.members, key);
    if !x.Undefined? {
      LookupPartner(a, b, key);
    } else if !y.Undefined? {
      var j :| 0 <= j < |b.members| && b.members[j] == Member(key, y);
      assert Has(a.members, b.members[j].key);
      var i :| 0 <= i < |a.members| && a.members[i].key == key && !a.members[i].value.Undefined?;
      LookupAt(a.members, i);
    }
  }

  lemma LookupPartner(a: Value, b: Value, key: Text)
    requires Valid(a) && Valid(b) && a.Obj? && b.Obj? && Equivalent(a, b)
    requires !Lookup(a.members, key).Undefined?
    ensures var x, y := Lookup(a.members, key), Lookup(b.members, key);
            !y.Undefined? && Equivalent(x, y) && Valid(x) && Valid(y)
  {
    var x := Lookup(a.members, key);
    var i :| 0 <= i < |a.members| && a.members[i] == Member(key, x);
    var j :| 0 <= j < |b.members| && b.members[j].key == a.members[i].key &&
             Equivalent(a.members[i].value, b.members[j].value);
    DefinedPartner(x, b.members[j].value);
    LookupAt(b.members, j);
  }

  // ---- Parsing does not depend on key order ----

  /** Both fail, or both succeed with the same document. */
  ghost predicate SameOutcome(a: Option<Value>, b: Option<Value>) {
    (a.None? && b.None?) || (a.Some? && b.Some? && Equivalent(a.value, b.value))
  }

  lemma {:induction false} ParseRespects(s: Schema, a: Value, b: Value)
    requires WellFormedSchema(s) && Valid(a) && Valid(b) && Equivalent(a, b)
    ensures SameOutcome(Parse(s, a), Parse(s, b))
    decreases s, 2
  {
    if s.ArrayOf? && a.Arr? {
      ItemsRespect(s.element, a.items, b.items);
    } else if s.ObjectOf? && a.Obj? {
      FieldsRespect(s, s.shape, a, b);
      if Parse(s, a).Some? {
        AlignedEquivalent(ParseFields(s, s.shape, a.members).value, ParseFields(s, s.shape, b.members).value);
      }
    } else if s.NumberOf? && a.Num? && a != b {
      assert a.number.Zero? && b.number.Zero?;
      assert a.number == Zero(a.number.negative) && b.number == Zero(b.number.negative);
    }
  }

  lemma {:induction false} ItemsRespect(element: Schema, xs: seq<Value>, ys: seq<Value>)
    requires WellFormedSchema(element) && |xs| == |ys|
    requires forall i :: 0 <= i < |xs| ==> Valid(xs[i]) && Valid(ys[i]) && Equivalent(xs[i], ys[i])
    ensures var p, q := ParseItems(element, xs), ParseItems(element, ys);
            (p.None? && q.None?) || (p.Some? && q.Some? && forall i :: 0 <= i < |xs| ==> Equivalent(p.value[i], q.value[i]))
    decreases element, 3, |xs|
  {
    hide Valid, Equivalent, WellFormedSchema, Parse;
    if xs != [] {
      ParseRespects(element, xs[0], ys[0]);
      ItemsRespect(element, xs[1..], ys[1..]);
    }
  }

  /** The two lists have the same keys in the same order, and equivalent values. */
  ghost predicate Aligned(xs: seq<Member>, ys: seq<Member>) {
    && |xs| == |ys|
    && forall i :: 0 <= i < |xs| ==>
         xs[i].key == ys[i].key && Equivalent(xs[i].value, ys[i].value) &&
         !xs[i].value.Undefined? && !ys[i].value.Undefined?
  }

  lemma AlignedEquivalent(xs: seq<Member>, ys: seq<Member>)
    requires Aligned(xs, ys)
    ensures Equivalent(Obj(xs), Obj(ys))
  {
    var a, b := Obj(xs), Obj(ys);
    forall j | 0 <= j < |ys| && !ys[j].value.Undefined?
      ensures Has(xs, ys[j].key)
    {
      assert xs[j].key == ys[j].key;
    }
    forall i | 0 <= i < |xs| && !xs[i].value.Undefined?
      ensures exists j :: 0 <= j < |b.members| && b.members[j].key == xs[i].key &&
                          Equivalent(xs[i].value, b.members[j].value)
    {
      assert b.members[i].key == xs[i].key;
    }
  }

  lemma {:induction false} EquivalentReflexive(v: Value)
    requires Valid(v)
    ensures Equivalent(v, v)
  {
    NormalIffEquivalent(v, v);
  }

  lemma {:induction false} FieldRespects(context: Schema, f: Field, a: Value, b: Value)
    requires f.schema < context && WellFormedSchema(f.schema)
    requires Valid(a) && Valid(b) && a.Obj? && b.Obj? && Equivalent(a, b)
    requires f.presence.Default? ==> Valid(f.presence.value)
    ensures var p, q := ParseField(context, f, Lookup(a.members, f.key)), ParseField(context, f, Lookup(b.members, f.key));
            && SameOutcome(p, q)
            && (p.Some? ==> p.value.Undefined? == q.value.Undefined?)
    decreases context, 0
  {
    LookupEquivalent(a, b, f.key);
    var x := Lookup(a.members, f.key);
    if !x.Undefined? {
      ParseRespects(f.schema, x, Lookup(b.members, f.key));
    } else if f.presence.Default? {
      EquivalentReflexive(f.presence.value);
      ParseRespects(f.schema, f.presence.value, f.presence.value);
    }
  }

  lemma AlignedCons(xs: seq<Member>, ys: seq<Member>, key: Text, v: Value, w: Value)
    requires Aligned(xs, ys) && Equivalent(v, w) && !v.Undefined? && !w.Undefined?
    ensures Aligned([Member(key, v)] + xs, [Member(key, w)] + ys)
  {
    hide Equivalent;
  }

  lemma {:induction false} FieldsRespect(context: Schema, shape: seq<Field>, a: Value, b: Value)
    requires forall i :: 0 <= i < |shape| ==>
               shape[i].schema < context && WellFormedSchema(shape[i].schema) &&
               (shape[i].presence.Default? ==> Valid(shape[i].presence.value))
    requires Valid(a) && Valid(b) && a.Obj? && b.Obj? && Equivalent(a, b)
    ensures var p, q := ParseFields(context, shape, a.members), ParseFields(context, shape, b.members);
            (p.None? && q.None?) || (p.Some? && q.Some? && Aligned(p.value, q.value))
    decreases context, 1, |shape|
  {
    hide Valid, Equivalent, ParseField, WellFormedSchema, Lookup, Aligned;
    if shape == [] {
      NothingAligned();
    } else {
      var f := shape[0];
      FieldRespects(context, f, a, b);
      FieldsRespect(context, shape[1..], a, b);
      var p, q := ParseField(context, f, Lookup(a.members, f.key)), ParseField(context, f, Lookup(b.members, f.key));
      var xs, ys := ParseFields(context, shape[1..], a.members), ParseFields(context, shape[1..], b.members);
      if p.Some? && xs.Some? {
        if p.value.Undefined? {
          assert [] + xs.value == xs.value && [] + ys.value == ys.value;
        } else {
          AlignedCons(xs.value, ys.value, f.key, p.value, q.value);
        }
      }
    }
  }

  lemma NothingAligned()
    ensures Aligned([], [])
  {
  }

  // ---- What parsing returns ----

  lemma {:induction false} FieldsKeys(context: Schema, shape: seq<Field>, ms: seq<Member>, i: nat)
    requires forall i :: 0 <= i < |shape| ==> shape[i].schema < context
    requires ParseFields(context, shape, ms).Some? && i < |ParseFields(context, shape, ms).value|
    ensures exists k :: 0 <= k < |shape| && shape[k].key == ParseFields(context, shape, ms).value[i].key
    ensures !ParseFields(context, shape, ms).value[i].value.Undefined?
  {
    hide ParseField, Lookup;
    var rest := ParseFields(context, shape[1..], ms).value;
    var r := ParseFields(context, shape, ms).value;
    var skip := |r| - |rest|;
    if i < skip {
      assert r[i].key == shape[0].key;
    } else {
      FieldsKeys(context, shape[1..], ms, i - skip);
      var k :| 0 <= k < |shape[1..]| && shape[1..][k].key == rest[i - skip].key;
      assert shape[k + 1].key == r[i].key;
    }
  }

  lemma FieldsStep(context: Schema, shape: seq<Field>, ms: seq<Member>)
    requires forall i :: 0 <= i < |shape| ==> shape[i].schema < context
    requires shape != [] && ParseFields(context, shape, ms).Some?
    ensures ParseField(context, shape[0], Lookup(ms, shape[0].key)).Some? && ParseFields(context, shape[1..], ms).Some?
    ensures var v := ParseField(context, shape[0], Lookup(ms, shape[0].key)).value;
            var rest := ParseFields(context, shape[1..], ms).value;
            ParseFields(context, shape, ms).value == if v.Undefined? then rest else [Member(shape[0].key, v)] + rest
  {
    hide ParseField, Lookup;
  }

  lemma FirstKeyGone(context: Schema, shape: seq<Field>, ms: seq<Member>)
    requires forall i :: 0 <= i < |shape| ==> shape[i].schema < context
    requires DistinctFields(shape) && shape != [] && ParseFields(context, shape[1..], ms).Some?
    ensures var rest := ParseFields(context, shape[1..], ms).value;
            forall i :: 0 <= i < |rest| ==> rest[i].key != shape[0].key
  {
    var rest := ParseFields(context, shape[1..], ms).value;
    forall i | 0 <= i < |rest|
      ensures rest[i].key != shape[0].key
    {
      FieldsKeys(context, shape[1..], ms, i);
      var j :| 0 <= j < |shape[1..]| && shape[1..][j].key == rest[i].key;
      assert shape[j + 1].key != shape[0].key;
    }
  }

  lemma LookupCons(m: Member, rest: seq<Member>, key: Text)
    ensures Lookup([m] + rest, key) == if m.key == key then m.value else Lookup(rest, key)
  {
    assert ([m] + rest)[1..] == rest;
  }

  /** The parsed object holds under each key of the schema what that field parsed to. */
  lemma {:induction false} LookupParsed(context: Schema, shape: seq<Field>, ms: seq<Member>, k: nat)
    requires forall i :: 0 <= i < |shape| ==> shape[i].schema < context
    requires DistinctFields(shape) && k < |shape| && ParseFields(context, shape, ms).Some?
    ensures ParseField(context, shape[k], Lookup(ms, shape[k].key)) ==
            Some(Lookup(ParseFields(context, shape, ms).value, shape[k].key))
    decreases |shape|
  {
    FieldsStep(context, shape, ms);
    var v := ParseField(context, shape[0], Lookup(ms, shape[0].key)).value;
    var rest := ParseFields(context, shape[1..], ms).value;
    assert DistinctFields(shape[1..]);
    if !v.Undefined? {
      LookupCons(Member(shape[0].key, v), rest, shape[k].key);
    }
    if k == 0 {
      FirstKeyGone(context, shape, ms);
      LookupMissing(rest, shape[0].key);
    } else {
      LookupParsed(context, shape[1..], ms, k - 1);
      assert shape[k].key != shape[0].key;
    }
    hide ParseField, ParseFields, Lookup;
  }

  lemma {:induction false} FieldsAgree(context: Schema, shape: seq<Field>, a: seq<Member>, b: seq<Member>)
    requires forall i :: 0 <= i < |shape| ==> shape[i].schema < context
    requires forall i :: 0 <= i < |shape| ==>
               ParseField(context, shape[i], Lookup(a, shape[i].key)) == ParseField(context, shape[i], Lookup(b, shape[i].key))
    ensures ParseFields(context, shape, a) == ParseFields(context, shape, b)
    decreases |shape|
  {
    hide ParseField, Lookup;
    if shape != [] {
      FieldsAgree(context, shape[1..], a, b);
    }
  }

  lemma {:induction false} FieldIdempotent(context: Schema, f: Field, v: Value)
    requires f.schema < context && WellFormedSchema(f.schema)
    requires ParseField(context, f, v).Some?
    ensures ParseField(context, f, ParseField(context, f, v).value) == ParseField(context, f, v)
    decreases context, 0
  {
    if !v.Undefined? {
      ParseIdempotent(f.schema, v);
    } else if f.presence.Default? {
      ParseIdempotent(f.schema, f.presence.value);
    }
  }

  /** Parsing a parsed document changes nothing. */
  lemma {:induction false} ParseIdempotent(s: Schema, v: Value)
    requires WellFormedSchema(s) && Parse(s, v).Some?
    ensures Parse(s, Parse(s, v).value) == Parse(s, v)
    decreases s, 2
  {
    if s.ArrayOf? {
      ItemsIdempotent(s.element, v.items);
    } else if s.ObjectOf? {
      var r := ParseFields(s, s.shape, v.members).value;
      forall k | 0 <= k < |s.shape|
        ensures ParseField(s, s.shape[k], Lookup(v.members, s.shape[k].key)) ==
                ParseField(s, s.shape[k], Lookup(r, s.shape[k].key))
      {
        LookupParsed(s, s.shape, v.members, k);
        FieldIdempotent(s, s.shape[k], Lookup(v.members, s.shape[k].key));
      }
      hide ParseField, Lookup;
      FieldsAgree(s, s.shape, v.members, r);
    }
  }

  lemma {:induction false} ItemsIdempotent(element: Schema, items: seq<Value>)
    requires WellFormedSchema(element) && ParseItems(element, items).Some?
    ensures ParseItems(element, ParseItems(element, items).value) == ParseItems(element, items)
    decreases element, 3, |items|
  {
    if items != [] {
      ParseIdempotent(element, items[0]);
      ItemsIdempotent(element, items[1..]);
      var r := ParseItems(element, items).value;
      assert r[1..] == ParseItems(element, items[1..]).value;
    }
  }

  /** A parsed document is a value that prints. */
  lemma {:induction false} ParsePrintable(s: Schema, v: Value)
    requires WellFormedSchema(s) && Valid(v) && Parse(s, v).Some?
    ensures Valid(Parse(s, v).value) && Printable(Parse(s, v).value)
    decreases s, 2
  {
    if s.ArrayOf? {
      ItemsPrintable(s.element, v.items);
    } else if s.ObjectOf? {
      FieldsPrintable(s, s.shape, v);
    }
  }

  lemma {:induction false} ItemsPrintable(element: Schema, items: seq<Value>)
    requires WellFormedSchema(element) && ParseItems(element, items).Some?
    requires forall i :: 0 <= i < |items| ==> Valid(items[i])
    ensures var r := ParseItems(element, items).value;
            forall i :: 0 <= i < |r| ==> Valid(r[i]) && Printable(r[i])
    decreases element, 3, |items|
  {
    if items != [] {
      ParsePrintable(element, items[0]);
      ItemsPrintable(element, items[1..]);
    }
  }

  lemma {:induction false} FieldPrintable(context: Schema, f: Field, v: Value)
    requires f.schema < context && WellFormedSchema(f.schema) && Valid(v)
    requires f.presence.Default? ==> Valid(f.presence.value)
    requires ParseField(context, f, v).Some? && !ParseField(context, f, v).value.Undefined?
    ensures Valid(ParseField(context, f, v).value) && Printable(ParseField(context, f, v).value)
    decreases context, 0
  {
    if !v.Undefined? {
      ParsePrintable(f.schema, v);
    } else if f.presence.Default? {
      ParsePrintable(f.schema, f.presence.value);
    }
  }

  lemma LookupValid(ms: seq<Member>, key: Text)
    requires forall i :: 0 <= i < |ms| ==> Valid(ms[i].value)
    ensures Valid(Lookup(ms, key))
  {
  }

  lemma {:induction false} FieldsPrintable(context: Schema, shape: seq<Field>, v: Value)
    requires forall i :: 0 <= i < |shape| ==>
               shape[i].schema < context && WellFormedSchema(shape[i].schema) &&
               (shape[i].presence.Default? ==> Valid(shape[i].presence.value))
    requires DistinctFields(shape) && Valid(v) && v.Obj? && ParseFields(context, shape, v.members).Some?
    ensures var r := ParseFields(context, shape, v.members).value;
            Valid(Obj(r)) && Printable(Obj(r))
    decreases context, 1, |shape|
  {
    if shape != [] {
      var f := shape[0];
      var w := ParseField(context, f, Lookup(v.members, f.key)).value;
      var rest := ParseFields(context, shape[1..], v.members).value;
      FieldsPrintable(context, shape[1..], v);
      if !w.Undefined? {
        LookupValid(v.members, f.key);
        FieldPrintable(context, f, Lookup(v.members, f.key));
        hide ParseField, Lookup, WellFormedSchema;
        forall i | 0 <= i < |rest|
          ensures rest[i].key != f.key
        {
          FieldsKeys(context, shape[1..], v.members, i);
          var j :| 0 <= j < |shape[1..]| && shape[1..][j].key == rest[i].key;
          assert shape[j + 1].key != f.key;
        }
      }
    }
  }

  // ---- Stored documents ----

  /** A document that went through the schema and then through storage, which may reorder its keys,
      is accepted again and prints to the same canonical text. */
  lemma StoredTextStable(s: Schema, input: Value, stored: Value)
    requires WellFormedSchema(s) && Valid(input) && Parse(s, input).Some?
    requires Valid(stored) && Equivalent(Parse(s, input).value, stored)
    ensures Parse(s, stored).Some?
    ensures Valid(Parse(s, input).value) && Serialize(Parse(s, input).value).Ok?
    ensures Valid(Parse(s, stored).value) && Serialize(Parse(s, stored).value) == Serialize(Parse(s, input).value)
  {
    var document := Parse(s, input).value;
    ParsePrintable(s, input);
    ParseIdempotent(s, input);
    ParseRespects(s, document, stored);
    ParsePrintable(s, stored);
    hide Parse, Equivalent, Valid, WellFormedSchema;
    CanonicalIffEquivalent(document, Parse(s, stored).value);
    PrintableIff(document);
  }

  /** What becomes of a field: a value given is parsed; one left out makes the parse fail if it is required,
      stays out if it is optional, and is the parsed default otherwise. */
  lemma FieldBecomes(s: Schema, v: Value, k: nat)
    requires s.ObjectOf? && DistinctFields(s.shape) && k < |s.shape| && v.Obj? && Parse(s, v).Some?
    ensures Parse(s, v).value.Obj?
    ensures var f := s.shape[k];
            var given, parsed := Lookup(v.members, f.key), Lookup(Parse(s, v).value.members, f.key);
            if !given.Undefined? then Parse(f.schema, given) == Some(parsed)
            else
              && !f.presence.Required?
              && (f.presence.Optional? ==> parsed.Undefined?)
              && (f.presence.Default? ==> Parse(f.schema, f.presence.value) == Some(parsed))
  {
    LookupParsed(s, s.shape, v.members, k);
    hide Lookup, ParseFields;
  }
}
