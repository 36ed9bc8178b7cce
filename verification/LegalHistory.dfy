/** What every publish history keeps, and when an action binds to the published context. */
module LegalHistory {
  import opened Wrappers
  import opened Texts
  import opened Json
  import opened CanonicalJson
  import opened CanonicalForm
  import opened Schema
  import opened LegalDocument
  import opened LegalContext

  const TREASURY_MANAGEMENT: string := "treasury-management"
  const PAYROLL_EXECUTION: string := "payroll-execution"

  /** The document as the platform reads it back. */
  function Read(p: Platform, row: Row): Option<Value> {
    Parse(ContextSchema(p), row.document)
  }

  ghost function PublishedConsents(): seq<Consent> {
    [Consent(T(TREASURY_MANAGEMENT), true), Consent(T(PAYROLL_EXECUTION), true)]
  }

  /** What every published row satisfies. */
  ghost predicate Sound(p: Platform, row: Row) {
    && Valid(row.document)
    && HashLegalContext(p, row.document) == Some(row.hash)
    && Read(p, row).Some? && Read(p, row).value.Obj? && Valid(Read(p, row).value)
    && SdkHash(p, Read(p, row).value) == Some(row.hash)
    && row.version > 0
    && Described(Read(p, row).value, row.contextId, row.version)
  }

  ghost predicate Described(d: Value, contextId: Text, version: nat)
    requires d.Obj? && version > 0
  {
    && Lookup(d.members, T("contextId")) == Str(contextId)
    && Lookup(d.members, T("version")) == VersionNumber(version)
    && ConsentRequirements(d) == PublishedConsents()
  }

  // ---- What the built document says ----

  /** A field of a parsed object is what the object held under its key, parsed. */
  lemma ParsedField(s: Schema, v: Value, k: nat, x: Value)
    requires s.ObjectOf? && DistinctFields(s.shape) && k < |s.shape|
    requires Parse(s, v).Some? && v.Obj?
    requires Lookup(v.members, s.shape[k].key) == x && !x.Undefined?
    ensures Parse(s, v).value.Obj?
    ensures Parse(s.shape[k].schema, x) == Some(Lookup(Parse(s, v).value.members, s.shape[k].key))
  {
    LookupParsed(s, s.shape, v.members, k);
    hide Lookup, ParseFields;
  }

  lemma LiteralAt(p: Platform, x: BuildInput, k: nat)
    requires x.version > 0 && k < |Keys()|
    ensures Lookup(Literal(p, x).members, T(Keys()[k])) == ValuesBuilt(p, x)[k]
  {
    KeysDistinct();
    hide ValuesBuilt, T, Keys;
    LookupAt(Literal(p, x).members, k);
  }

  /** A field of the built document is its literal value, parsed. */
  lemma BuiltField(p: Platform, x: BuildInput, k: nat, v: Value)
    requires x.version > 0 && k < |Keys()| && BuildLegalContext(p, x).Some?
    requires ValuesBuilt(p, x)[k] == v && !v.Undefined?
    ensures BuildLegalContext(p, x).value.Obj?
    ensures Parse(ContextShape(p)[k].schema, v) == Some(Lookup(BuildLegalContext(p, x).value.members, T(Keys()[k])))
  {
    hide Keys;
    LiteralAt(p, x, k);
    ContextSchemaWellFormed(p);
    hide ValuesBuilt, ContextShape, Lookup, Parse, T;
    ParsedField(ContextSchema(p), Literal(p, x), k, v);
  }

  lemma BuiltContextId(p: Platform, x: BuildInput)
    requires x.version > 0 && BuildLegalContext(p, x).Some?
    ensures BuildLegalContext(p, x).value.Obj?
    ensures Lookup(BuildLegalContext(p, x).value.members, T("contextId")) == Str(x.contextId)
  {
    assert Keys()[CONTEXT_ID] == "contextId";
    assert ContextShape(p)[CONTEXT_ID].schema.StringOf?;
    assert ValuesBuilt(p, x)[CONTEXT_ID] == Str(x.contextId);
    hide Keys, ValuesBuilt, BuildLegalContext, ContextShape, Lookup, T, Literal;
    BuiltField(p, x, CONTEXT_ID, Str(x.contextId));
  }

  lemma BuiltVersion(p: Platform, x: BuildInput)
    requires x.version > 0 && BuildLegalContext(p, x).Some?
    ensures BuildLegalContext(p, x).value.Obj?
    ensures Lookup(BuildLegalContext(p, x).value.members, T("version")) == VersionNumber(x.version)
  {
    assert Keys()[VERSION] == "version";
    assert ContextShape(p)[VERSION].schema.NumberOf?;
    assert ValuesBuilt(p, x)[VERSION] == VersionNumber(x.version);
    hide Keys, ValuesBuilt, BuildLegalContext, ContextShape, Lookup, T, Literal;
    BuiltField(p, x, VERSION, VersionNumber(x.version));
  }

  lemma ParsedConsent(id: string, description: string, scope: seq<string>)
    requires Parse(ConsentSchema(), ConsentOf(id, description, scope)).Some?
    ensures ConsentAt(Parse(ConsentSchema(), ConsentOf(id, description, scope)).value) == Consent(T(id), true)
  {
    var s, v := ConsentSchema(), ConsentOf(id, description, scope);
    ConsentWellFormed();
    ConsentValid(id, description, scope);
    assert s.shape[0].key == T("id") && s.shape[2].key == T("required");
    assert s.shape[0].schema.StringOf? && s.shape[2].schema.Boolean?;
    assert v.members[0] == Member(T("id"), Str(T(id))) && v.members[2] == Member(T("required"), Bool(true));
    hide ConsentOf, ConsentSchema, Lookup, T;
    LookupAt(v.members, 0);
    LookupAt(v.members, 2);
    ParsedField(s, v, 0, Str(T(id)));
    ParsedField(s, v, 2, Bool(true));
  }

  lemma TwoItems(element: Schema, a: Value, b: Value)
    requires ParseItems(element, [a, b]).Some?
    ensures Parse(element, a).Some? && Parse(element, b).Some?
    ensures ParseItems(element, [a, b]).value == [Parse(element, a).value, Parse(element, b).value]
  {
    assert [a, b][1..] == [b] && [b][1..] == [];
    hide Parse;
  }

  lemma ConsentsPlace(p: Platform, x: BuildInput)
    requires x.version > 0
    ensures Keys()[CONSENT_REQUIREMENTS] == "consentRequirements"
    ensures ValuesBuilt(p, x)[CONSENT_REQUIREMENTS] == Arr(ConsentsBuilt())
    ensures ContextShape(p)[CONSENT_REQUIREMENTS].schema == ArrayOf(ConsentSchema(), 1)
  {
  }

  lemma BuiltConsents(p: Platform, x: BuildInput)
    requires x.version > 0 && BuildLegalContext(p, x).Some?
    ensures BuildLegalContext(p, x).value.Obj?
    ensures ConsentRequirements(BuildLegalContext(p, x).value) == PublishedConsents()
  {
    hide Keys, ValuesBuilt, BuildLegalContext, ContextShape, Lookup, ConsentSchema, ConsentsBuilt, ConsentAt, T, Literal, Parse;
    ConsentsPlace(p, x);
    BuiltField(p, x, CONSENT_REQUIREMENTS, Arr(ConsentsBuilt()));
    ConsentsParsed(Lookup(BuildLegalContext(p, x).value.members, T("consentRequirements")));
  }

  lemma ConsentsParsed(v: Value)
    requires Parse(ArrayOf(ConsentSchema(), 1), Arr(ConsentsBuilt())) == Some(v)
    ensures v.Arr? && |v.items| == 2
    ensures ConsentAt(v.items[0]) == PublishedConsents()[0] && ConsentAt(v.items[1]) == PublishedConsents()[1]
  {
    hide ConsentSchema, ConsentOf, ConsentAt, T;
    var a := ConsentOf(TREASURY_MANAGEMENT, "Authorize AI agents to allocate idle treasury between liquidity and yield.",
                       ["treasury", "yield"]);
    var b := ConsentOf(PAYROLL_EXECUTION, "Authorize scheduled payroll settlement to listed employees/contractors.",
                       ["payroll", "offramp"]);
    assert ConsentsBuilt() == [a, b];
    TwoItems(ConsentSchema(), a, b);
    ParsedConsent(TREASURY_MANAGEMENT, "Authorize AI agents to allocate idle treasury between liquidity and yield.",
                  ["treasury", "yield"]);
    ParsedConsent(PAYROLL_EXECUTION, "Authorize scheduled payroll settlement to listed employees/contractors.",
                  ["payroll", "offramp"]);
  }

  // ---- Equivalent documents say the same ----

  lemma ScalarRespects(x: Value, y: Value)
    requires Equivalent(x, y)
    ensures x.Str? || x.Bool? || y.Str? || y.Bool? ==> x == y
    ensures x.Obj? <==> y.Obj?
    ensures x.Arr? <==> y.Arr?
    ensures x.Num? && x.number.Finite? ==> x == y
  {
  }

  /** What the two documents hold under a key, as far as scalars go. */
  lemma FieldScalar(a: Value, b: Value, key: string)
    requires Valid(a) && Valid(b) && a.Obj? && b.Obj? && Equivalent(a, b)
    ensures var x, y := Lookup(a.members, T(key)), Lookup(b.members, T(key));
            && (x.Str? || x.Bool? || y.Str? || y.Bool? || (x.Num? && x.number.Finite?) ==> x == y)
            && (x.Arr? ==> y.Arr? && Equivalent(x, y) && Valid(x) && Valid(y))
  {
    hide Equivalent, Valid, Lookup, T;
    LookupEquivalent(a, b, T(key));
    var x, y := Lookup(a.members, T(key)), Lookup(b.members, T(key));
    if !x.Undefined? {
      ScalarRespects(x, y);
    }
  }

  lemma ConsentRespects(a: Value, b: Value)
    requires Valid(a) && Valid(b) && Equivalent(a, b)
    ensures ConsentAt(a) == ConsentAt(b)
  {
    hide Equivalent, Valid, Lookup, T;
    ScalarRespects(a, b);
    if a.Obj? {
      FieldScalar(a, b, "id");
      FieldScalar(a, b, "required");
    }
  }

  lemma ItemsRespectConsents(x: Value, y: Value)
    requires Valid(x) && Valid(y) && x.Arr? && y.Arr? && Equivalent(x, y)
    ensures |x.items| == |y.items|
    ensures forall i :: 0 <= i < |x.items| ==> ConsentAt(x.items[i]) == ConsentAt(y.items[i])
  {
    hide ConsentAt;
    forall i | 0 <= i < |x.items|
      ensures ConsentAt(x.items[i]) == ConsentAt(y.items[i])
    {
      ItemValid(x, i);
      ItemValid(y, i);
      ConsentRespects(x.items[i], y.items[i]);
    }
  }

  lemma RequirementsRespect(a: Value, b: Value)
    requires Valid(a) && Valid(b) && a.Obj? && b.Obj? && Equivalent(a, b)
    requires ConsentRequirements(a) != []
    ensures ConsentRequirements(b) == ConsentRequirements(a)
  {
    hide Equivalent, Valid, Lookup, T, ConsentAt;
    FieldScalar(a, b, "consentRequirements");
    ItemsRespectConsents(Lookup(a.members, T("consentRequirements")), Lookup(b.members, T("consentRequirements")));
  }

  lemma DescribedRespects(a: Value, b: Value, contextId: Text, version: nat)
    requires Valid(a) && Valid(b) && a.Obj? && Equivalent(a, b) && version > 0
    requires Described(a, contextId, version)
    ensures b.Obj? && Described(b, contextId, version)
  {
    ScalarRespects(a, b);
    hide Equivalent, Valid, Lookup, T, ConsentRequirements;
    FieldScalar(a, b, "contextId");
    FieldScalar(a, b, "version");
    assert |PublishedConsents()| == 2;
    RequirementsRespect(a, b);
  }

  lemma ItemValid(v: Value, i: nat)
    requires Valid(v) && v.Arr? && i < |v.items|
    ensures Valid(v.items[i])
  {
  }

  // ---- Every stored row is sound ----

  /** Whatever order storage gives the keys, the row is read, hashed and described alike. */
  lemma SoundWhenEquivalent(p: Platform, row: Row, document: Value)
    requires Valid(document) && Parse(ContextSchema(p), document) == Some(document) && document.Obj?
    requires Valid(row.document) && Equivalent(document, row.document)
    requires row.version > 0 && Described(document, row.contextId, row.version)
    requires HashLegalContext(p, document) == Some(row.hash)
    ensures Sound(p, row)
  {
    ContextSchemaWellFormed(p);
    hide ContextSchema, Described;
    StoredTextStable(ContextSchema(p), document, row.document);
    ParseRespects(ContextSchema(p), document, row.document);
    DescribedRespects(document, Read(p, row).value, row.contextId, row.version);
    hide Parse, Valid, Equivalent, WellFormedSchema;
    assert Serialize(Read(p, row).value) == Serialize(document);
  }

  lemma BuiltSound(p: Platform, x: BuildInput)
    requires x.version > 0 && BuildLegalContext(p, x).Some?
    ensures var d := BuildLegalContext(p, x).value;
            && Valid(d) && d.Obj? && Parse(ContextSchema(p), d) == Some(d)
            && Described(d, x.contextId, x.version)
  {
    LiteralValid(p, x);
    ContextSchemaWellFormed(p);
    ParsePrintable(ContextSchema(p), Literal(p, x));
    ParseIdempotent(ContextSchema(p), Literal(p, x));
    BuiltContextId(p, x);
    BuiltVersion(p, x);
    BuiltConsents(p, x);
    hide Literal, ContextSchema, Lookup, T, ConsentRequirements, Keys;
  }

  /** Publishing writes a sound row: the stored hash is the platform's hash of the stored document
      and the SDK's hash of the served one. */
  lemma PublishedSound(p: Platform, existing: Option<Row>, x: PublishInput, store: Value -> Value)
    requires KeepsDocuments(store) && Published(p, existing, x, store).Some?
    ensures Sound(p, Published(p, existing, x, store).value)
  {
    hide Parse, Literal, ContextSchema, Described, HashLegalContext, Sound;
    var input := BuildFor(p, existing, x);
    BuiltSound(p, input);
    SoundWhenEquivalent(p, Published(p, existing, x, store).value, BuildLegalContext(p, input).value);
  }

  /** A sound row stays sound when storage reorders its document's keys. */
  lemma ReorderedSound(p: Platform, row: Row, document: Value)
    requires Sound(p, row) && Valid(document) && Equivalent(row.document, document)
    ensures Sound(p, row.(document := document))
  {
    var d := Read(p, row).value;
    var row' := row.(document := document);
    ContextSchemaWellFormed(p);
    ParseRespects(ContextSchema(p), row.document, document);
    var d' := Read(p, row').value;
    ParsePrintable(ContextSchema(p), row.document);
    ParsePrintable(ContextSchema(p), document);
    DescribedRespects(d, d', row.contextId, row.version);
    CanonicalIffEquivalent(d, d');
    hide ContextSchema, Described, Parse, Equivalent, WellFormedSchema;
  }
}
