/** What a publish request puts into the document that is stored and served, field by field. */
module LegalRequest {
  import opened Wrappers
  import opened Texts
  import opened Json
  import opened Decimals
  import opened CanonicalJson
  import opened Schema
  import opened LegalDocument
  import opened LegalContext
  import opened LegalHistory
  import opened LegalPublishing

  // ---- Reading along a path ----

  datatype Step = Key(name: string) | Index(i: nat)

  function At(v: Value, path: seq<Step>): Value
    decreases path
  {
    if path == [] then v
    else
      match path[0]
      case Key(name) => if v.Obj? then At(Lookup(v.members, T(name)), path[1..]) else Undefined
      case Index(i) => if v.Arr? && i < |v.items| then At(v.items[i], path[1..]) else Undefined
  }

  predicate Scalar(v: Value) { v.Str? || v.Bool? || (v.Num? && v.number.Finite?) }

  lemma {:induction false} NothingBelow(path: seq<Step>)
    ensures At(Undefined, path) == Undefined
  {
  }

  lemma {:induction false} AtRespects(a: Value, b: Value, path: seq<Step>)
    requires Valid(a) && Valid(b) && Equivalent(a, b)
    ensures var x, y := At(a, path), At(b, path);
            (x.Undefined? && y.Undefined?) || (Valid(x) && Valid(y) && Equivalent(x, y))
    decreases path
  {
    if path != [] {
      ScalarRespects(a, b);
      if path[0].Key? && a.Obj? {
        ObjectRespects(a, b, path);
      } else if path[0].Index? && a.Arr? && path[0].i < |a.items| {
        AtRespects(a.items[path[0].i], b.items[path[0].i], path[1..]);
      }
    }
  }

  lemma {:induction false} ObjectRespects(a: Value, b: Value, path: seq<Step>)
    requires Valid(a) && Valid(b) && Equivalent(a, b) && a.Obj? && b.Obj? && path != [] && path[0].Key?
    ensures var x, y := At(a, path), At(b, path);
            (x.Undefined? && y.Undefined?) || (Valid(x) && Valid(y) && Equivalent(x, y))
    decreases path, 0
  {
    hide Equivalent, Valid, Lookup, T;
    LookupEquivalent(a, b, T(path[0].name));
    var x, y := Lookup(a.members, T(path[0].name)), Lookup(b.members, T(path[0].name));
    if x.Undefined? {
      NothingBelow(path[1..]);
    } else {
      AtRespects(x, y, path[1..]);
    }
  }

  /** Equivalent documents hold the same scalar at a path. */
  lemma ScalarAt(a: Value, b: Value, path: seq<Step>)
    requires Valid(a) && Valid(b) && Equivalent(a, b) && Scalar(At(a, path))
    ensures At(b, path) == At(a, path)
  {
    AtRespects(a, b, path);
    hide Equivalent, Valid, At;
    ScalarRespects(At(a, path), At(b, path));
  }

  // ---- Parsing keeps what the schema names ----

  /** The path goes along keys and items of the schema. */
  ghost predicate Follows(s: Schema, path: seq<Step>)
    decreases path, 0
  {
    path != [] ==>
      match path[0]
      case Key(name) => s.ObjectOf? && exists j :: FollowsField(s.shape, j, name, path[1..])
      case Index(_) => s.ArrayOf? && Follows(s.element, path[1..])
  }

  ghost predicate FollowsField(shape: seq<Field>, j: int, name: string, rest: seq<Step>)
    decreases rest, 1
  {
    0 <= j < |shape| && shape[j].key == T(name) && Follows(shape[j].schema, rest)
  }

  lemma {:induction false} ItemParsed(element: Schema, items: seq<Value>, i: nat)
    requires i < |items| && ParseItems(element, items).Some?
    ensures Parse(element, items[i]) == Some(ParseItems(element, items).value[i])
  {
    hide Parse;
    if i > 0 {
      ItemParsed(element, items[1..], i - 1);
    }
  }

  lemma {:induction false} ParseKeeps(s: Schema, v: Value, path: seq<Step>)
    requires WellFormedSchema(s) && Parse(s, v).Some? && Follows(s, path) && Scalar(At(v, path))
    ensures At(Parse(s, v).value, path) == At(v, path)
    decreases path
  {
    if path != [] {
      if path[0].Key? {
        KeyKept(s, v, path);
      } else {
        ItemParsed(s.element, v.items, path[0].i);
        ParseKeeps(s.element, v.items[path[0].i], path[1..]);
      }
    }
  }

  lemma {:induction false} KeyKept(s: Schema, v: Value, path: seq<Step>)
    requires WellFormedSchema(s) && Parse(s, v).Some? && Follows(s, path) && Scalar(At(v, path))
    requires path != [] && path[0].Key?
    ensures At(Parse(s, v).value, path) == At(v, path)
    decreases path, 0
  {
    var j :| FollowsField(s.shape, j, path[0].name, path[1..]);
    var x := Lookup(v.members, s.shape[j].key);
    hide Lookup, T;
    NothingBelow(path[1..]);
    assert DistinctFields(s.shape) && WellFormedSchema(s.shape[j].schema);
    ParsedField(s, v, j, x);
    hide Parse, WellFormedSchema;
    ParseKeeps(s.shape[j].schema, x, path[1..]);
  }

  // ---- The built document ----

  /** A scalar below the k-th key of a built document is the one that was put in. */
  lemma BuiltAt(p: Platform, x: BuildInput, k: nat, path: seq<Step>)
    requires x.version > 0 && k < |Keys()| && BuildLegalContext(p, x).Some?
    requires |ContextShape(p)| == |Keys()| && Follows(ContextShape(p)[k].schema, path)
    requires Scalar(At(ValuesBuilt(p, x)[k], path))
    ensures At(BuildLegalContext(p, x).value, [Key(Keys()[k])] + path) == At(ValuesBuilt(p, x)[k], path)
  {
    hide Keys, ContextShape, ValuesBuilt, Lookup, T, Parse;
    var v := Literal(p, x);
    var whole := [Key(Keys()[k])] + path;
    assert whole[0] == Key(Keys()[k]) && whole[1..] == path;
    LiteralAt(p, x, k);
    ContextSchemaWellFormed(p);
    hide Literal, WellFormedSchema;
    assert FollowsField(ContextShape(p), k, Keys()[k], path);
    ParseKeeps(ContextSchema(p), v, whole);
  }

  lemma FollowsKey(s: Schema, j: nat, name: string)
    requires s.ObjectOf? && j < |s.shape| && s.shape[j].key == T(name)
    ensures Follows(s, [Key(name)])
  {
    assert [Key(name)][1..] == [];
    assert FollowsField(s.shape, j, name, []);
  }

  lemma FollowsItem(s: Schema, i: nat, rest: seq<Step>)
    requires s.ArrayOf? && Follows(s.element, rest)
    ensures Follows(s, [Index(i)] + rest)
  {
    assert ([Index(i)] + rest)[1..] == rest;
  }

  lemma AtKey(v: Value, m: nat, name: string)
    requires v.Obj? && DistinctKeys(v.members) && m < |v.members| && v.members[m].key == T(name)
    ensures At(v, [Key(name)]) == v.members[m].value
  {
    LookupAt(v.members, m);
    hide Lookup, T;
    assert [Key(name)][1..] == [];
  }

  lemma AtItem(v: Value, i: nat, rest: seq<Step>)
    requires v.Arr? && i < |v.items|
    ensures At(v, [Index(i)] + rest) == At(v.items[i], rest)
  {
    assert ([Index(i)] + rest)[1..] == rest;
  }

  /** The k-th key of the document, by name, with its schema and what is put under it. */
  ghost predicate Holds(p: Platform, x: BuildInput, k: nat, name: string, s: Schema, v: Value) {
    && x.version > 0 && k < 18 && BuildLegalContext(p, x).Some?
    && Keys()[k] == name && ContextShape(p)[k].schema == s && ValuesBuilt(p, x)[k] == v
  }

  lemma BuiltPath(p: Platform, x: BuildInput, k: nat, name: string, s: Schema, v: Value, path: seq<Step>)
    requires Holds(p, x, k, name, s, v) && Follows(s, path) && Scalar(At(v, path))
    ensures BuildLegalContext(p, x).Some?
    ensures At(BuildLegalContext(p, x).value, [Key(name)] + path) == At(v, path)
  {
    BuiltAt(p, x, k, path);
  }

  /** A scalar at the top. */
  lemma BuiltScalar(p: Platform, x: BuildInput, k: nat, name: string, s: Schema, v: Value)
    requires Holds(p, x, k, name, s, v) && Scalar(v)
    ensures BuildLegalContext(p, x).Some?
    ensures At(BuildLegalContext(p, x).value, [Key(name)]) == v
  {
    hide Holds, BuildLegalContext;
    BuiltPath(p, x, k, name, s, v, []);
    assert [Key(name)] + [] == [Key(name)];
  }

  /** A scalar in an object. */
  lemma BuiltMember(p: Platform, x: BuildInput, k: nat, name: string, s: Schema, v: Value, j: nat, m: nat, sub: string)
    requires Holds(p, x, k, name, s, v)
    requires s.ObjectOf? && j < |s.shape| && s.shape[j].key == T(sub)
    requires v.Obj? && Valid(v) && m < |v.members| && v.members[m].key == T(sub) && Scalar(v.members[m].value)
    ensures BuildLegalContext(p, x).Some?
    ensures At(BuildLegalContext(p, x).value, [Key(name), Key(sub)]) == v.members[m].value
  {
    AtKey(v, m, sub);
    FollowsKey(s, j, sub);
    hide Holds, BuildLegalContext, At, Follows, T;
    BuiltPath(p, x, k, name, s, v, [Key(sub)]);
    assert [Key(name)] + [Key(sub)] == [Key(name), Key(sub)];
  }

  /** A scalar in an array. */
  lemma BuiltItem(p: Platform, x: BuildInput, k: nat, name: string, s: Schema, v: Value, i: nat)
    requires Holds(p, x, k, name, s, v) && s.ArrayOf? && v.Arr? && i < |v.items| && Scalar(v.items[i])
    ensures BuildLegalContext(p, x).Some?
    ensures At(BuildLegalContext(p, x).value, [Key(name), Index(i)]) == v.items[i]
  {
    AtItem(v, i, []);
    FollowsItem(s, i, []);
    assert [Index(i)] + [] == [Index(i)] && At(v.items[i], []) == v.items[i];
    hide Holds, BuildLegalContext, At, Follows;
    BuiltPath(p, x, k, name, s, v, [Index(i)]);
    assert [Key(name)] + [Index(i)] == [Key(name), Index(i)];
  }

  /** A scalar in an object in an array. */
  lemma BuiltItemMember(p: Platform, x: BuildInput, k: nat, name: string, s: Schema, v: Value, i: nat, j: nat, m: nat, sub: string)
    requires Holds(p, x, k, name, s, v) && s.ArrayOf? && v.Arr? && i < |v.items|
    requires s.element.ObjectOf? && j < |s.element.shape| && s.element.shape[j].key == T(sub)
    requires var o := v.items[i];
             o.Obj? && Valid(o) && m < |o.members| && o.members[m].key == T(sub) && Scalar(o.members[m].value)
    ensures BuildLegalContext(p, x).Some?
    ensures At(BuildLegalContext(p, x).value, [Key(name), Index(i), Key(sub)]) == v.items[i].members[m].value
  {
    AtKey(v.items[i], m, sub);
    FollowsKey(s.element, j, sub);
    hide Holds, BuildLegalContext, At, Follows, T;
    AtItem(v, i, [Key(sub)]);
    FollowsItem(s, i, [Key(sub)]);
    assert [Index(i)] + [Key(sub)] == [Index(i), Key(sub)];
    BuiltPath(p, x, k, name, s, v, [Index(i), Key(sub)]);
    assert [Key(name)] + [Index(i), Key(sub)] == [Key(name), Index(i), Key(sub)];
  }

  // ---- The table ----

  datatype Fact = Fact(path: seq<Step>, value: Value)

  ghost predicate Says(d: Value, facts: seq<Fact>) {
    forall i :: 0 <= i < |facts| ==> At(d, facts[i].path) == facts[i].value
  }

  lemma SaysBoth(d: Value, a: seq<Fact>, b: seq<Fact>)
    requires Says(d, a) && Says(d, b)
    ensures Says(d, a + b)
  {
    hide At;
  }

  function Top(name: string, text: Text): Fact { Fact([Key(name)], Str(text)) }

  function Below(name: string, sub: string, text: Text): Fact { Fact([Key(name), Key(sub)], Str(text)) }

  /** What a request says about the terms and their publication; `b` is the base URL without its slash. */
  function TermsFacts(p: Platform, x: PublishInput, b: Text): seq<Fact> {
    [Top("terms", x.termsUrl), Top("termsFormat", T("markdown")),
     Top("atrHash", T("0x") + p.lower(p.sha256(Encode(x.termsText)))), Fact([Key("acceptanceRequired")], Bool(true)),
     Top("api", b + T("/api/v1/legal")), Top("specVersion", T("0.2.0")), Top("tenantDomain", x.tenantDomain),
     Top("termsEffectiveDate", x.today), Top("publishedAt", x.now)]
  }

  /** About the parties and how they settle a dispute. */
  function PartyFacts(p: Platform, x: PublishInput): seq<Fact> {
    [Below("provider", "legalName", x.providerLegalName), Below("provider", "jurisdiction", x.providerJurisdiction),
     Below("provider", "contactEmail", x.providerContactEmail),
     Below("contact", "legal", x.providerContactEmail), Below("contact", "technical", x.providerContactEmail),
     Below("disputeResolution", "contact", x.providerContactEmail)]
  }

  function DisputeFacts(p: Platform, x: PublishInput): seq<Fact>
    requires x.jurisdictions != []
  {
    [Below("disputeResolution", "method",
           T("Contextio arbitration ") + [0x2014] + T(" see `disputeChannels` for the per-jurisdiction venue (") +
           JoinWith(x.jurisdictions, T("/")) + T(")")),
     Below("disputeResolution", "jurisdiction", JoinWith(x.jurisdictions, T(", "))),
     Below("disputeResolution", "source",
           T("https://") + x.tenantDomain + T("/legal/disputes/") + p.lower(x.jurisdictions[0]))]
  }

  function InChannel(i: nat, sub: string, text: Text): Fact {
    Fact([Key("disputeChannels"), Index(i), Key(sub)], Str(text))
  }

  /** The i-th dispute channel. */
  function ChannelFacts(x: PublishInput, i: nat, place: string, country: string, law: string, language: string): seq<Fact> {
    [InChannel(i, "type", T("arbitration")),
     InChannel(i, "provider", T("Contextio arbitration ") + [0x2014] + T(" ") + T(place)),
     InChannel(i, "venue", T("https://") + x.tenantDomain + T("/legal/disputes/") + T(country)),
     InChannel(i, "governingLaw", T(law)), InChannel(i, "language", T(language))]
  }

  function JurisdictionFacts(x: PublishInput): seq<Fact> {
    seq(|x.jurisdictions|, i requires 0 <= i < |x.jurisdictions| =>
      Fact([Key("jurisdictions"), Index(i)], Str(x.jurisdictions[i])))
  }

  function ConsentFacts(i: nat, id: string, description: string): seq<Fact> {
    [Fact([Key("consentRequirements"), Index(i), Key("id")], Str(T(id))),
     Fact([Key("consentRequirements"), Index(i), Key("description")], Str(T(description))),
     Fact([Key("consentRequirements"), Index(i), Key("required")], Bool(true))]
  }

  // ---- The built document says it ----

  lemma KeyNames()
    ensures var k := Keys();
            && k[0] == "terms" && k[1] == "termsFormat" && k[2] == "atrHash" && k[3] == "acceptanceRequired"
            && k[4] == "disputeResolution" && k[5] == "contact" && k[6] == "api" && k[7] == "specVersion"
            && k[8] == "contextId" && k[9] == "version" && k[10] == "tenantDomain" && k[11] == "provider"
            && k[12] == "termsEffectiveDate" && k[13] == "jurisdictions" && k[14] == "consentRequirements"
            && k[15] == "disputeChannels" && k[16] == "settlement" && k[17] == "publishedAt"
  {
  }

  lemma ShapeLength(p: Platform)
    ensures |ContextShape(p)| == 18
  {
  }

  lemma BuildForFields(p: Platform, existing: Option<Row>, x: PublishInput)
    ensures var y := BuildFor(p, existing, x);
            && y.version > 0
            && y.tenantDomain == x.tenantDomain && y.providerLegalName == x.providerLegalName
            && y.providerJurisdiction == x.providerJurisdiction && y.providerContactEmail == x.providerContactEmail
            && y.termsUrl == x.termsUrl && y.termsSha256 == p.sha256(Encode(x.termsText))
            && y.termsEffectiveDate == x.today && y.jurisdictions == x.jurisdictions
            && y.apiUrl == ApiUrl(x.apiBaseUrl) && y.now == x.now
            && y.contextId == (if existing.Some? then existing.value.contextId else x.newContextId)
  {
  }

  /** Where the scalars of the document stand. */
  lemma Places(p: Platform, y: BuildInput, k: nat, v: Value)
    requires y.version > 0 && BuildLegalContext(p, y).Some? && k < 18 && ValuesBuilt(p, y)[k] == v
    ensures |ContextShape(p)| == 18 && Holds(p, y, k, Keys()[k], ContextShape(p)[k].schema, v)
  {
    ShapeLength(p);
    hide Keys, ContextShape, ValuesBuilt;
  }

  lemma ScalarSaid(p: Platform, y: BuildInput, k: nat, v: Value)
    requires y.version > 0 && BuildLegalContext(p, y).Some? && k < 18 && ValuesBuilt(p, y)[k] == v && Scalar(v)
    ensures At(BuildLegalContext(p, y).value, [Key(Keys()[k])]) == v
  {
    hide *;
    Places(p, y, k, v);
    BuiltScalar(p, y, k, Keys()[k], ContextShape(p)[k].schema, v);
  }

  lemma IsScalar(t: Text)
    ensures Scalar(Str(t)) && Scalar(Bool(true))
  {
  }

  lemma SpecVersion()
    ensures SPEC_VERSION == "0.2.0"
  {
  }

  lemma TermsBuilt(p: Platform, y: BuildInput)
    requires y.version > 0 && BuildLegalContext(p, y).Some?
    ensures var d := BuildLegalContext(p, y).value;
            && At(d, [Key("terms")]) == Str(y.termsUrl) && At(d, [Key("termsFormat")]) == Str(T("markdown"))
            && At(d, [Key("atrHash")]) == Str(T("0x") + p.lower(y.termsSha256))
            && At(d, [Key("acceptanceRequired")]) == Bool(true) && At(d, [Key("api")]) == Str(y.apiUrl)
            && At(d, [Key("specVersion")]) == Str(T("0.2.0")) && At(d, [Key("tenantDomain")]) == Str(y.tenantDomain)
            && At(d, [Key("termsEffectiveDate")]) == Str(y.termsEffectiveDate) && At(d, [Key("publishedAt")]) == Str(y.now)
            && At(d, [Key("contextId")]) == Str(y.contextId)
  {
    hide *;
    KeyNames();
    FirstValues(p, y);
    LastValues(p, y);
    SpecVersion();
    IsScalar(y.termsUrl);
    IsScalar(T("markdown"));
    IsScalar(T("0x") + p.lower(y.termsSha256));
    IsScalar(y.apiUrl);
    IsScalar(T("0.2.0"));
    IsScalar(y.contextId);
    IsScalar(y.tenantDomain);
    IsScalar(y.termsEffectiveDate);
    IsScalar(y.now);
    ScalarSaid(p, y, 0, Str(y.termsUrl));
    ScalarSaid(p, y, 1, Str(T("markdown")));
    ScalarSaid(p, y, 2, Str(T("0x") + p.lower(y.termsSha256)));
    ScalarSaid(p, y, 3, Bool(true));
    ScalarSaid(p, y, 6, Str(y.apiUrl));
    ScalarSaid(p, y, 7, Str(T(SPEC_VERSION)));
    ScalarSaid(p, y, 8, Str(y.contextId));
    ScalarSaid(p, y, 10, Str(y.tenantDomain));
    ScalarSaid(p, y, 12, Str(y.termsEffectiveDate));
    ScalarSaid(p, y, 17, Str(y.now));
  }

  lemma TermsSaid(p: Platform, existing: Option<Row>, x: PublishInput, b: Text)
    requires BuildLegalContext(p, BuildFor(p, existing, x)).Some? && ApiUrl(x.apiBaseUrl) == b + T("/api/v1/legal")
    ensures Says(BuildLegalContext(p, BuildFor(p, existing, x)).value, TermsFacts(p, x, b))
  {
    BuildForFields(p, existing, x);
    hide BuildFor, BuildLegalContext, At, T, ApiUrl;
    TermsBuilt(p, BuildFor(p, existing, x));
  }

  lemma MemberSaid(p: Platform, y: BuildInput, k: nat, s: Schema, v: Value, j: nat, m: nat, sub: string, t: Text)
    requires y.version > 0 && BuildLegalContext(p, y).Some? && k < 18 && ValuesBuilt(p, y)[k] == v
    requires |ContextShape(p)| == 18 && ContextShape(p)[k].schema == s
    requires s.ObjectOf? && j < |s.shape| && s.shape[j].key == T(sub)
    requires v.Obj? && Valid(v) && m < |v.members| && v.members[m] == Member(T(sub), Str(t))
    ensures At(BuildLegalContext(p, y).value, [Key(Keys()[k]), Key(sub)]) == Str(t)
  {
    hide *;
    Places(p, y, k, v);
    IsScalar(t);
    BuiltMember(p, y, k, Keys()[k], s, v, j, m, sub);
  }

  lemma PartyShape(p: Platform, y: BuildInput)
    ensures var s, v := PartySchema(p), PartyOf(y);
            && s.ObjectOf? && |s.shape| == 4 && s.shape[0].key == T("legalName") && s.shape[1].key == T("jurisdiction")
            && s.shape[3].key == T("contactEmail")
            && v.Obj? && Valid(v) && |v.members| == 3
            && v.members[0] == Member(T("legalName"), Str(y.providerLegalName))
            && v.members[1] == Member(T("jurisdiction"), Str(y.providerJurisdiction))
            && v.members[2] == Member(T("contactEmail"), Str(y.providerContactEmail))
  {
    PartyValid(y);
    hide T;
  }

  lemma ContactShape(y: BuildInput)
    ensures var s, v := ContactSchema(), ContactOf(y);
            && s.ObjectOf? && |s.shape| == 2 && s.shape[0].key == T("legal") && s.shape[1].key == T("technical")
            && v.Obj? && Valid(v) && |v.members| == 2
            && v.members[0] == Member(T("legal"), Str(y.providerContactEmail))
            && v.members[1] == Member(T("technical"), Str(y.providerContactEmail))
  {
    PartyValid(y);
    hide T;
  }

  lemma DisputeShape(p: Platform, y: BuildInput)
    requires y.jurisdictions != []
    ensures var s, v := DisputeSchema(p), DisputeOf(p, y);
            && s.ObjectOf? && |s.shape| == 6 && s.shape[0].key == T("method") && s.shape[1].key == T("jurisdiction")
            && s.shape[2].key == T("contact") && s.shape[4].key == T("source")
            && v.Obj? && Valid(v) && |v.members| == 4
            && v.members[0] == Member(T("method"), Str(
                 T("Contextio arbitration ") + [0x2014] + T(" see `disputeChannels` for the per-jurisdiction venue (") +
                 JoinWith(y.jurisdictions, T("/")) + T(")")))
            && v.members[1] == Member(T("jurisdiction"), Str(JoinWith(y.jurisdictions, T(", "))))
            && v.members[2] == Member(T("contact"), Str(y.providerContactEmail))
            && v.members[3] == Member(T("source"), Str(
                 T("https://") + y.tenantDomain + T("/legal/disputes/") + p.lower(y.jurisdictions[0])))
  {
    DisputeValid(p, y);
    hide T, JoinWith;
  }

  lemma PartyBuilt(p: Platform, y: BuildInput)
    requires y.version > 0 && BuildLegalContext(p, y).Some?
    ensures var d := BuildLegalContext(p, y).value;
            && At(d, [Key("provider"), Key("legalName")]) == Str(y.providerLegalName)
            && At(d, [Key("provider"), Key("jurisdiction")]) == Str(y.providerJurisdiction)
            && At(d, [Key("provider"), Key("contactEmail")]) == Str(y.providerContactEmail)
            && At(d, [Key("contact"), Key("legal")]) == Str(y.providerContactEmail)
            && At(d, [Key("contact"), Key("technical")]) == Str(y.providerContactEmail)
  {
    hide *;
    KeyNames();
    ShapeLength(p);
    Schemas(p);
    FirstValues(p, y);
    LastValues(p, y);
    PartyShape(p, y);
    ContactShape(y);
    MemberSaid(p, y, 11, PartySchema(p), PartyOf(y), 0, 0, "legalName", y.providerLegalName);
    MemberSaid(p, y, 11, PartySchema(p), PartyOf(y), 1, 1, "jurisdiction", y.providerJurisdiction);
    MemberSaid(p, y, 11, PartySchema(p), PartyOf(y), 3, 2, "contactEmail", y.providerContactEmail);
    MemberSaid(p, y, 5, ContactSchema(), ContactOf(y), 0, 0, "legal", y.providerContactEmail);
    MemberSaid(p, y, 5, ContactSchema(), ContactOf(y), 1, 1, "technical", y.providerContactEmail);
  }

  lemma DisputeBuilt(p: Platform, y: BuildInput)
    requires y.version > 0 && BuildLegalContext(p, y).Some? && y.jurisdictions != []
    ensures var d := BuildLegalContext(p, y).value;
            && At(d, [Key("disputeResolution"), Key("method")]) == Str(
                 T("Contextio arbitration ") + [0x2014] + T(" see `disputeChannels` for the per-jurisdiction venue (") +
                 JoinWith(y.jurisdictions, T("/")) + T(")"))
            && At(d, [Key("disputeResolution"), Key("jurisdiction")]) == Str(JoinWith(y.jurisdictions, T(", ")))
            && At(d, [Key("disputeResolution"), Key("contact")]) == Str(y.providerContactEmail)
            && At(d, [Key("disputeResolution"), Key("source")]) == Str(
                 T("https://") + y.tenantDomain + T("/legal/disputes/") + p.lower(y.jurisdictions[0]))
  {
    hide *;
    KeyNames();
    ShapeLength(p);
    Schemas(p);
    FirstValues(p, y);
    DisputeShape(p, y);
    var s, v := DisputeSchema(p), DisputeOf(p, y);
    MemberSaid(p, y, 4, s, v, 0, 0, "method",
               T("Contextio arbitration ") + [0x2014] + T(" see `disputeChannels` for the per-jurisdiction venue (") +
               JoinWith(y.jurisdictions, T("/")) + T(")"));
    MemberSaid(p, y, 4, s, v, 1, 1, "jurisdiction", JoinWith(y.jurisdictions, T(", ")));
    MemberSaid(p, y, 4, s, v, 2, 2, "contact", y.providerContactEmail);
    MemberSaid(p, y, 4, s, v, 4, 3, "source",
               T("https://") + y.tenantDomain + T("/legal/disputes/") + p.lower(y.jurisdictions[0]));
  }

  lemma PartySaid(p: Platform, existing: Option<Row>, x: PublishInput)
    requires BuildLegalContext(p, BuildFor(p, existing, x)).Some? && x.jurisdictions != []
    ensures Says(BuildLegalContext(p, BuildFor(p, existing, x)).value, PartyFacts(p, x))
    ensures Says(BuildLegalContext(p, BuildFor(p, existing, x)).value, DisputeFacts(p, x))
  {
    BuildForFields(p, existing, x);
    hide BuildFor, BuildLegalContext, At, T, JoinWith;
    PartyBuilt(p, BuildFor(p, existing, x));
    DisputeBuilt(p, BuildFor(p, existing, x));
  }

  lemma ItemSaid(p: Platform, y: BuildInput, k: nat, s: Schema, v: Value, i: nat, t: Text)
    requires y.version > 0 && BuildLegalContext(p, y).Some? && k < 18 && ValuesBuilt(p, y)[k] == v
    requires |ContextShape(p)| == 18 && ContextShape(p)[k].schema == s
    requires s.ArrayOf? && v.Arr? && i < |v.items| && v.items[i] == Str(t)
    ensures At(BuildLegalContext(p, y).value, [Key(Keys()[k]), Index(i)]) == Str(t)
  {
    hide *;
    Places(p, y, k, v);
    IsScalar(t);
    BuiltItem(p, y, k, Keys()[k], s, v, i);
  }

  lemma JurisdictionItem(js: seq<Text>, i: nat)
    requires i < |js|
    ensures JurisdictionsOf(js).Arr? && |JurisdictionsOf(js).items| == |js| && JurisdictionsOf(js).items[i] == Str(js[i])
  {
  }

  lemma JurisdictionBuilt(p: Platform, y: BuildInput, i: nat)
    requires y.version > 0 && BuildLegalContext(p, y).Some? && i < |y.jurisdictions|
    ensures At(BuildLegalContext(p, y).value, [Key("jurisdictions"), Index(i)]) == Str(y.jurisdictions[i])
  {
    hide *;
    KeyNames();
    ShapeLength(p);
    Schemas(p);
    LastValues(p, y);
    JurisdictionItem(y.jurisdictions, i);
    ItemSaid(p, y, 13, ArrayOf(StringOf(MinLength(2)), 1), JurisdictionsOf(y.jurisdictions), i, y.jurisdictions[i]);
  }

  lemma JurisdictionsSaid(p: Platform, existing: Option<Row>, x: PublishInput)
    requires BuildLegalContext(p, BuildFor(p, existing, x)).Some?
    ensures Says(BuildLegalContext(p, BuildFor(p, existing, x)).value, JurisdictionFacts(x))
  {
    BuildForFields(p, existing, x);
    hide BuildFor, BuildLegalContext, At, T;
    forall i | 0 <= i < |x.jurisdictions|
      ensures At(BuildLegalContext(p, BuildFor(p, existing, x)).value, [Key("jurisdictions"), Index(i)]) == Str(x.jurisdictions[i])
    {
      JurisdictionBuilt(p, BuildFor(p, existing, x), i);
    }
  }

  /** A text in the i-th object of an array. */
  lemma InItemSaid(p: Platform, y: BuildInput, k: nat, s: Schema, v: Value, i: nat, j: nat, m: nat, sub: string, t: Value)
    requires y.version > 0 && BuildLegalContext(p, y).Some? && k < 18 && ValuesBuilt(p, y)[k] == v
    requires |ContextShape(p)| == 18 && ContextShape(p)[k].schema == s && s.ArrayOf? && v.Arr? && i < |v.items|
    requires s.element.ObjectOf? && j < |s.element.shape| && s.element.shape[j].key == T(sub)
    requires var o := v.items[i];
             o.Obj? && Valid(o) && m < |o.members| && o.members[m] == Member(T(sub), t) && Scalar(t)
    ensures At(BuildLegalContext(p, y).value, [Key(Keys()[k]), Index(i), Key(sub)]) == t
  {
    hide *;
    Places(p, y, k, v);
    BuiltItemMember(p, y, k, Keys()[k], s, v, i, j, m, sub);
  }

  lemma ChannelShape(y: BuildInput, place: string, country: string, law: string, language: string)
    ensures var s, v := ChannelSchema(), ChannelOf(y, place, country, law, language);
            && s.ObjectOf? && |s.shape| == 5 && s.shape[0].key == T("type") && s.shape[1].key == T("provider")
            && s.shape[2].key == T("venue") && s.shape[3].key == T("governingLaw") && s.shape[4].key == T("language")
            && v.Obj? && Valid(v) && |v.members| == 5
            && v.members[0] == Member(T("type"), Str(T("arbitration")))
            && v.members[1] == Member(T("provider"), Str(T("Contextio arbitration ") + [0x2014] + T(" ") + T(place)))
            && v.members[2] == Member(T("venue"), Str(T("https://") + y.tenantDomain + T("/legal/disputes/") + T(country)))
            && v.members[3] == Member(T("governingLaw"), Str(T(law)))
            && v.members[4] == Member(T("language"), Str(T(language)))
  {
    ChannelValid(y, place, country, law, language);
    hide T;
  }

  lemma ChannelBuilt(p: Platform, y: BuildInput, i: nat, place: string, country: string, law: string, language: string)
    requires y.version > 0 && BuildLegalContext(p, y).Some?
    requires ChannelsOf(y).Arr? && i < |ChannelsOf(y).items|
    requires ChannelsOf(y).items[i] == ChannelOf(y, place, country, law, language)
    ensures var d := BuildLegalContext(p, y).value;
            && At(d, [Key("disputeChannels"), Index(i), Key("type")]) == Str(T("arbitration"))
            && At(d, [Key("disputeChannels"), Index(i), Key("provider")]) ==
               Str(T("Contextio arbitration ") + [0x2014] + T(" ") + T(place))
            && At(d, [Key("disputeChannels"), Index(i), Key("venue")]) ==
               Str(T("https://") + y.tenantDomain + T("/legal/disputes/") + T(country))
            && At(d, [Key("disputeChannels"), Index(i), Key("governingLaw")]) == Str(T(law))
            && At(d, [Key("disputeChannels"), Index(i), Key("language")]) == Str(T(language))
  {
    hide *;
    KeyNames();
    ShapeLength(p);
    Schemas(p);
    LastValues(p, y);
    ChannelShape(y, place, country, law, language);
    var s, v := ArrayOf(ChannelSchema(), 1), ChannelsOf(y);
    var provider := T("Contextio arbitration ") + [0x2014] + T(" ") + T(place);
    var venue := T("https://") + y.tenantDomain + T("/legal/disputes/") + T(country);
    IsScalar(T("arbitration"));
    IsScalar(provider);
    IsScalar(venue);
    IsScalar(T(law));
    IsScalar(T(language));
    InItemSaid(p, y, 15, s, v, i, 0, 0, "type", Str(T("arbitration")));
    InItemSaid(p, y, 15, s, v, i, 1, 1, "provider", Str(provider));
    InItemSaid(p, y, 15, s, v, i, 2, 2, "venue", Str(venue));
    InItemSaid(p, y, 15, s, v, i, 3, 3, "governingLaw", Str(T(law)));
    InItemSaid(p, y, 15, s, v, i, 4, 4, "language", Str(T(language)));
  }

  lemma ChannelSaid(p: Platform, x: PublishInput, y: BuildInput, i: nat, place: string, country: string, law: string, language: string)
    requires y.version > 0 && BuildLegalContext(p, y).Some? && y.tenantDomain == x.tenantDomain
    requires ChannelsOf(y).Arr? && i < |ChannelsOf(y).items|
    requires ChannelsOf(y).items[i] == ChannelOf(y, place, country, law, language)
    ensures Says(BuildLegalContext(p, y).value, ChannelFacts(x, i, place, country, law, language))
  {
    hide BuildLegalContext, At, T, ChannelsOf, ChannelOf;
    ChannelBuilt(p, y, i, place, country, law, language);
  }

  lemma ChannelPlaces(y: BuildInput)
    ensures var v := ChannelsOf(y);
            && v.Arr? && |v.items| == 4 && v.items[0] == ChannelOf(y, "Brazil", "br", "BR", "pt")
            && v.items[1] == ChannelOf(y, "Argentina", "ar", "AR", "es") && v.items[2] == ChannelOf(y, "Colombia", "co", "CO", "es")
            && v.items[3] == ChannelOf(y, "Switzerland (EMEA)", "ch", "CH", "en")
  {
    hide ChannelOf;
  }

  lemma ConsentShape(id: string, description: string, scope: seq<string>)
    ensures var s, v := ConsentSchema(), ConsentOf(id, description, scope);
            && s.ObjectOf? && |s.shape| == 4 && s.shape[0].key == T("id") && s.shape[1].key == T("description")
            && s.shape[2].key == T("required")
            && v.Obj? && Valid(v) && |v.members| == 4
            && v.members[0] == Member(T("id"), Str(T(id))) && v.members[1] == Member(T("description"), Str(T(description)))
            && v.members[2] == Member(T("required"), Bool(true))
  {
    ConsentValid(id, description, scope);
    hide T, Texts2;
  }

  lemma ConsentBuilt(p: Platform, y: BuildInput, i: nat, id: string, description: string, scope: seq<string>)
    requires y.version > 0 && BuildLegalContext(p, y).Some?
    requires i < |ConsentsBuilt()| && ConsentsBuilt()[i] == ConsentOf(id, description, scope)
    ensures var d := BuildLegalContext(p, y).value;
            && At(d, [Key("consentRequirements"), Index(i), Key("id")]) == Str(T(id))
            && At(d, [Key("consentRequirements"), Index(i), Key("description")]) == Str(T(description))
            && At(d, [Key("consentRequirements"), Index(i), Key("required")]) == Bool(true)
  {
    hide *;
    KeyNames();
    ShapeLength(p);
    Schemas(p);
    LastValues(p, y);
    ConsentShape(id, description, scope);
    IsScalar(T(id));
    IsScalar(T(description));
    var s, v := ArrayOf(ConsentSchema(), 1), Arr(ConsentsBuilt());
    InItemSaid(p, y, 14, s, v, i, 0, 0, "id", Str(T(id)));
    InItemSaid(p, y, 14, s, v, i, 1, 1, "description", Str(T(description)));
    InItemSaid(p, y, 14, s, v, i, 2, 2, "required", Bool(true));
  }

  lemma ConsentSaid(p: Platform, y: BuildInput, i: nat, id: string, description: string, scope: seq<string>)
    requires y.version > 0 && BuildLegalContext(p, y).Some?
    requires i < |ConsentsBuilt()| && ConsentsBuilt()[i] == ConsentOf(id, description, scope)
    ensures Says(BuildLegalContext(p, y).value, ConsentFacts(i, id, description))
  {
    hide BuildLegalContext, At, T, ConsentsBuilt, ConsentOf;
    ConsentBuilt(p, y, i, id, description, scope);
  }

  const TREASURY_TEXT := "Authorize AI agents to allocate idle treasury between liquidity and yield."
  const PAYROLL_TEXT := "Authorize scheduled payroll settlement to listed employees/contractors."

  lemma ConsentPlaces()
    ensures |ConsentsBuilt()| == 2
    ensures ConsentsBuilt()[0] == ConsentOf("treasury-management", TREASURY_TEXT, ["treasury", "yield"])
    ensures ConsentsBuilt()[1] == ConsentOf("payroll-execution", PAYROLL_TEXT, ["payroll", "offramp"])
  {
    hide ConsentOf;
  }

  /** Everything a request says. */
  ghost predicate SaysRequest(p: Platform, d: Value, x: PublishInput) {
    && x.jurisdictions != []
    && (forall b :: Unslashed(x.apiBaseUrl, b) ==> Says(d, TermsFacts(p, x, b)))
    && Says(d, PartyFacts(p, x)) && Says(d, DisputeFacts(p, x))
    && Says(d, JurisdictionFacts(x))
    && Says(d, ChannelFacts(x, 0, "Brazil", "br", "BR", "pt"))
    && Says(d, ChannelFacts(x, 1, "Argentina", "ar", "AR", "es"))
    && Says(d, ChannelFacts(x, 2, "Colombia", "co", "CO", "es"))
    && Says(d, ChannelFacts(x, 3, "Switzerland (EMEA)", "ch", "CH", "en"))
    && Says(d, ConsentFacts(0, "treasury-management", TREASURY_TEXT))
    && Says(d, ConsentFacts(1, "payroll-execution", PAYROLL_TEXT))
    && Lists(d, "jurisdictions", |x.jurisdictions|) && Lists(d, "disputeChannels", 4) && Lists(d, "consentRequirements", 2)
  }

  predicate Lists(d: Value, name: string, n: nat) {
    At(d, [Key(name)]).Arr? && |At(d, [Key(name)]).items| == n
  }

  lemma BuiltLists(p: Platform, y: BuildInput, k: nat, s: Schema, v: Value)
    requires y.version > 0 && BuildLegalContext(p, y).Some? && k < 18 && ValuesBuilt(p, y)[k] == v
    requires |ContextShape(p)| == 18 && ContextShape(p)[k].schema == s && s.ArrayOf? && v.Arr?
    ensures Lists(BuildLegalContext(p, y).value, Keys()[k], |v.items|)
  {
    hide Keys, ContextShape, ValuesBuilt, Lookup, T, BuildLegalContext;
    BuiltField(p, y, k, v);
    AtTop(BuildLegalContext(p, y).value, Keys()[k]);
    hide At;
  }

  lemma AtTop(d: Value, name: string)
    requires d.Obj?
    ensures At(d, [Key(name)]) == Lookup(d.members, T(name))
  {
    hide Lookup, T;
    assert [Key(name)][1..] == [];
  }

  lemma ListsBuilt(p: Platform, y: BuildInput)
    requires y.version > 0 && BuildLegalContext(p, y).Some? && y.jurisdictions != []
    ensures var d := BuildLegalContext(p, y).value;
            Lists(d, "jurisdictions", |y.jurisdictions|) && Lists(d, "disputeChannels", 4) && Lists(d, "consentRequirements", 2)
  {
    hide *;
    KeyNames();
    ShapeLength(p);
    Schemas(p);
    LastValues(p, y);
    JurisdictionItem(y.jurisdictions, 0);
    ChannelPlaces(y);
    ConsentPlaces();
    BuiltLists(p, y, 13, ArrayOf(StringOf(MinLength(2)), 1), JurisdictionsOf(y.jurisdictions));
    BuiltLists(p, y, 14, ArrayOf(ConsentSchema(), 1), Arr(ConsentsBuilt()));
    BuiltLists(p, y, 15, ArrayOf(ChannelSchema(), 1), ChannelsOf(y));
  }

  lemma BuiltLong(p: Platform, y: BuildInput)
    requires y.version > 0 && BuildLegalContext(p, y).Some?
    ensures y.jurisdictions != []
  {
    BuildsIff(p, y);
    hide BuildLegalContext, T, IsAtrHash, SourcePage;
  }

  lemma BuiltSaysRequest(p: Platform, existing: Option<Row>, x: PublishInput)
    requires BuildLegalContext(p, BuildFor(p, existing, x)).Some?
    ensures SaysRequest(p, BuildLegalContext(p, BuildFor(p, existing, x)).value, x)
  {
    hide Says, BuildFor, BuildLegalContext, ApiUrl, T, ChannelsOf, ChannelOf, ConsentsBuilt, ConsentOf, Unslashed;
    var y := BuildFor(p, existing, x);
    BuildForFields(p, existing, x);
    BuiltLong(p, y);
    forall b | Unslashed(x.apiBaseUrl, b)
      ensures Says(BuildLegalContext(p, y).value, TermsFacts(p, x, b))
    {
      UnslashedApi(x.apiBaseUrl, b);
      TermsSaid(p, existing, x, b);
    }
    PartySaid(p, existing, x);
    JurisdictionsSaid(p, existing, x);
    ChannelPlaces(y);
    ChannelSaid(p, x, y, 0, "Brazil", "br", "BR", "pt");
    ChannelSaid(p, x, y, 1, "Argentina", "ar", "AR", "es");
    ChannelSaid(p, x, y, 2, "Colombia", "co", "CO", "es");
    ChannelSaid(p, x, y, 3, "Switzerland (EMEA)", "ch", "CH", "en");
    ConsentPlaces();
    ConsentSaid(p, y, 0, "treasury-management", TREASURY_TEXT, ["treasury", "yield"]);
    ConsentSaid(p, y, 1, "payroll-execution", PAYROLL_TEXT, ["payroll", "offramp"]);
    hide Lists;
    ListsBuilt(p, y);
  }

  // ---- The stored and the served document say it ----

  lemma ListsRespect(a: Value, b: Value, name: string, n: nat)
    requires Valid(a) && Valid(b) && Equivalent(a, b) && Lists(a, name, n)
    ensures Lists(b, name, n)
  {
    hide Valid, At;
    AtRespects(a, b, [Key(name)]);
  }

  ghost predicate ScalarFacts(facts: seq<Fact>) {
    forall i :: 0 <= i < |facts| ==> Scalar(facts[i].value)
  }

  lemma SaysRespects(a: Value, b: Value, facts: seq<Fact>)
    requires Valid(a) && Valid(b) && Equivalent(a, b) && Says(a, facts) && ScalarFacts(facts)
    ensures Says(b, facts)
  {
    hide Valid, Equivalent, At, Scalar;
    forall i | 0 <= i < |facts|
      ensures At(b, facts[i].path) == facts[i].value
    {
      ScalarAt(a, b, facts[i].path);
    }
  }

  lemma RequestScalars(p: Platform, x: PublishInput, b: Text)
    ensures ScalarFacts(TermsFacts(p, x, b)) && ScalarFacts(PartyFacts(p, x)) && ScalarFacts(JurisdictionFacts(x))
    ensures x.jurisdictions != [] ==> ScalarFacts(DisputeFacts(p, x))
  {
    hide T, JoinWith;
  }

  lemma ConstantScalars(x: PublishInput, i: nat, a: string, c: string, l: string, g: string)
    ensures ScalarFacts(ChannelFacts(x, i, a, c, l, g)) && ScalarFacts(ConsentFacts(i, a, c))
  {
    hide T;
  }

  lemma RequestRespects(p: Platform, a: Value, b: Value, x: PublishInput)
    requires Valid(a) && Valid(b) && Equivalent(a, b) && SaysRequest(p, a, x)
    ensures SaysRequest(p, b, x)
  {
    hide Valid, Equivalent, Says, ScalarFacts, Unslashed, TermsFacts, PartyFacts, DisputeFacts, JurisdictionFacts, ChannelFacts,
         ConsentFacts, Lists;
    forall c | Unslashed(x.apiBaseUrl, c)
      ensures Says(b, TermsFacts(p, x, c))
    {
      RequestScalars(p, x, c);
      SaysRespects(a, b, TermsFacts(p, x, c));
    }
    RequestScalars(p, x, []);
    SaysRespects(a, b, PartyFacts(p, x));
    SaysRespects(a, b, DisputeFacts(p, x));
    SaysRespects(a, b, JurisdictionFacts(x));
    ConstantScalars(x, 0, "Brazil", "br", "BR", "pt");
    ConstantScalars(x, 1, "Argentina", "ar", "AR", "es");
    ConstantScalars(x, 2, "Colombia", "co", "CO", "es");
    ConstantScalars(x, 3, "Switzerland (EMEA)", "ch", "CH", "en");
    SaysRespects(a, b, ChannelFacts(x, 0, "Brazil", "br", "BR", "pt"));
    SaysRespects(a, b, ChannelFacts(x, 1, "Argentina", "ar", "AR", "es"));
    SaysRespects(a, b, ChannelFacts(x, 2, "Colombia", "co", "CO", "es"));
    SaysRespects(a, b, ChannelFacts(x, 3, "Switzerland (EMEA)", "ch", "CH", "en"));
    ConstantScalars(x, 0, "treasury-management", TREASURY_TEXT, "", "");
    ConstantScalars(x, 1, "payroll-execution", PAYROLL_TEXT, "", "");
    SaysRespects(a, b, ConsentFacts(0, "treasury-management", TREASURY_TEXT));
    SaysRespects(a, b, ConsentFacts(1, "payroll-execution", PAYROLL_TEXT));
    ListsRespect(a, b, "jurisdictions", |x.jurisdictions|);
    ListsRespect(a, b, "disputeChannels", 4);
    ListsRespect(a, b, "consentRequirements", 2);
  }

  lemma ReadEquivalent(p: Platform, existing: Option<Row>, x: PublishInput, store: Value -> Value)
    requires KeepsDocuments(store) && Published(p, existing, x, store).Some?
    ensures BuildLegalContext(p, BuildFor(p, existing, x)).Some?
    ensures var built, row := BuildLegalContext(p, BuildFor(p, existing, x)).value, Published(p, existing, x, store).value;
            && Valid(built) && Valid(row.document) && Equivalent(built, row.document)
            && Read(p, row).Some? && Valid(Read(p, row).value) && Equivalent(built, Read(p, row).value)
  {
    hide Parse, Literal, ContextSchema, Described, HashLegalContext, BuildFor, Equivalent;
    var input := BuildFor(p, existing, x);
    var row := Published(p, existing, x, store).value;
    BuildForFields(p, existing, x);
    BuiltSound(p, input);
    ContextSchemaWellFormed(p);
    PublishedSound(p, existing, x, store);
    var built := BuildLegalContext(p, input).value;
    ParseRespects(ContextSchema(p), built, row.document);
  }

  /** Every written row, as it is stored and as it is read and served: the document says what the request
      said, each thing under its key. Above all, atrHash is the hash of the text of the terms. */
  lemma PublishedSaysRequest(p: Platform, existing: Option<Row>, x: PublishInput, store: Value -> Value)
    requires KeepsDocuments(store) && Published(p, existing, x, store).Some?
    ensures var row := Published(p, existing, x, store).value;
            SaysRequest(p, row.document, x) && Read(p, row).Some? && SaysRequest(p, Read(p, row).value, x)
  {
    BuildForFields(p, existing, x);
    hide Published, BuildLegalContext, BuildFor, Read, SaysRequest, Valid, Equivalent;
    ReadEquivalent(p, existing, x, store);
    BuiltSaysRequest(p, existing, x);
    var row := Published(p, existing, x, store).value;
    RequestRespects(p, BuildLegalContext(p, BuildFor(p, existing, x)).value, row.document, x);
    RequestRespects(p, BuildLegalContext(p, BuildFor(p, existing, x)).value, Read(p, row).value, x);
  }

  /** A version prints as its decimal numeral, up to 21 digits. */
  lemma VersionPrints(v: nat)
    requires v > 0 && |ToDigits(v)| <= 21
    ensures Valid(VersionNumber(v)) && Serialize(VersionNumber(v)) == Ok(DigitText(ToDigits(v)))
  {
    VersionValid(v);
    var ds := ToDigits(v);
    var shown := StripTrailing(ds);
    assert shown != [] by {
      assert ds[0] != 0;
      StripKeepsFirst(ds);
    }
    assert ds == shown + Zeros(|ds| - |shown|);
    hide ToDigits, StripTrailing, DigitText;
    assert LayoutOf(shown, |ds|) == Layout(ds, [], 0);
    assert PrintLayout(Layout(ds, [], 0)) == DigitText(ds);
    assert PrintNumber(Finite(false, shown, |ds|)) == [] + DigitText(ds) == DigitText(ds);
  }
}
