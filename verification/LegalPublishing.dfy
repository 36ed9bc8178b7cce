/** When a publish goes through: exactly which inputs the schema accepts. */
module LegalPublishing {
  import opened Wrappers
  import opened Texts
  import opened Json
  import opened Schema
  import opened LegalDocument
  import opened LegalContext
  import opened LegalHistory

  // ---- Objects and arrays, field by field ----

  lemma {:induction false} FieldsParseIff(context: Schema, shape: seq<Field>, ms: seq<Member>)
    requires forall i :: 0 <= i < |shape| ==> shape[i].schema < context
    ensures ParseFields(context, shape, ms).Some? <==>
            forall k :: 0 <= k < |shape| ==> ParseField(context, shape[k], Lookup(ms, shape[k].key)).Some?
    decreases |shape|
  {
    hide ParseField, Lookup;
    if shape != [] {
      FieldsParseIff(context, shape[1..], ms);
      assert forall k :: 0 < k < |shape| ==> shape[k] == shape[1..][k - 1];
    }
  }

  lemma {:induction false} ItemsParseIff(element: Schema, items: seq<Value>)
    ensures ParseItems(element, items).Some? <==> forall k :: 0 <= k < |items| ==> Parse(element, items[k]).Some?
    decreases |items|
  {
    hide Parse;
    if items != [] {
      ItemsParseIff(element, items[1..]);
      assert forall k :: 0 < k < |items| ==> items[k] == items[1..][k - 1];
    }
  }

  /** An object parses exactly when every field of the schema does. */
  lemma ObjectParsesIff(s: Schema, v: Value)
    requires s.ObjectOf? && v.Obj?
    ensures Parse(s, v).Some? <==>
            forall k :: 0 <= k < |s.shape| ==> ParseField(s, s.shape[k], Lookup(v.members, s.shape[k].key)).Some?
  {
    FieldsParseIff(s, s.shape, v.members);
    hide ParseFields, ParseField, Lookup;
  }

  predicate Passes(s: Schema, v: Value) { Parse(s, v).Some? }

  /** Whether the k-th value of the document passes its schema. */
  predicate FieldPasses(p: Platform, x: BuildInput, k: int)
  {
    x.version > 0 && 0 <= k < 18 && Passes(ContextShape(p)[k].schema, ValuesBuilt(p, x)[k])
  }

  lemma FieldIs(p: Platform, x: BuildInput, k: nat)
    requires x.version > 0 && k < 18
    ensures |ContextShape(p)| == 18 && |ValuesBuilt(p, x)| == 18
    ensures FieldPasses(p, x, k) <==> Passes(ContextShape(p)[k].schema, ValuesBuilt(p, x)[k])
  {
    hide ContextShape, ValuesBuilt, Passes, T;
  }

  lemma LiteralField(p: Platform, x: BuildInput, k: nat)
    requires x.version > 0 && k < |Keys()|
    ensures ParseField(ContextSchema(p), ContextShape(p)[k], Lookup(Literal(p, x).members, ContextShape(p)[k].key)) ==
            Parse(ContextShape(p)[k].schema, ValuesBuilt(p, x)[k])
  {
    LiteralAt(p, x, k);
    ValuesDefined(p, x);
    hide Keys, ValuesBuilt, Lookup, T, ContextShape, Literal, Parse;
  }

  /** A document built over the keys of the schema parses exactly when every value does. */
  lemma LiteralParsesIff(p: Platform, x: BuildInput)
    requires x.version > 0
    ensures BuildLegalContext(p, x).Some? <==> forall k: nat :: k < 18 ==> FieldPasses(p, x, k)
  {
    hide Keys, ContextShape, ValuesBuilt, Lookup, T, Parse, ParseField;
    ObjectParsesIff(ContextSchema(p), Literal(p, x));
    forall k: nat | k < |Keys()|
      ensures ParseField(ContextSchema(p), ContextShape(p)[k], Lookup(Literal(p, x).members, ContextShape(p)[k].key)).Some?
              <==> FieldPasses(p, x, k)
    {
      LiteralField(p, x, k);
    }
    hide Literal, FieldPasses;
  }

  lemma ValuesDefined(p: Platform, x: BuildInput)
    requires x.version > 0
    ensures forall k :: 0 <= k < |Keys()| ==> !ValuesBuilt(p, x)[k].Undefined?
  {
    hide DisputeOf, ConsentsBuilt, ChannelOf, Texts2, T, VersionNumber;
    assert VersionNumber(x.version).Num? by {
      VersionIsNumber(x.version);
    }
    assert DisputeOf(p, x).Obj? by {
      DisputeIsObject(p, x);
    }
  }

  lemma VersionIsNumber(v: nat)
    requires v > 0
    ensures VersionNumber(v).Num?
  {
  }

  lemma DisputeIsObject(p: Platform, x: BuildInput)
    ensures DisputeOf(p, x).Obj?
  {
  }

  // ---- The fields ----

  function SourcePage(p: Platform, x: BuildInput): Text {
    DisputePage(x.tenantDomain, if x.jurisdictions == [] then T("br") else p.lower(x.jurisdictions[0]))
  }

  lemma PartyParsesIff(p: Platform, x: BuildInput)
    ensures Parse(PartySchema(p), PartyOf(x)).Some? <==>
            x.providerLegalName != [] && |x.providerJurisdiction| >= 2 && p.isEmail(x.providerContactEmail)
  {
    var s, v := PartySchema(p), PartyOf(x);
    assert T("jurisdiction")[0] != T("contactEmail")[0];
    LookupAt(v.members, 0);
    LookupAt(v.members, 1);
    LookupAt(v.members, 2);
    LookupMissing(v.members, T("registrationId"));
    ObjectParsesIff(s, v);
    hide Lookup, T;
    assert ParseField(s, s.shape[0], Str(x.providerLegalName)).Some? <==> x.providerLegalName != [];
    assert ParseField(s, s.shape[1], Str(x.providerJurisdiction)).Some? <==> |x.providerJurisdiction| >= 2;
    assert ParseField(s, s.shape[2], Undefined).Some?;
    assert ParseField(s, s.shape[3], Str(x.providerContactEmail)).Some? <==> p.isEmail(x.providerContactEmail);
  }

  lemma TextParses(t: Text, n: nat)
    ensures Parse(StringOf(MinLength(n)), Str(t)).Some? <==> |t| >= n
  {
  }

  lemma ContactParses(x: BuildInput)
    ensures Passes(ContactSchema(), ContactOf(x))
  {
    var v := ContactOf(x);
    LookupAt(v.members, 0);
    LookupAt(v.members, 1);
    ObjectParsesIff(ContactSchema(), v);
    hide Lookup, T;
  }

  lemma TextsParse(options: seq<string>)
    requires options != []
    ensures Parse(ArrayOf(AnyText(), 1), Arr(Texts2(options))).Some?
  {
    ItemsParseIff(AnyText(), Texts2(options));
  }

  lemma ScopeParses(options: seq<string>)
    requires options != [] && forall i :: 0 <= i < |options| ==> options[i] in SCOPES
    ensures Parse(ArrayOf(Enum(SCOPES), 1), Arr(Texts2(options))).Some?
  {
    forall i | 0 <= i < |options|
      ensures Parse(Enum(SCOPES), Texts2(options)[i]).Some?
    {
      var k :| 0 <= k < |SCOPES| && SCOPES[k] == options[i];
      assert T(options[i]) == T(SCOPES[k]);
    }
    ItemsParseIff(Enum(SCOPES), Texts2(options));
    hide Enum, T;
  }

  lemma SettlementParses()
    ensures Passes(SettlementSchema(), SettlementOf())
  {
    var v := SettlementOf();
    TextsParse(["stellar:testnet", "stellar:pubnet"]);
    TextsParse(["USDC", "XLM", "BRL", "ARS", "COP", "EURC"]);
    LookupAt(v.members, 0);
    LookupAt(v.members, 1);
    ObjectParsesIff(SettlementSchema(), v);
    hide Lookup, T, Texts2, Parse;
  }

  lemma ConsentParses(id: string, description: string, scope: seq<string>)
    requires id != "" && description != ""
    requires scope != [] && forall i :: 0 <= i < |scope| ==> scope[i] in SCOPES
    ensures Parse(ConsentSchema(), ConsentOf(id, description, scope)).Some?
  {
    var s, v := ConsentSchema(), ConsentOf(id, description, scope);
    TextParses(T(id), 1);
    TextParses(T(description), 1);
    ScopeParses(scope);
    ConsentValid(id, description, scope);
    LookupAt(v.members, 0);
    LookupAt(v.members, 1);
    LookupAt(v.members, 2);
    LookupAt(v.members, 3);
    ObjectParsesIff(s, v);
    hide Lookup, T, Texts2;
  }

  lemma ConsentsParse()
    ensures Passes(ArrayOf(ConsentSchema(), 1), Arr(ConsentsBuilt()))
  {
    ConsentParses("treasury-management", "Authorize AI agents to allocate idle treasury between liquidity and yield.",
                  ["treasury", "yield"]);
    ConsentParses("payroll-execution", "Authorize scheduled payroll settlement to listed employees/contractors.",
                  ["payroll", "offramp"]);
    ItemsParseIff(ConsentSchema(), ConsentsBuilt());
    hide ConsentSchema, ConsentOf;
  }

  lemma ArbitrationParses()
    ensures Parse(Enum(["arbitration", "mediation", "court", "ombudsman"]), Str(T("arbitration"))).Some?
  {
    var options := ["arbitration", "mediation", "court", "ombudsman"];
    hide T;
    assert T("arbitration") == T(options[0]);
  }

  lemma ChannelTexts(x: BuildInput, place: string, country: string, law: string, language: string)
    returns (provider: Text, venue: Text)
    ensures provider != [] && venue != []
    ensures ChannelOf(x, place, country, law, language) ==
            Obj([M("type", Str(T("arbitration"))), M("provider", Str(provider)), M("venue", Str(venue)),
                 M("governingLaw", Str(T(law))), M("language", Str(T(language)))])
  {
    provider := T("Contextio arbitration ") + [0x2014] + T(" ") + T(place);
    venue := DisputePage(x.tenantDomain, T(country));
  }

  lemma ChannelLookups(v: Value, kind: Text, provider: Text, venue: Text, law: Text, language: Text)
    requires v == Obj([M("type", Str(kind)), M("provider", Str(provider)), M("venue", Str(venue)),
                       M("governingLaw", Str(law)), M("language", Str(language))])
    ensures var s := ChannelSchema();
            && |s.shape| == 5
            && Lookup(v.members, s.shape[0].key) == Str(kind)
            && Lookup(v.members, s.shape[1].key) == Str(provider)
            && Lookup(v.members, s.shape[2].key) == Str(venue)
            && Lookup(v.members, s.shape[3].key) == Str(law)
            && Lookup(v.members, s.shape[4].key) == Str(language)
  {
    assert T("provider")[0] != T("language")[0];
    assert DistinctKeys(v.members);
    hide T, Lookup, DistinctKeys;
    LookupAt(v.members, 0);
    LookupAt(v.members, 1);
    LookupAt(v.members, 2);
    LookupAt(v.members, 3);
    LookupAt(v.members, 4);
  }

  lemma ChannelFieldsParse(v: Value, kind: Text, provider: Text, venue: Text, law: Text, language: Text)
    requires v.Obj? && |ChannelSchema().shape| == 5
    requires Lookup(v.members, ChannelSchema().shape[0].key) == Str(kind)
    requires Lookup(v.members, ChannelSchema().shape[1].key) == Str(provider)
    requires Lookup(v.members, ChannelSchema().shape[2].key) == Str(venue)
    requires Lookup(v.members, ChannelSchema().shape[3].key) == Str(law)
    requires Lookup(v.members, ChannelSchema().shape[4].key) == Str(language)
    requires Parse(Enum(["arbitration", "mediation", "court", "ombudsman"]), Str(kind)).Some?
    requires provider != [] && venue != [] && law != []
    ensures Parse(ChannelSchema(), v).Some?
  {
    hide Lookup, T, OneOf;
    ObjectParsesIff(ChannelSchema(), v);
  }

  lemma ChannelParses(x: BuildInput, place: string, country: string, law: string, language: string)
    requires law != ""
    ensures Parse(ChannelSchema(), ChannelOf(x, place, country, law, language)).Some?
  {
    hide *;
    var provider, venue := ChannelTexts(x, place, country, law, language);
    var v := ChannelOf(x, place, country, law, language);
    ChannelLookups(v, T("arbitration"), provider, venue, T(law), T(language));
    ArbitrationParses();
    ChannelFieldsParse(v, T("arbitration"), provider, venue, T(law), T(language));
  }

  lemma ChannelsParse(x: BuildInput)
    ensures Passes(ArrayOf(ChannelSchema(), 1), ChannelsOf(x))
  {
    hide ChannelSchema, ChannelOf, T, DisputePage, ParseFields, ParseField, Lookup;
    ChannelParses(x, "Brazil", "br", "BR", "pt");
    ChannelParses(x, "Argentina", "ar", "AR", "es");
    ChannelParses(x, "Colombia", "co", "CO", "es");
    ChannelParses(x, "Switzerland (EMEA)", "ch", "CH", "en");
    ItemsParseIff(ChannelSchema(), ChannelsOf(x).items);
  }

  predicate LongEnough(jurisdictions: seq<Text>) {
    jurisdictions != [] && forall i :: 0 <= i < |jurisdictions| ==> |jurisdictions[i]| >= 2
  }

  lemma JurisdictionsParseIff(js: seq<Text>)
    ensures Passes(ArrayOf(StringOf(MinLength(2)), 1), JurisdictionsOf(js)) <==> LongEnough(js)
  {
    var items := JurisdictionsOf(js).items;
    ItemsParseIff(StringOf(MinLength(2)), items);
    forall i | 0 <= i < |js|
      ensures Parse(StringOf(MinLength(2)), items[i]).Some? <==> |js[i]| >= 2
    {
      TextParses(js[i], 2);
    }
  }

  lemma DisputeFieldsParseIff(p: Platform, v: Value, method_: Text, jurisdiction: Text, contact: Text, source: Text)
    requires v.Obj? && |DisputeSchema(p).shape| == 6
    requires Lookup(v.members, DisputeSchema(p).shape[0].key) == Str(method_)
    requires Lookup(v.members, DisputeSchema(p).shape[1].key) == Str(jurisdiction)
    requires Lookup(v.members, DisputeSchema(p).shape[2].key) == Str(contact)
    requires Lookup(v.members, DisputeSchema(p).shape[3].key).Undefined?
    requires Lookup(v.members, DisputeSchema(p).shape[4].key) == Str(source)
    requires Lookup(v.members, DisputeSchema(p).shape[5].key).Undefined?
    requires method_ != [] && jurisdiction != []
    ensures Parse(DisputeSchema(p), v).Some? <==> contact != [] && p.isUrl(source)
  {
    hide Lookup, T, IsClauseId;
    ObjectParsesIff(DisputeSchema(p), v);
    var s := DisputeSchema(p);
    assert ParseField(s, s.shape[2], Str(contact)).Some? <==> contact != [];
    assert ParseField(s, s.shape[4], Str(source)).Some? <==> p.isUrl(source);
  }

  lemma DisputeLookups(p: Platform, x: BuildInput)
    ensures var v, s := DisputeOf(p, x), DisputeSchema(p);
            && v.Obj? && |v.members| == 4 && |s.shape| == 6
            && Lookup(v.members, s.shape[0].key) == v.members[0].value
            && Lookup(v.members, s.shape[1].key) == v.members[1].value
            && Lookup(v.members, s.shape[2].key) == v.members[2].value
            && Lookup(v.members, s.shape[3].key).Undefined?
            && Lookup(v.members, s.shape[4].key) == v.members[3].value
            && Lookup(v.members, s.shape[5].key).Undefined?
  {
    var v := DisputeOf(p, x);
    DisputeValid(p, x);
    assert |v.members| == 4;
    DisputeLacks(p, x);
    LookupAt(v.members, 0);
    LookupAt(v.members, 1);
    LookupAt(v.members, 2);
    LookupAt(v.members, 3);
    hide Lookup, T, JoinWith, DisputePage;
  }

  lemma DisputeParsesIff(p: Platform, x: BuildInput)
    requires LongEnough(x.jurisdictions)
    ensures Parse(DisputeSchema(p), DisputeOf(p, x)).Some? <==>
            x.providerContactEmail != [] && p.isUrl(SourcePage(p, x))
  {
    var v := DisputeOf(p, x);
    JoinLong(x.jurisdictions, T(", "));
    DisputeLookups(p, x);
    assert v.members[0].value.text != [];
    hide Lookup, Parse, DisputeSchema, JoinWith, DisputePage, T;
    DisputeFieldsParseIff(p, v, v.members[0].value.text, v.members[1].value.text, v.members[2].value.text,
                          v.members[3].value.text);
  }

  lemma DisputeLacks(p: Platform, x: BuildInput)
    ensures DisputeOf(p, x).Obj?
    ensures Lookup(DisputeOf(p, x).members, T("clauseId")).Undefined?
    ensures Lookup(DisputeOf(p, x).members, T("catalog")).Undefined?
  {
    var ms := DisputeOf(p, x).members;
    assert T("clauseId")[1] != T("jurisdiction")[1];
    assert T("contact")[1] != T("catalog")[1];
    LookupMissing(ms, T("clauseId"));
    LookupMissing(ms, T("catalog"));
  }

  lemma JoinLong(parts: seq<Text>, separator: Text)
    requires LongEnough(parts)
    ensures JoinWith(parts, separator) != []
  {
  }

  // ---- The whole document ----

  lemma ListedText(t: string, options: seq<string>, k: nat)
    requires k < |options| && options[k] == t
    ensures Passes(Enum(options), Str(T(t)))
  {
    hide T;
    assert T(t) == T(options[k]);
  }

  lemma Schemas(p: Platform)
    ensures var s := ContextShape(p);
            && s[0].schema == StringOf(p.isUrl) && s[1].schema == Enum(FORMATS) && s[3].schema == Boolean
            && s[4].schema == DisputeSchema(p) && s[5].schema == ContactSchema() && s[6].schema == StringOf(p.isUrl)
            && s[7].schema == Enum(SPEC_VERSIONS) && s[8].schema == StringOf(p.isUuid) && s[10].schema == NonEmpty()
            && s[11].schema == PartySchema(p) && s[12].schema == AnyText()
            && s[13].schema == ArrayOf(StringOf(MinLength(2)), 1) && s[14].schema == ArrayOf(ConsentSchema(), 1)
            && s[15].schema == ArrayOf(ChannelSchema(), 1) && s[16].schema == SettlementSchema() && s[17].schema == AnyText()
    ensures forall t: Text :: Passes(ContextShape(p)[2].schema, Str(t)) <==> IsAtrHash(t)
    ensures forall n: Number :: Passes(ContextShape(p)[9].schema, Num(n)) <==> IsPositiveInteger(n)
  {
    hide DisputeSchema, ContactSchema, PartySchema, ConsentSchema, ChannelSchema, SettlementSchema, Enum, MinLength,
         NonEmpty, AnyText, IsAtrHash, IsPositiveInteger, T, Keys;
  }

  lemma FirstValues(p: Platform, x: BuildInput)
    requires x.version > 0
    ensures var v := ValuesBuilt(p, x);
            && v[0] == Str(x.termsUrl) && v[1] == Str(T("markdown")) && v[2] == Str(T("0x") + p.lower(x.termsSha256))
            && v[3] == Bool(true) && v[4] == DisputeOf(p, x) && v[5] == ContactOf(x)
            && v[6] == Str(x.apiUrl) && v[7] == Str(T(SPEC_VERSION)) && v[8] == Str(x.contextId)
  {
    hide DisputeOf, ContactOf, PartyOf, ConsentsBuilt, ChannelsOf, SettlementOf, JurisdictionsOf, VersionNumber, T, Keys;
  }

  lemma LastValues(p: Platform, x: BuildInput)
    requires x.version > 0
    ensures var v := ValuesBuilt(p, x);
            && v[9] == VersionNumber(x.version) && v[10] == Str(x.tenantDomain) && v[11] == PartyOf(x)
            && v[12] == Str(x.termsEffectiveDate) && v[13] == JurisdictionsOf(x.jurisdictions)
            && v[14] == Arr(ConsentsBuilt()) && v[15] == ChannelsOf(x) && v[16] == SettlementOf() && v[17] == Str(x.now)
  {
    hide DisputeOf, ContactOf, PartyOf, ConsentsBuilt, ChannelsOf, SettlementOf, JurisdictionsOf, VersionNumber, T, Keys;
  }

  lemma MarkdownPasses()
    ensures Passes(Enum(FORMATS), Str(T("markdown")))
  {
    ListedText("markdown", FORMATS, 0);
  }

  lemma SpecVersionPasses()
    ensures Passes(Enum(SPEC_VERSIONS), Str(T(SPEC_VERSION)))
  {
    ListedText(SPEC_VERSION, SPEC_VERSIONS, 0);
  }

  lemma FormatPasses(accepts: Text -> bool, t: Text)
    ensures Passes(StringOf(accepts), Str(t)) <==> accepts(t)
  {
  }

  lemma FlagPasses()
    ensures Passes(Boolean, Bool(true))
  {
  }

  lemma AnyPasses(t: Text)
    ensures Passes(AnyText(), Str(t))
    ensures Passes(NonEmpty(), Str(t)) <==> t != []
  {
  }

  lemma VersionPasses(v: nat)
    requires v > 0
    ensures VersionNumber(v).Num? && IsPositiveInteger(VersionNumber(v).number)
  {
  }

  /** What the schema makes of the input of a publish. */
  predicate Acceptable(p: Platform, x: BuildInput) {
    && p.isUrl(x.termsUrl) && IsAtrHash(T("0x") + p.lower(x.termsSha256))
    && p.isUrl(x.apiUrl) && p.isUuid(x.contextId) && x.tenantDomain != []
    && x.providerLegalName != [] && |x.providerJurisdiction| >= 2
    && x.providerContactEmail != [] && p.isEmail(x.providerContactEmail)
    && LongEnough(x.jurisdictions) && p.isUrl(SourcePage(p, x))
  }

  lemma FieldsPass(p: Platform, x: BuildInput)
    requires x.version > 0
    ensures FieldPasses(p, x, 0) <==> p.isUrl(x.termsUrl)
    ensures FieldPasses(p, x, 2) <==> IsAtrHash(T("0x") + p.lower(x.termsSha256))
    ensures FieldPasses(p, x, 4) <==> Passes(DisputeSchema(p), DisputeOf(p, x))
    ensures FieldPasses(p, x, 6) <==> p.isUrl(x.apiUrl)
  {
    hide *;
    FieldIs(p, x, 0);
    FieldIs(p, x, 2);
    FieldIs(p, x, 4);
    FieldIs(p, x, 6);
    Schemas(p);
    FirstValues(p, x);
    FormatPasses(p.isUrl, x.termsUrl);
    FormatPasses(p.isUrl, x.apiUrl);
  }

  lemma IdentityPasses(p: Platform, x: BuildInput)
    requires x.version > 0
    ensures FieldPasses(p, x, 8) <==> p.isUuid(x.contextId)
    ensures FieldPasses(p, x, 10) <==> x.tenantDomain != []
  {
    hide *;
    FieldIs(p, x, 8);
    FieldIs(p, x, 10);
    Schemas(p);
    FirstValues(p, x);
    LastValues(p, x);
    FormatPasses(p.isUuid, x.contextId);
    AnyPasses(x.tenantDomain);
  }

  lemma ProviderPasses(p: Platform, x: BuildInput)
    requires x.version > 0
    ensures FieldPasses(p, x, 11) <==> Passes(PartySchema(p), PartyOf(x))
    ensures FieldPasses(p, x, 13) <==> LongEnough(x.jurisdictions)
  {
    hide *;
    FieldIs(p, x, 11);
    FieldIs(p, x, 13);
    Schemas(p);
    LastValues(p, x);
    JurisdictionsParseIff(x.jurisdictions);
  }

  lemma DefaultsPass(p: Platform, x: BuildInput)
    requires x.version > 0
    ensures FieldPasses(p, x, 1) && FieldPasses(p, x, 3) && FieldPasses(p, x, 5) && FieldPasses(p, x, 7)
  {
    hide *;
    FieldIs(p, x, 1);
    FieldIs(p, x, 3);
    FieldIs(p, x, 5);
    FieldIs(p, x, 7);
    Schemas(p);
    FirstValues(p, x);
    MarkdownPasses();
    SpecVersionPasses();
    FlagPasses();
    ContactParses(x);
  }

  lemma ConstantsPass(p: Platform, x: BuildInput)
    requires x.version > 0
    ensures FieldPasses(p, x, 9) && FieldPasses(p, x, 12) && FieldPasses(p, x, 14)
    ensures FieldPasses(p, x, 15) && FieldPasses(p, x, 16) && FieldPasses(p, x, 17)
  {
    hide *;
    FieldIs(p, x, 9);
    FieldIs(p, x, 12);
    FieldIs(p, x, 14);
    FieldIs(p, x, 15);
    FieldIs(p, x, 16);
    FieldIs(p, x, 17);
    Schemas(p);
    LastValues(p, x);
    VersionPasses(x.version);
    AnyPasses(x.termsEffectiveDate);
    AnyPasses(x.now);
    ConsentsParse();
    ChannelsParse(x);
    SettlementParses();
  }

  /** The conditions on the fields together. */
  lemma AllFieldsPassIff(p: Platform, x: BuildInput)
    requires x.version > 0
    ensures (forall k: nat :: k < 18 ==> FieldPasses(p, x, k)) <==>
            && p.isUrl(x.termsUrl) && IsAtrHash(T("0x") + p.lower(x.termsSha256))
            && Passes(DisputeSchema(p), DisputeOf(p, x))
            && p.isUrl(x.apiUrl) && p.isUuid(x.contextId) && x.tenantDomain != []
            && Passes(PartySchema(p), PartyOf(x)) && LongEnough(x.jurisdictions)
  {
    hide *;
    FieldsPass(p, x);
    IdentityPasses(p, x);
    ProviderPasses(p, x);
    DefaultsPass(p, x);
    ConstantsPass(p, x);
  }

  lemma BuildsIff(p: Platform, x: BuildInput)
    requires x.version > 0
    ensures BuildLegalContext(p, x).Some? <==> Acceptable(p, x)
  {
    hide Keys, BuildLegalContext, Parse, T, IsAtrHash, SourcePage, LongEnough, DisputeSchema, DisputeOf, PartySchema, PartyOf,
         FieldPasses, ValuesBuilt, ContextShape;
    LiteralParsesIff(p, x);
    AllFieldsPassIff(p, x);
    PartyParsesIff(p, x);
    if LongEnough(x.jurisdictions) {
      DisputeParsesIff(p, x);
    }
  }

  lemma BuiltHashes(p: Platform, x: BuildInput)
    requires x.version > 0 && BuildLegalContext(p, x).Some?
    ensures Valid(BuildLegalContext(p, x).value) && HashLegalContext(p, BuildLegalContext(p, x).value).Some?
  {
    BuiltSound(p, x);
    hide BuildLegalContext, Literal, ContextSchema, Described, Parse;
  }

  /** What the schema makes of a request in terms of the request alone. */
  ghost predicate RequestAcceptable(p: Platform, existing: Option<Row>, x: PublishInput) {
    && p.isUrl(x.termsUrl) && SixtyFourHex(p.lower(p.sha256(Encode(x.termsText))))
    && (forall b :: Unslashed(x.apiBaseUrl, b) ==> p.isUrl(b + T("/api/v1/legal")))
    && p.isUuid(if existing.Some? then existing.value.contextId else x.newContextId)
    && x.tenantDomain != [] && x.providerLegalName != [] && |x.providerJurisdiction| >= 2
    && x.providerContactEmail != [] && p.isEmail(x.providerContactEmail)
    && x.jurisdictions != [] && (forall i :: 0 <= i < |x.jurisdictions| ==> |x.jurisdictions[i]| >= 2)
    && p.isUrl(T("https://") + x.tenantDomain + T("/legal/disputes/") + p.lower(x.jurisdictions[0]))
  }

  predicate SixtyFourHex(h: Text) {
    |h| == 64 && forall i :: 0 <= i < 64 ==> h[i] in T("0123456789abcdef")
  }

  lemma AtrHashIff(h: Text)
    ensures IsAtrHash(T("0x") + h) <==> SixtyFourHex(h)
  {
    var t := T("0x") + h;
    assert t[2..] == h && t[..2] == T("0x");
    HexMembers();
    hide T;
  }

  lemma HexMembers()
    ensures forall u: Unit :: u in T("0123456789abcdef") <==> 0x30 <= u <= 0x39 || 0x61 <= u <= 0x66
  {
    var hex := T("0123456789abcdef");
    forall u: Unit
      ensures u in hex <==> 0x30 <= u <= 0x39 || 0x61 <= u <= 0x66
    {
      if 0x30 <= u <= 0x39 {
        assert hex[u - 0x30] == u;
      } else if 0x61 <= u <= 0x66 {
        assert hex[u - 0x61 + 10] == u;
      }
    }
  }

  /** `base` without one trailing slash. */
  predicate Unslashed(base: Text, b: Text) {
    base == b + T("/") || (base == b && (base == [] || base[|base| - 1] != T("/")[0]))
  }

  lemma UnslashedApi(base: Text, b: Text)
    requires Unslashed(base, b)
    ensures ApiUrl(base) == b + T("/api/v1/legal")
  {
    assert T("/") == [0x2F];
    assert (b + T("/"))[..|b|] == b;
  }

  lemma SomeUnslashed(base: Text) returns (b: Text)
    ensures Unslashed(base, b)
  {
    assert T("/") == [0x2F];
    b := if base != [] && base[|base| - 1] == 0x2F then base[..|base| - 1] else base;
    assert base != [] ==> base == base[..|base| - 1] + [base[|base| - 1]];
  }

  lemma AcceptableIff(p: Platform, existing: Option<Row>, x: PublishInput)
    ensures Acceptable(p, BuildFor(p, existing, x)) <==> RequestAcceptable(p, existing, x)
  {
    var b := SomeUnslashed(x.apiBaseUrl);
    AtrHashIff(p.lower(p.sha256(Encode(x.termsText))));
    hide SixtyFourHex, T, ApiUrl, Unslashed, IsAtrHash;
    UnslashedApi(x.apiBaseUrl, b);
    forall c | Unslashed(x.apiBaseUrl, c)
      ensures c + T("/api/v1/legal") == b + T("/api/v1/legal")
    {
      UnslashedApi(x.apiBaseUrl, c);
    }
  }

  lemma PublishedIff(p: Platform, existing: Option<Row>, x: PublishInput, store: Value -> Value, input: BuildInput)
    requires x.termsText != [] && input == BuildFor(p, existing, x) && input.version > 0
    ensures Published(p, existing, x, store).Some? <==> BuildLegalContext(p, input).Some? && x.upsertTaken
  {
    hide BuildFor, BuildLegalContext, HashLegalContext, Literal, ContextSchema, Parse;
    if BuildLegalContext(p, input).Some? {
      BuiltHashes(p, input);
    }
  }

  /** A publish goes through exactly when the terms have a text, the request has the formats and lengths
      of the schema (the dispute page made from the tenant's domain included), and the database takes
      the row. */
  lemma PublishesIff(p: Platform, existing: Option<Row>, x: PublishInput, store: Value -> Value)
    ensures Published(p, existing, x, store).Some? <==>
            x.termsText != [] && RequestAcceptable(p, existing, x) && x.upsertTaken
  {
    AcceptableIff(p, existing, x);
    if x.termsText != [] {
      var input := BuildFor(p, existing, x);
      assert input.version > 0;
      hide *;
      PublishedIff(p, existing, x, store, input);
      BuildsIff(p, input);
    }
  }
}
