/** Publishing, serving and binding legal contexts. */
module LegalContext {
  import opened Wrappers
  import opened Decimals
  import opened Texts
  import opened Json
  import opened CanonicalJson
  import opened CanonicalForm
  import opened Schema
  import opened LegalDocument

  type Hash = Text

  // ---- Hashes ----

  /** The platform's hash: parse first, then SHA-256 over the canonical text. */
  function HashLegalContext(p: Platform, v: Value): Option<Hash>
    requires Valid(v)
  {
    ContextSchemaWellFormed(p);
    if Parse(ContextSchema(p), v).Some? then
      ParsePrintable(ContextSchema(p), v);
      PrintableIff(Parse(ContextSchema(p), v).value);
      Some(p.sha256(Encode(Serialize(Parse(ContextSchema(p), v).value).value)))
    else None
  }

  /** The SDK's hash: the document as it was served. */
  function SdkHash(p: Platform, v: Value): Option<Hash>
    requires Valid(v)
  {
    var text := Serialize(v);
    if text.Ok? then Some(p.sha256(Encode(text.value))) else None
  }

  /** The SDK's check of a served document against a hash it was told, up to the case of the hex. */
  predicate SdkVerify(p: Platform, v: Value, expected: Hash)
    requires Valid(v)
  {
    SdkHash(p, v).Some? && p.lower(SdkHash(p, v).value) == p.lower(expected)
  }

  // ---- Binding ----

  datatype Consent = Consent(id: Text, required: bool)

  datatype Binding = Binding(contextId: Value, version: Value, hash: Hash, consents: seq<Text>)

  datatype BindError = NoContext | UnknownConsent(ids: seq<Text>) | MissingConsent(ids: seq<Text>) | Unverified | InvalidDocument

  function ConsentAt(v: Value): Consent {
    if !v.Obj? then Consent([], false)
    else
      var id, required := Lookup(v.members, T("id")), Lookup(v.members, T("required"));
      Consent(if id.Str? then id.text else [], required.Bool? && required.b)
  }

  function ConsentRequirements(document: Value): seq<Consent>
    requires document.Obj?
  {
    var v := Lookup(document.members, T("consentRequirements"));
    if v.Arr? then seq(|v.items|, i requires 0 <= i < |v.items| => ConsentAt(v.items[i])) else []
  }

  function Ids(cs: seq<Consent>): (ids: seq<Text>)
    ensures forall id :: id in ids <==> exists i :: 0 <= i < |cs| && cs[i].id == id
  {
    if cs == [] then []
    else
      assert cs == [cs[0]] + cs[1..];
      [cs[0].id] + Ids(cs[1..])
  }

  function RequiredIds(cs: seq<Consent>): (ids: seq<Text>)
    ensures forall id :: id in ids <==> exists i :: 0 <= i < |cs| && cs[i].id == id && cs[i].required
  {
    if cs == [] then []
    else
      assert cs == [cs[0]] + cs[1..];
      (if cs[0].required then [cs[0].id] else []) + RequiredIds(cs[1..])
  }

  /** `ids.filter((c) => !among.includes(c))`. */
  function Without(ids: seq<Text>, among: seq<Text>): (r: seq<Text>)
    ensures forall id :: id in r <==> id in ids && id !in among
  {
    if ids == [] then []
    else
      assert ids == [ids[0]] + ids[1..];
      (if ids[0] in among then [] else [ids[0]]) + Without(ids[1..], among)
  }

  predicate NoRepeats(ids: seq<Text>) {
    forall i, j :: 0 <= i < j < |ids| ==> ids[i] != ids[j]
  }

  /** `Array.from(new Set(ids))`. */
  function Distinct(ids: seq<Text>): (r: seq<Text>)
    ensures NoRepeats(r)
    ensures forall id :: id in r <==> id in ids
  {
    if ids == [] then []
    else
      var init, last := ids[..|ids| - 1], ids[|ids| - 1];
      assert ids == init + [last];
      var r := Distinct(init);
      if last in r then r else r + [last]
  }

  function BindLegalContext(p: Platform, document: Value, consents: seq<Text>): Result<Binding, BindError>
    requires Valid(document) && document.Obj?
  {
    var cs := ConsentRequirements(document);
    var unknown := Without(consents, Ids(cs));
    if unknown != [] then Err(UnknownConsent(unknown))
    else
      var missing := Without(RequiredIds(cs), consents);
      if missing != [] then Err(MissingConsent(missing))
      else
        var hash := HashLegalContext(p, document);
        if hash.None? then Err(InvalidDocument)
        else Ok(Binding(Lookup(document.members, T("contextId")), Lookup(document.members, T("version")),
                        hash.value, consents))
  }

  predicate VerifyBinding(p: Platform, document: Value, b: Binding)
    requires Valid(document) && document.Obj?
  {
    && b.contextId == Lookup(document.members, T("contextId"))
    && b.version == Lookup(document.members, T("version"))
    && Some(b.hash) == HashLegalContext(p, document)
  }

  // ---- The stored rows ----

  type Tenant = string

  /** The row of a tenant: publish reuses its id, so there is one. */
  datatype Row = Row(id: string, contextId: Text, version: nat, document: Value, hash: Hash)

  /** The request of a publish, the clock, the random ids it would draw, and whether the database takes
      the row. */
  datatype PublishInput = PublishInput(
    tenantDomain: Text,
    providerLegalName: Text,
    providerJurisdiction: Text,
    providerContactEmail: Text,
    termsUrl: Text,
    termsText: Text,
    jurisdictions: seq<Text>,
    apiBaseUrl: Text,
    today: Text,
    now: Text,
    newContextId: Text,
    newRowId: string,
    upsertTaken: bool)

  /** Storage gives back the document it was given, with its keys in any order. */
  ghost predicate KeepsDocuments(store: Value -> Value) {
    forall v :: Valid(v) ==> Valid(store(v)) && Equivalent(v, store(v))
  }

  function NextVersion(existing: Option<Row>): (v: nat)
    ensures v > 0
  {
    if existing.Some? then existing.value.version + 1 else 1
  }

  function BuildFor(p: Platform, existing: Option<Row>, x: PublishInput): BuildInput {
    BuildInput(
      if existing.Some? then existing.value.contextId else x.newContextId,
      NextVersion(existing),
      x.tenantDomain, x.providerLegalName, x.providerJurisdiction, x.providerContactEmail, x.termsUrl,
      p.sha256(Encode(x.termsText)), x.today, x.jurisdictions, ApiUrl(x.apiBaseUrl), x.now)
  }

  /** One trailing slash of the base is dropped. */
  function ApiUrl(base: Text): Text {
    (if base != [] && base[|base| - 1] == 0x2F then base[..|base| - 1] else base) + T("/api/v1/legal")
  }

  /** The row that a publish writes; None when it throws. */
  function Published(p: Platform, existing: Option<Row>, x: PublishInput, store: Value -> Value): Option<Row> {
    if x.termsText == [] then None
    else
      var input := BuildFor(p, existing, x);
      LiteralValid(p, input);
      ContextSchemaWellFormed(p);
      var document :- BuildLegalContext(p, input);
      ParsePrintable(ContextSchema(p), Literal(p, input));
      ParseIdempotent(ContextSchema(p), Literal(p, input));
      var hash :- HashLegalContext(p, document);
      if !x.upsertTaken then None
      else
        Some(Row(if existing.Some? then existing.value.id else x.newRowId, input.contextId, input.version,
                 store(document), hash))
  }

  lemma MembersValid(ms: seq<Member>)
    requires DistinctKeys(ms) && forall i :: 0 <= i < |ms| ==> Valid(ms[i].value)
    ensures Valid(Obj(ms))
  {
  }

  lemma TextsValid(options: seq<string>)
    ensures Valid(Arr(Texts2(options)))
  {
  }

  lemma ConsentValid(id: string, description: string, scope: seq<string>)
    ensures Valid(ConsentOf(id, description, scope))
  {
    TextsValid(scope);
    hide Texts2;
  }

  lemma ChannelValid(x: BuildInput, place: string, country: string, law: string, language: string)
    ensures Valid(ChannelOf(x, place, country, law, language))
  {
    assert T("provider")[0] != T("language")[0];
  }

  lemma DisputeValid(p: Platform, x: BuildInput)
    ensures Valid(DisputeOf(p, x))
  {
    assert T("method")[0] != T("source")[0];
  }

  lemma VersionValid(v: nat)
    requires v > 0
    ensures Valid(VersionNumber(v))
  {
    assert ToDigits(v)[0] != 0;
    hide ToDigits;
    StripKeepsFirst(ToDigits(v));
  }

  lemma StripKeepsFirst(ds: seq<Digit>)
    requires ds != [] && ds[0] != 0
    ensures StripTrailing(ds) != [] && StripTrailing(ds)[0] == ds[0]
  {
    assert StripTrailing(ds) == ds[..|StripTrailing(ds)|];
  }

  lemma ChannelsValid(x: BuildInput)
    ensures Valid(ChannelsOf(x))
  {
    ChannelValid(x, "Brazil", "br", "BR", "pt");
    ChannelValid(x, "Argentina", "ar", "AR", "es");
    ChannelValid(x, "Colombia", "co", "CO", "es");
    ChannelValid(x, "Switzerland (EMEA)", "ch", "CH", "en");
    hide ChannelOf;
  }

  lemma SettlementValid()
    ensures Valid(SettlementOf())
  {
    TextsValid(["stellar:testnet", "stellar:pubnet"]);
    TextsValid(["USDC", "XLM", "BRL", "ARS", "COP", "EURC"]);
    hide Texts2;
  }

  lemma PartyValid(x: BuildInput)
    ensures Valid(PartyOf(x)) && Valid(ContactOf(x)) && Valid(JurisdictionsOf(x.jurisdictions))
  {
    assert T("jurisdiction")[0] != T("contactEmail")[0];
  }

  lemma ConsentsValid()
    ensures Valid(Arr(ConsentsBuilt()))
  {
    ConsentValid("treasury-management", "Authorize AI agents to allocate idle treasury between liquidity and yield.",
                 ["treasury", "yield"]);
    ConsentValid("payroll-execution", "Authorize scheduled payroll settlement to listed employees/contractors.",
                 ["payroll", "offramp"]);
    hide ConsentOf;
  }

  lemma ValuesValid(p: Platform, x: BuildInput, i: nat)
    requires x.version > 0 && i < |Keys()|
    ensures Valid(ValuesBuilt(p, x)[i])
  {
    VersionValid(x.version);
    DisputeValid(p, x);
    ConsentsValid();
    ChannelsValid(x);
    SettlementValid();
    PartyValid(x);
    hide ConsentsBuilt, ChannelsOf, SettlementOf, PartyOf, ContactOf, JurisdictionsOf, DisputeOf, VersionNumber, T;
  }

  lemma LiteralValid(p: Platform, x: BuildInput)
    requires x.version > 0
    ensures Valid(Literal(p, x))
  {
    KeysDistinct();
    hide ValuesBuilt, Keys, T;
    forall i | 0 <= i < |Keys()|
      ensures Valid(ValuesBuilt(p, x)[i])
    {
      ValuesValid(p, x, i);
    }
    MembersValid(Literal(p, x).members);
  }
}
