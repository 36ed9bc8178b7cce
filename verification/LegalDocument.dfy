/** The legal-context document: its schema, and the document that the platform builds. */
module LegalDocument {
  import opened Wrappers
  import opened Decimals
  import opened Texts
  import opened Json
  import opened Schema

  /** What the platform takes from its libraries: string formats, case mapping and SHA-256. */
  datatype Platform = Platform(
    isUrl: Text -> bool,
    isEmail: Text -> bool,
    isUuid: Text -> bool,
    lower: Text -> Text,
    sha256: seq<CodePoint> -> Text)

  predicate LowerHex(t: Text) {
    forall i :: 0 <= i < |t| ==> 0x30 <= t[i] <= 0x39 || 0x61 <= t[i] <= 0x66
  }

  /** `^0x[0-9a-f]{64}$`. */
  predicate IsAtrHash(t: Text) {
    |t| == 66 && t[..2] == T("0x") && LowerHex(t[2..])
  }

  predicate IsClauseId(t: Text) {
    |t| >= 7 && t[..7] == T("sha256:") && IsAtrHash(t[7..])
  }

  predicate OneOf(t: Text, options: seq<string>) {
    exists i :: 0 <= i < |options| && t == T(options[i])
  }

  /** z.number().int().positive(). */
  predicate IsPositiveInteger(x: Number) {
    x.Finite? && !x.negative && |x.digits| <= x.point
  }

  function MinLength(n: nat): Text -> bool { (t: Text) => |t| >= n }

  function Enum(options: seq<string>): Schema { StringOf((t: Text) => OneOf(t, options)) }

  function Required(key: string, schema: Schema): Field { Field(T(key), schema, Presence.Required) }

  function Optional(key: string, schema: Schema): Field { Field(T(key), schema, Presence.Optional) }

  function Defaulted(key: string, schema: Schema, value: Value): Field { Field(T(key), schema, Default(value)) }

  function AnyText(): Schema { StringOf((t: Text) => true) }

  function NonEmpty(): Schema { StringOf(MinLength(1)) }

  function PartySchema(p: Platform): Schema {
    ObjectOf([
      Required("legalName", NonEmpty()),
      Required("jurisdiction", StringOf(MinLength(2))),
      Optional("registrationId", AnyText()),
      Required("contactEmail", StringOf(p.isEmail))])
  }

  const SCOPES: seq<string> := ["treasury", "payroll", "yield", "onramp", "offramp"]

  function ConsentSchema(): Schema {
    ObjectOf([
      Required("id", NonEmpty()),
      Required("description", NonEmpty()),
      Defaulted("required", Boolean, Bool(true)),
      Required("scope", ArrayOf(Enum(SCOPES), 1))])
  }

  function ChannelSchema(): Schema {
    ObjectOf([
      Required("type", Enum(["arbitration", "mediation", "court", "ombudsman"])),
      Required("provider", NonEmpty()),
      Required("venue", NonEmpty()),
      Required("governingLaw", NonEmpty()),
      Defaulted("language", AnyText(), Str(T("en")))])
  }

  function DisputeSchema(p: Platform): Schema {
    ObjectOf([
      Required("method", NonEmpty()),
      Required("jurisdiction", NonEmpty()),
      Required("contact", NonEmpty()),
      Optional("clauseId", StringOf((t: Text) => IsClauseId(t))),
      Optional("source", StringOf(p.isUrl)),
      Optional("catalog", StringOf(p.isUrl))])
  }

  function ContactSchema(): Schema {
    ObjectOf([Optional("legal", AnyText()), Optional("technical", AnyText())])
  }

  function SettlementSchema(): Schema {
    ObjectOf([Required("networks", ArrayOf(AnyText(), 1)), Required("assets", ArrayOf(AnyText(), 1))])
  }

  const SPEC_VERSION: string := "0.2.0"
  const SPEC_VERSIONS: seq<string> := [SPEC_VERSION]
  const FORMATS: seq<string> := ["markdown", "json", "plain", "html", "pdf"]

  const CONTEXT_ID: nat := 8
  const VERSION: nat := 9
  const CONSENT_REQUIREMENTS: nat := 14

  function Keys(): (keys: seq<string>)
    ensures |keys| == 18
  {
    ["terms", "termsFormat", "atrHash", "acceptanceRequired", "disputeResolution", "contact", "api", "specVersion",
     "contextId", "version", "tenantDomain", "provider", "termsEffectiveDate", "jurisdictions", "consentRequirements",
     "disputeChannels", "settlement", "publishedAt"]
  }

  function ContextShape(p: Platform): (shape: seq<Field>)
    ensures |shape| == |Keys()| && forall i :: 0 <= i < |shape| ==> shape[i].key == T(Keys()[i])
  {
    [
      Required("terms", StringOf(p.isUrl)),
      Defaulted("termsFormat", Enum(FORMATS), Str(T("markdown"))),
      Required("atrHash", StringOf((t: Text) => IsAtrHash(t))),
      Defaulted("acceptanceRequired", Boolean, Bool(true)),
      Required("disputeResolution", DisputeSchema(p)),
      Optional("contact", ContactSchema()),
      Optional("api", StringOf(p.isUrl)),
      Defaulted("specVersion", Enum(SPEC_VERSIONS), Str(T(SPEC_VERSION))),
      Required("contextId", StringOf(p.isUuid)),
      Required("version", NumberOf((x: Number) => IsPositiveInteger(x))),
      Required("tenantDomain", NonEmpty()),
      Required("provider", PartySchema(p)),
      Required("termsEffectiveDate", AnyText()),
      Required("jurisdictions", ArrayOf(StringOf(MinLength(2)), 1)),
      Required("consentRequirements", ArrayOf(ConsentSchema(), 1)),
      Required("disputeChannels", ArrayOf(ChannelSchema(), 1)),
      Required("settlement", SettlementSchema()),
      Required("publishedAt", AnyText())]
  }

  function ContextSchema(p: Platform): Schema { ObjectOf(ContextShape(p)) }

  // ---- The schema is well formed ----

  lemma KeysAreAscii(i: nat)
    requires i < |Keys()|
    ensures |Keys()[i]| >= 1 && Keys()[i][0] as int < 0x80
  {
  }

  /** Two keys differ in their length or in their first letter. */
  lemma KeysDiffer(i: nat, j: nat)
    requires i < j < |Keys()|
    ensures |Keys()[i]| >= 1 && |Keys()[j]| >= 1
    ensures |Keys()[i]| != |Keys()[j]| || Keys()[i][0] != Keys()[j][0]
  {
  }

  lemma KeysDistinct()
    ensures forall i, j :: 0 <= i < j < |Keys()| ==> T(Keys()[i]) != T(Keys()[j])
  {
    hide Keys, T;
    forall i, j | 0 <= i < j < |Keys()|
      ensures T(Keys()[i]) != T(Keys()[j])
    {
      KeysDiffer(i, j);
      KeysAreAscii(i);
      KeysAreAscii(j);
      assert T(Keys()[i])[0] == Keys()[i][0] as int && T(Keys()[j])[0] == Keys()[j][0] as int;
    }
  }

  lemma PartyWellFormed(p: Platform)
    ensures WellFormedSchema(PartySchema(p))
  {
    assert T("jurisdiction")[0] != T("contactEmail")[0];
  }

  lemma ConsentWellFormed()
    ensures WellFormedSchema(ConsentSchema())
  {
  }

  lemma ChannelWellFormed()
    ensures WellFormedSchema(ChannelSchema())
  {
    assert T("provider")[0] != T("language")[0];
  }

  lemma DisputeWellFormed(p: Platform)
    ensures WellFormedSchema(DisputeSchema(p))
  {
    assert T("method")[0] != T("source")[0];
    assert T("contact")[1] != T("catalog")[1];
  }

  lemma PairsWellFormed()
    ensures WellFormedSchema(ContactSchema()) && WellFormedSchema(SettlementSchema())
  {
  }

  lemma ContextSchemaWellFormed(p: Platform)
    ensures WellFormedSchema(ContextSchema(p))
  {
    KeysDistinct();
    PartyWellFormed(p);
    ConsentWellFormed();
    ChannelWellFormed();
    DisputeWellFormed(p);
    PairsWellFormed();
    hide Keys, T, PartySchema, ConsentSchema, ChannelSchema, DisputeSchema, ContactSchema, SettlementSchema;
  }

  // ---- The document that publish builds ----

  /** A version number as JavaScript holds it. */
  function VersionNumber(v: nat): Value
    requires v > 0
  {
    Num(Finite(false, StripTrailing(ToDigits(v)), |ToDigits(v)|))
  }

  lemma VersionNumberInjective(v: nat, w: nat)
    requires v > 0 && w > 0 && VersionNumber(v) == VersionNumber(w)
    ensures v == w
  {
    hide ToDigits, FromDigits, StripTrailing;
    ValueOfToDigits(v);
    ValueOfToDigits(w);
    StripTrailingValue(ToDigits(v));
    StripTrailingValue(ToDigits(w));
  }

  datatype BuildInput = BuildInput(
    contextId: Text,
    version: nat,
    tenantDomain: Text,
    providerLegalName: Text,
    providerJurisdiction: Text,
    providerContactEmail: Text,
    termsUrl: Text,
    termsSha256: Text,
    termsEffectiveDate: Text,
    jurisdictions: seq<Text>,
    apiUrl: Text,
    now: Text)

  function M(key: string, v: Value): Member { Member(T(key), v) }

  function JoinWith(parts: seq<Text>, separator: Text): Text {
    if parts == [] then []
    else if |parts| == 1 then parts[0]
    else parts[0] + separator + JoinWith(parts[1..], separator)
  }

  function Texts2(options: seq<string>): seq<Value> {
    seq(|options|, i requires 0 <= i < |options| => Str(T(options[i])))
  }

  function DisputePage(domain: Text, country: Text): Text {
    T("https://") + domain + T("/legal/disputes/") + country
  }

  function DisputeOf(p: Platform, x: BuildInput): Value {
    Obj([
      M("method", Str(T("Contextio arbitration ") + [0x2014] +
                      T(" see `disputeChannels` for the per-jurisdiction venue (") +
                      JoinWith(x.jurisdictions, T("/")) + T(")"))),
      M("jurisdiction", Str(JoinWith(x.jurisdictions, T(", ")))),
      M("contact", Str(x.providerContactEmail)),
      M("source", Str(DisputePage(x.tenantDomain,
                                  if x.jurisdictions == [] then T("br") else p.lower(x.jurisdictions[0]))))])
  }

  function ConsentOf(id: string, description: string, scope: seq<string>): Value {
    Obj([M("id", Str(T(id))), M("description", Str(T(description))), M("required", Bool(true)),
         M("scope", Arr(Texts2(scope)))])
  }

  function ConsentsBuilt(): seq<Value> {
    [ConsentOf("treasury-management", "Authorize AI agents to allocate idle treasury between liquidity and yield.",
               ["treasury", "yield"]),
     ConsentOf("payroll-execution", "Authorize scheduled payroll settlement to listed employees/contractors.",
               ["payroll", "offramp"])]
  }

  function ChannelOf(x: BuildInput, place: string, country: string, law: string, language: string): Value {
    Obj([M("type", Str(T("arbitration"))),
         M("provider", Str(T("Contextio arbitration ") + [0x2014] + T(" ") + T(place))),
         M("venue", Str(DisputePage(x.tenantDomain, T(country)))),
         M("governingLaw", Str(T(law))),
         M("language", Str(T(language)))])
  }

  function ChannelsOf(x: BuildInput): Value {
    Arr([ChannelOf(x, "Brazil", "br", "BR", "pt"), ChannelOf(x, "Argentina", "ar", "AR", "es"),
         ChannelOf(x, "Colombia", "co", "CO", "es"), ChannelOf(x, "Switzerland (EMEA)", "ch", "CH", "en")])
  }

  function SettlementOf(): Value {
    Obj([M("networks", Arr(Texts2(["stellar:testnet", "stellar:pubnet"]))),
         M("assets", Arr(Texts2(["USDC", "XLM", "BRL", "ARS", "COP", "EURC"])))])
  }

  function ContactOf(x: BuildInput): Value {
    Obj([M("legal", Str(x.providerContactEmail)), M("technical", Str(x.providerContactEmail))])
  }

  function JurisdictionsOf(js: seq<Text>): Value {
    Arr(seq(|js|, i requires 0 <= i < |js| => Str(js[i])))
  }

  function PartyOf(x: BuildInput): Value {
    Obj([M("legalName", Str(x.providerLegalName)), M("jurisdiction", Str(x.providerJurisdiction)),
         M("contactEmail", Str(x.providerContactEmail))])
  }

  function ValuesBuilt(p: Platform, x: BuildInput): (vs: seq<Value>)
    requires x.version > 0
    ensures |vs| == |Keys()|
  {
    [ Str(x.termsUrl),
      Str(T("markdown")),
      Str(T("0x") + p.lower(x.termsSha256)),
      Bool(true),
      DisputeOf(p, x),
      ContactOf(x),
      Str(x.apiUrl),
      Str(T(SPEC_VERSION)),
      Str(x.contextId),
      VersionNumber(x.version),
      Str(x.tenantDomain),
      PartyOf(x),
      Str(x.termsEffectiveDate),
      JurisdictionsOf(x.jurisdictions),
      Arr(ConsentsBuilt()),
      ChannelsOf(x),
      SettlementOf(),
      Str(x.now)]
  }

  /** The literal that buildLegalContext hands to the schema. */
  function Literal(p: Platform, x: BuildInput): Value
    requires x.version > 0
  {
    var vs := ValuesBuilt(p, x);
    Obj(seq(|Keys()|, i requires 0 <= i < |Keys()| => Member(T(Keys()[i]), vs[i])))
  }

  function BuildLegalContext(p: Platform, x: BuildInput): Option<Value>
    requires x.version > 0
  {
    Parse(ContextSchema(p), Literal(p, x))
  }
}
