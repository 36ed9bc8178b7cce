/** The legal-context service over its table, one row per tenant. */
module LegalService {
  import opened Wrappers
  import opened Texts
  import opened Json
  import opened LegalDocument
  import opened LegalContext
  import opened LegalHistory
  import opened LegalBinding
  import opened LegalPublishing
  import opened LegalRequest

  class Service {
    const platform: Platform
    var rows: map<Tenant, Row>

    constructor (platform: Platform)
      ensures this.platform == platform && rows == map[]
    {
      this.platform := platform;
      rows := map[];
    }

    function RowOf(tenant: Tenant): Option<Row>
      reads this
    {
      if tenant in rows then Some(rows[tenant]) else None
    }

    /** Every stored row is sound. */
    ghost predicate Valid()
      reads this
    {
      forall t :: t in rows ==> Sound(platform, rows[t])
    }

    /** Writes the next version for the tenant, saying what the request said, or throws and writes
        nothing. `store` is what the database makes of a document. */
    method Publish(tenant: Tenant, x: PublishInput, store: Value -> Value) returns (ok: bool)
      requires Valid() && KeepsDocuments(store)
      modifies this
      ensures Valid()
      ensures ok == Published(platform, old(RowOf(tenant)), x, store).Some?
      ensures ok <==> x.termsText != [] && RequestAcceptable(platform, old(RowOf(tenant)), x) && x.upsertTaken
      ensures ok ==> tenant in rows && SaysRequest(platform, rows[tenant].document, x)
      ensures ok ==> Read(platform, rows[tenant]).Some? && SaysRequest(platform, Read(platform, rows[tenant]).value, x)
      ensures RowOf(tenant) == if ok then Published(platform, old(RowOf(tenant)), x, store) else old(RowOf(tenant))
      ensures forall t :: t != tenant ==> RowOf(t) == old(RowOf(t))
    {
      hide Sound, Published, RequestAcceptable, SaysRequest, Read;
      PublishesIff(platform, RowOf(tenant), x, store);
      var row := Published(platform, RowOf(tenant), x, store);
      if row.None? {
        return false;
      }
      PublishedSound(platform, RowOf(tenant), x, store);
      PublishedSaysRequest(platform, RowOf(tenant), x, store);
      rows := rows[tenant := row.value];
      ok := true;
    }

    /** The document that is served, and the hash stored with it. */
    method GetForTenant(tenant: Tenant) returns (r: Option<(Value, Hash)>)
      requires Valid()
      ensures r.Some? <==> tenant in rows
      ensures r.Some? ==> Json.Valid(r.value.0) && SdkHash(platform, r.value.0) == Some(r.value.1)
      ensures r.Some? ==> r.value.1 == rows[tenant].hash
    {
      if tenant !in rows {
        return None;
      }
      var row := rows[tenant];
      assert Sound(platform, row);
      r := Some((Read(platform, row).value, row.hash));
    }

    /** What an action may rely on: it binds exactly when the tenant has published and every consent
        it names is one of the two in the context. */
    method Bind(tenant: Tenant, satisfied: seq<Text>) returns (r: Result<Binding, BindError>)
      requires Valid()
      ensures r == BindForAction(platform, RowOf(tenant), satisfied)
      ensures r.Ok? <==> tenant in rows && forall id :: id in satisfied ==>
                           id == T(TREASURY_MANAGEMENT) || id == T(PAYROLL_EXECUTION)
      ensures r.Ok? ==> r.value.hash == rows[tenant].hash
    {
      hide Sound, BindForAction, T, VerifyBinding;
      BindForActionIff(platform, RowOf(tenant), satisfied);
      r := BindForAction(platform, RowOf(tenant), satisfied);
    }
  }
}
