/** Binding an action to the published legal context, over whole publish histories. */
module LegalBinding {
  import opened Wrappers
  import opened Texts
  import opened Json
  import opened CanonicalJson
  import opened CanonicalForm
  import opened Schema
  import opened LegalDocument
  import opened LegalContext
  import opened LegalHistory

  /** bindForAction over the tenant's row. */
  function BindForAction(p: Platform, existing: Option<Row>, satisfied: seq<Text>): Result<Binding, BindError> {
    if existing.None? then Err(NoContext)
    else if !Valid(existing.value.document) then Err(InvalidDocument)
    else
      ContextSchemaWellFormed(p);
      var document := Read(p, existing.value);
      if document.None? || !document.value.Obj? then Err(InvalidDocument)
      else
        ParsePrintable(ContextSchema(p), existing.value.document);
        var required := RequiredIds(ConsentRequirements(document.value));
        var binding :- BindLegalContext(p, document.value, Distinct(required + satisfied));
        if VerifyBinding(p, document.value, binding) then Ok(binding) else Err(Unverified)
  }

  lemma EmptyWithout(ids: seq<Text>, among: seq<Text>)
    ensures Without(ids, among) == [] <==> forall id :: id in ids ==> id in among
  {
    if Without(ids, among) != [] {
      assert Without(ids, among)[0] in Without(ids, among);
    }
    forall id | id in ids && id !in among
      ensures Without(ids, among) != []
    {
      assert id in Without(ids, among);
    }
  }

  /** With the document's required consents put in, binding fails only on an unknown id. */
  lemma BindLegalContextIff(p: Platform, document: Value, satisfied: seq<Text>)
    requires Valid(document) && document.Obj? && HashLegalContext(p, document).Some?
    ensures var cs := ConsentRequirements(document);
            var consents := Distinct(RequiredIds(cs) + satisfied);
            var r := BindLegalContext(p, document, consents);
            && (r.Ok? <==> forall id :: id in satisfied ==> id in Ids(cs))
            && (r.Ok? ==> r.value.consents == consents && VerifyBinding(p, document, r.value))
            && (r.Err? ==> r.error.UnknownConsent? && forall id :: id in r.error.ids <==> id in satisfied && id !in Ids(cs))
  {
    hide HashLegalContext, ConsentRequirements, Lookup, Valid, T;
    var cs := ConsentRequirements(document);
    var consents := Distinct(RequiredIds(cs) + satisfied);
    EmptyWithout(consents, Ids(cs));
    EmptyWithout(RequiredIds(cs), consents);
    assert forall id :: id in RequiredIds(cs) ==> id in Ids(cs);
    assert forall id :: id in consents <==> id in RequiredIds(cs) || id in satisfied;
  }

  lemma BindRow(p: Platform, row: Row, satisfied: seq<Text>)
    requires Sound(p, row)
    ensures Valid(Read(p, row).value) && Read(p, row).value.Obj?
    ensures var d := Read(p, row).value;
            var r := BindLegalContext(p, d, Distinct(RequiredIds(ConsentRequirements(d)) + satisfied));
            BindForAction(p, Some(row), satisfied) ==
            (if r.Err? || VerifyBinding(p, d, r.value) then r else Err(Unverified))
  {
    hide BindLegalContext, VerifyBinding, Described, HashLegalContext, Parse, ConsentRequirements;
  }

  /** What the binding of a sound row says. */
  lemma BoundFields(p: Platform, row: Row, consents: seq<Text>)
    requires Sound(p, row)
    requires BindLegalContext(p, Read(p, row).value, consents).Ok?
    ensures BindLegalContext(p, Read(p, row).value, consents).value ==
            Binding(Str(row.contextId), VersionNumber(row.version), row.hash, consents)
  {
    SoundHash(p, row);
    hide Sound, Read, Parse, HashLegalContext, T, Lookup, ConsentRequirements, Valid, VersionNumber;
  }

  /** An action binds exactly when a context is published and every consent it relies on is in the
      context; the binding then holds every required consent and every requested one, none twice,
      and nothing else. */
  lemma BindForActionIff(p: Platform, existing: Option<Row>, satisfied: seq<Text>)
    requires existing.Some? ==> Sound(p, existing.value)
    ensures var r := BindForAction(p, existing, satisfied);
            && (r.Ok? <==> existing.Some? && forall id :: id in satisfied ==>
                             id == T(TREASURY_MANAGEMENT) || id == T(PAYROLL_EXECUTION))
            && (r.Ok? ==>
                  && NoRepeats(r.value.consents)
                  && (forall id :: id in r.value.consents <==> id == T(TREASURY_MANAGEMENT) || id == T(PAYROLL_EXECUTION))
                  && r.value == Binding(Str(existing.value.contextId), VersionNumber(existing.value.version),
                                        existing.value.hash, r.value.consents)
                  && VerifyBinding(p, Read(p, existing.value).value, r.value))
  {
    if existing.Some? {
      var row := existing.value;
      var d := Read(p, row).value;
      SoundHash(p, row);
      BindRow(p, row, satisfied);
      hide Sound, Read, HashLegalContext, T, Lookup, ConsentRequirements, Valid, BindLegalContext, VerifyBinding,
        BindForAction, VersionNumber;
      PublishedIds();
      BindLegalContextIff(p, d, satisfied);
      var consents := Distinct(RequiredIds(PublishedConsents()) + satisfied);
      if BindLegalContext(p, d, consents).Ok? {
        BoundFields(p, row, consents);
      }
    }
  }

  lemma PublishedIds()
    ensures forall id :: id in Ids(PublishedConsents()) <==> id == T(TREASURY_MANAGEMENT) || id == T(PAYROLL_EXECUTION)
    ensures forall id :: id in RequiredIds(PublishedConsents()) <==> id in Ids(PublishedConsents())
  {
    hide T, Ids, RequiredIds;
    var cs := PublishedConsents();
    assert cs[0].id == T(TREASURY_MANAGEMENT) && cs[1].id == T(PAYROLL_EXECUTION);
    assert |cs| == 2;
    forall id
      ensures id in Ids(cs) <==> id == T(TREASURY_MANAGEMENT) || id == T(PAYROLL_EXECUTION)
      ensures id in RequiredIds(cs) <==> id in Ids(cs)
    {
      assert id == cs[0].id ==> id in Ids(cs) && id in RequiredIds(cs);
      assert id == cs[1].id ==> id in Ids(cs) && id in RequiredIds(cs);
    }
  }

  lemma SoundHash(p: Platform, row: Row)
    requires Sound(p, row)
    ensures Valid(row.document) && Read(p, row).Some? && Read(p, row).value.Obj? && Valid(Read(p, row).value)
    ensures HashLegalContext(p, Read(p, row).value) == Some(row.hash)
    ensures Described(Read(p, row).value, row.contextId, row.version)
  {
    ContextSchemaWellFormed(p);
    ParseIdempotent(ContextSchema(p), row.document);
    hide ContextSchema, Described, Lookup;
  }

  /** The self-custody payroll path asks for a consent that no published context has, so its
      binding never succeeds. */
  lemma PrepareRunNeverBinds(p: Platform, existing: Option<Row>)
    requires existing.Some? ==> Sound(p, existing.value)
    ensures BindForAction(p, existing, [T(PAYROLL_EXECUTION), T("payroll-payout-contractors-only")]).Err?
  {
    var satisfied := [T(PAYROLL_EXECUTION), T("payroll-payout-contractors-only")];
    BindForActionIff(p, existing, satisfied);
    hide BindForAction, Sound;
    assert |satisfied[1]| == 31 && |T(PAYROLL_EXECUTION)| == 17 && |T(TREASURY_MANAGEMENT)| == 19;
    assert satisfied[1] in satisfied;
  }

  // ---- Publish histories ----

  datatype Publish = Publish(input: PublishInput, store: Value -> Value)

  ghost predicate KeptHistory(xs: seq<Publish>) {
    forall i :: 0 <= i < |xs| ==> KeepsDocuments(xs[i].store)
  }

  /** The row after the first i publishes; one that throws leaves it. */
  function RowAt(p: Platform, xs: seq<Publish>, i: nat): Option<Row>
    requires i <= |xs|
  {
    if i == 0 then None
    else
      var before := RowAt(p, xs, i - 1);
      var written := Published(p, before, xs[i - 1].input, xs[i - 1].store);
      if written.Some? then written else before
  }

  /** How many of the first i publishes succeeded. */
  function Successes(p: Platform, xs: seq<Publish>, i: nat): nat
    requires i <= |xs|
  {
    if i == 0 then 0
    else Successes(p, xs, i - 1) +
         (if Published(p, RowAt(p, xs, i - 1), xs[i - 1].input, xs[i - 1].store).Some? then 1 else 0)
  }

  lemma PublishedFields(p: Platform, existing: Option<Row>, x: PublishInput, store: Value -> Value)
    requires Published(p, existing, x, store).Some?
    ensures var row := Published(p, existing, x, store).value;
            && row.version == (if existing.Some? then existing.value.version + 1 else 1)
            && (existing.Some? ==> row.contextId == existing.value.contextId && row.id == existing.value.id)
  {
  }

  /** At every state of a publish history the row is sound and its version counts the successes. */
  lemma {:induction false} HistorySound(p: Platform, xs: seq<Publish>, i: nat)
    requires KeptHistory(xs) && i <= |xs|
    ensures RowAt(p, xs, i).Some? <==> Successes(p, xs, i) > 0
    ensures RowAt(p, xs, i).Some? ==> Sound(p, RowAt(p, xs, i).value) && RowAt(p, xs, i).value.version == Successes(p, xs, i)
  {
    hide Published, Sound;
    if i > 0 {
      HistorySound(p, xs, i - 1);
      var before, x := RowAt(p, xs, i - 1), xs[i - 1];
      if Published(p, before, x.input, x.store).Some? {
        PublishedSound(p, before, x.input, x.store);
        PublishedFields(p, before, x.input, x.store);
      }
    }
  }

  /** Later states keep the context id and the row id; the version tells whether anything was
      published in between. */
  lemma {:induction false} HistoryGrows(p: Platform, xs: seq<Publish>, i: nat, j: nat)
    requires i <= j <= |xs| && RowAt(p, xs, i).Some?
    ensures RowAt(p, xs, j).Some?
    ensures var a, b := RowAt(p, xs, i).value, RowAt(p, xs, j).value;
            && a.contextId == b.contextId && a.id == b.id && a.version <= b.version
            && (a.version == b.version ==> a == b)
    decreases j
  {
    hide Published;
    if i < j {
      HistoryGrows(p, xs, i, j - 1);
      var before, x := RowAt(p, xs, j - 1), xs[j - 1];
      if Published(p, before, x.input, x.store).Some? {
        PublishedFields(p, before, x.input, x.store);
      }
    }
  }

  lemma VerifiesAcross(p: Platform, a: Row, b: Row, satisfied: seq<Text>)
    requires Sound(p, a) && Sound(p, b) && a.contextId == b.contextId
    requires a.version == b.version ==> a == b
    requires BindForAction(p, Some(a), satisfied).Ok?
    ensures Valid(Read(p, b).value) && Read(p, b).value.Obj?
    ensures VerifyBinding(p, Read(p, b).value, BindForAction(p, Some(a), satisfied).value) <==> b.version == a.version
  {
    BindForActionIff(p, Some(a), satisfied);
    SoundHash(p, b);
    if VersionNumber(a.version) == VersionNumber(b.version) {
      VersionNumberInjective(a.version, b.version);
    }
    hide Sound, Read, HashLegalContext, Lookup, T, VersionNumber, ConsentRequirements, Valid, BindForAction;
  }

  /** A binding made at one state of a history verifies at another exactly when the version is still
      the same. */
  lemma BindingVerifiesIff(p: Platform, xs: seq<Publish>, i: nat, j: nat, satisfied: seq<Text>)
    requires KeptHistory(xs) && i <= j <= |xs|
    requires RowAt(p, xs, i).Some? && BindForAction(p, RowAt(p, xs, i), satisfied).Ok?
    ensures RowAt(p, xs, j).Some? && Sound(p, RowAt(p, xs, j).value)
    ensures VerifyBinding(p, Read(p, RowAt(p, xs, j).value).value, BindForAction(p, RowAt(p, xs, i), satisfied).value)
            <==> RowAt(p, xs, j).value.version == RowAt(p, xs, i).value.version
  {
    hide Published, BindForAction, RowAt, Sound, VerifyBinding, Read;
    HistorySound(p, xs, i);
    HistorySound(p, xs, j);
    HistoryGrows(p, xs, i, j);
    VerifiesAcross(p, RowAt(p, xs, i).value, RowAt(p, xs, j).value, satisfied);
  }

  lemma SdkAcceptsRow(p: Platform, row: Row, expected: Hash)
    requires Sound(p, row)
    ensures SdkVerify(p, Read(p, row).value, expected) <==> p.lower(row.hash) == p.lower(expected)
  {
    hide SdkHash, HashLegalContext, Described, Read;
  }

  lemma BoundHash(p: Platform, row: Row, satisfied: seq<Text>)
    requires Sound(p, row) && BindForAction(p, Some(row), satisfied).Ok?
    ensures BindForAction(p, Some(row), satisfied).value.hash == row.hash
  {
    hide BindForAction, Sound, VerifyBinding, NoRepeats, T;
    BindForActionIff(p, Some(row), satisfied);
  }

  /** The hash in a binding is one the SDK accepts for the document served at that time; for one
      served later it accepts it exactly if the stored hashes agree up to case. */
  lemma SdkAcceptsBoundHash(p: Platform, xs: seq<Publish>, i: nat, j: nat, satisfied: seq<Text>)
    requires KeptHistory(xs) && i <= j <= |xs|
    requires RowAt(p, xs, i).Some? && BindForAction(p, RowAt(p, xs, i), satisfied).Ok?
    ensures RowAt(p, xs, j).Some? && Sound(p, RowAt(p, xs, j).value)
    ensures var bound := BindForAction(p, RowAt(p, xs, i), satisfied).value.hash;
            && (SdkVerify(p, Read(p, RowAt(p, xs, j).value).value, bound) <==>
                p.lower(RowAt(p, xs, j).value.hash) == p.lower(RowAt(p, xs, i).value.hash))
            && (RowAt(p, xs, j).value.version == RowAt(p, xs, i).value.version ==>
                SdkVerify(p, Read(p, RowAt(p, xs, j).value).value, bound))
  {
    hide Published, BindForAction, RowAt, Sound, SdkVerify, Read, Successes, KeptHistory;
    HistorySound(p, xs, i);
    HistorySound(p, xs, j);
    HistoryGrows(p, xs, i, j);
    BoundHash(p, RowAt(p, xs, i).value, satisfied);
    SdkAcceptsRow(p, RowAt(p, xs, j).value, BindForAction(p, RowAt(p, xs, i), satisfied).value.hash);
  }

  /** A changed document passes for a binding only if its hash collides: with equal context id and
      version, verification compares the hashes of two texts that differ unless the documents are
      the same up to key order. */
  lemma TamperEvidence(p: Platform, document: Value, other: Value, b: Binding)
    requires Valid(document) && document.Obj? && Valid(other) && other.Obj?
    requires VerifyBinding(p, document, b) && VerifyBinding(p, other, b)
    ensures Parse(ContextSchema(p), document).Some? && Parse(ContextSchema(p), other).Some?
    ensures var x, y := Parse(ContextSchema(p), document).value, Parse(ContextSchema(p), other).value;
            && Valid(x) && Valid(y) && Serialize(x).Ok? && Serialize(y).Ok?
            && p.sha256(Encode(Serialize(x).value)) == p.sha256(Encode(Serialize(y).value))
            && (Encode(Serialize(x).value) == Encode(Serialize(y).value) <==> Equivalent(x, y))
  {
    ContextSchemaWellFormed(p);
    ParsePrintable(ContextSchema(p), document);
    ParsePrintable(ContextSchema(p), other);
    var x, y := Parse(ContextSchema(p), document).value, Parse(ContextSchema(p), other).value;
    HashInputIffEquivalent(x, y);
    hide ContextSchema, Lookup, T, Encode, Serialize, Equivalent;
  }
}
