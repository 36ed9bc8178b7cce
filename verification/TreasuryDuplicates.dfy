/** The same bookkeeping without the unique index: several rows may share a bucket, and every read
    may find a different one of them. */
module TreasuryDuplicates {
  import opened Wrappers
  import opened Sums
  import opened Treasury

  /** What `find` may return: some row of the bucket, or nothing if there is none. */
  ghost predicate MayFind(t: Table, b: Bucket, m: Option<Id>) {
    if m.Some? then m.value in t && BucketOf(t[m.value]) == b
    else forall i :: i in t ==> BucketOf(t[i]) != b
  }

  ghost function Found(t: Table, b: Bucket, m: Option<Id>): int
    requires MayFind(t, b, m)
  {
    if m.Some? then t[m.value].amount else 0
  }

  /** applyPositionDelta on the row it found; None when it throws. */
  ghost function Upserted(t: Table, b: Bucket, delta: int, m: Option<Id>, newId: Id): Option<Table>
    requires MayFind(t, b, m)
  {
    var next := Found(t, b, m) + delta;
    if next < 0 then None else Some(t[(if m.Some? then m.value else newId) := RowFor(b, next)])
  }

  /** With the index, the row is the one the rest of the model speaks of. */
  lemma UniqueFind(t: Table, b: Bucket, delta: int, m: Option<Id>, newId: Id)
    requires UniqueBuckets(t) && MayFind(t, b, m)
    ensures m == Find(t, b)
    ensures Upserted(t, b, delta, m, newId) == AfterDelta(t, b, delta, newId)
  {
    FindNone(t, b);
  }

  lemma UpsertTotal(t: Table, b: Bucket, delta: int, m: Option<Id>, newId: Id, sel: Bucket -> bool)
    requires newId !in t && MayFind(t, b, m) && Upserted(t, b, delta, m, newId).Some?
    requires b.strategy.Liquidity? ==> b.strategyRef == ""
    ensures Total(Upserted(t, b, delta, m, newId).value, sel) == Total(t, sel) + (if sel(b) then delta else 0)
  {
    var id := if m.Some? then m.value else newId;
    var w := if sel(b) then Found(t, b, m) + delta else 0;
    RowForBucket(b, Found(t, b, m) + delta);
    assert Weights(Upserted(t, b, delta, m, newId).value, sel) == Weights(t, sel)[id := w];
    SumUpdate(Weights(t, sel), id, w);
  }

  ghost predicate Holds(t: Table, t': Table) {
    forall tenant, asset :: Holdings(t', tenant, asset) == Holdings(t, tenant, asset)
  }

  /** The guard read `seen`, the debit found `out`: after the guard, the debit throws exactly when its
      row is another one that does not cover the amount. Then nothing has changed. */
  lemma DebitThrowsIff(t: Table, req: Request, seen: Option<Id>, out: Option<Id>, newId: Id)
    requires MayFind(t, FromBucket(req), seen) && MayFind(t, FromBucket(req), out)
    requires Found(t, FromBucket(req), seen) >= req.amount
    ensures Upserted(t, FromBucket(req), -req.amount, out, newId).None? <==>
            out != seen && Found(t, FromBucket(req), out) < req.amount
  {
  }

  /** What the three reads of one rebalance found. */
  ghost predicate Reads(t: Table, req: Request, out: Option<Id>, into: Option<Id>, newId1: Id, newId2: Id) {
    && NonNegative(t) && req.amount >= 0
    && newId1 !in t && newId2 !in t && newId1 != newId2
    && MayFind(t, FromBucket(req), out)
    && Upserted(t, FromBucket(req), -req.amount, out, newId1).Some?
    && MayFind(Upserted(t, FromBucket(req), -req.amount, out, newId1).value, ToBucket(req), into)
  }

  ghost function Debited(t: Table, req: Request, out: Option<Id>, newId1: Id): Table
    requires MayFind(t, FromBucket(req), out) && Upserted(t, FromBucket(req), -req.amount, out, newId1).Some?
  {
    Upserted(t, FromBucket(req), -req.amount, out, newId1).value
  }

  /** If the debit does not throw, neither does the credit, whatever row it found. */
  lemma CreditGoesThrough(t: Table, req: Request, out: Option<Id>, into: Option<Id>, newId1: Id, newId2: Id)
    requires Reads(t, req, out, into, newId1, newId2)
    ensures NonNegative(Debited(t, req, out, newId1))
    ensures var credited := Upserted(Debited(t, req, out, newId1), ToBucket(req), req.amount, into, newId2);
            credited.Some? && NonNegative(credited.value)
  {
  }

  lemma DebitFacts(t: Table, req: Request, out: Option<Id>, into: Option<Id>, newId1: Id, newId2: Id)
    requires Reads(t, req, out, into, newId1, newId2)
    ensures newId1 !in t && newId2 !in Debited(t, req, out, newId1)
    ensures MayFind(t, FromBucket(req), out) && MayFind(Debited(t, req, out, newId1), ToBucket(req), into)
    ensures Upserted(t, FromBucket(req), -req.amount, out, newId1) == Some(Debited(t, req, out, newId1))
  {
    hide NonNegative, FromBucket, ToBucket;
  }

  /** Then the total of every selection of buckets moves as the request says, whatever rows were
      found. */
  lemma DuplicatesTotal(t: Table, req: Request, out: Option<Id>, into: Option<Id>, newId1: Id, newId2: Id, sel: Bucket -> bool)
    requires Reads(t, req, out, into, newId1, newId2)
    ensures var credited := Upserted(Debited(t, req, out, newId1), ToBucket(req), req.amount, into, newId2);
            credited.Some? &&
            Total(credited.value, sel) == Total(t, sel) - (if sel(FromBucket(req)) then req.amount else 0)
                                                       + (if sel(ToBucket(req)) then req.amount else 0)
  {
    CreditGoesThrough(t, req, out, into, newId1, newId2);
    DebitFacts(t, req, out, into, newId1, newId2);
    hide Total, NonNegative, FromBucket, ToBucket, Upserted, Debited, MayFind, Reads;
    ProperBuckets(req);
    UpsertTotal(t, FromBucket(req), -req.amount, out, newId1, sel);
    UpsertTotal(Debited(t, req, out, newId1), ToBucket(req), req.amount, into, newId2, sel);
  }

  lemma ProperBuckets(req: Request)
    ensures FromBucket(req).strategy.Liquidity? ==> FromBucket(req).strategyRef == ""
    ensures ToBucket(req).strategy.Liquidity? ==> ToBucket(req).strategyRef == ""
  {
  }

  /** So the holdings of every tenant and asset are kept, no row is negative or lost, and at most two
      rows changed. */
  lemma DuplicatesConserve(t: Table, req: Request, out: Option<Id>, into: Option<Id>, newId1: Id, newId2: Id)
    requires Reads(t, req, out, into, newId1, newId2)
    ensures var credited := Upserted(Debited(t, req, out, newId1), ToBucket(req), req.amount, into, newId2);
            && credited.Some? && NonNegative(credited.value) && Holds(t, credited.value)
            && t.Keys <= credited.value.Keys
            && exists i, j :: credited.value - {i, j} == t - {i, j}
  {
    CreditGoesThrough(t, req, out, into, newId1, newId2);
    TwoRows(t, req, out, into, newId1, newId2);
    hide Reads, NonNegative, Total, Upserted, Debited, MayFind;
    var credited := Upserted(Debited(t, req, out, newId1), ToBucket(req), req.amount, into, newId2).value;
    forall tenant, asset
      ensures Holdings(credited, tenant, asset) == Holdings(t, tenant, asset)
    {
      DuplicatesTotal(t, req, out, into, newId1, newId2, (b: Bucket) => b.tenant == tenant && b.asset == asset);
    }
  }

  lemma TwoRows(t: Table, req: Request, out: Option<Id>, into: Option<Id>, newId1: Id, newId2: Id)
    requires Reads(t, req, out, into, newId1, newId2)
    ensures var credited := Upserted(Debited(t, req, out, newId1), ToBucket(req), req.amount, into, newId2);
            && credited.Some? && t.Keys <= credited.value.Keys
            && exists i, j :: credited.value - {i, j} == t - {i, j}
  {
    CreditGoesThrough(t, req, out, into, newId1, newId2);
    hide NonNegative, RowFor;
    var credited := Upserted(Debited(t, req, out, newId1), ToBucket(req), req.amount, into, newId2).value;
    var i := if out.Some? then out.value else newId1;
    var j := if into.Some? then into.value else newId2;
    assert credited - {i, j} == t - {i, j};
  }
}
