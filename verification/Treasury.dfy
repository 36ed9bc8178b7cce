/** Treasury bookkeeping: position rows in the database, the rebalance that moves value between
    two of them, and the on-chain ledger it drives on the way. */
module Treasury {
  import opened Wrappers
  import opened Sums
  import TC = TreasuryContract

  type Id = string

  datatype Strategy = Liquidity | DefindexVault | BlendPool

  /** A row of treasury_positions, without its annotations (APY, time of update). */
  datatype Position = Position(tenant: string, asset: string, strategy: Strategy, strategyRef: Option<string>, amount: int)

  /** What the unique index uq_positions_bucket compares: a missing reference counts as "". */
  datatype Bucket = Bucket(tenant: string, asset: string, strategy: Strategy, strategyRef: string)

  type Table = map<Id, Position>

  function BucketOf(p: Position): Bucket {
    Bucket(p.tenant, p.asset, p.strategy, if p.strategyRef.Some? then p.strategyRef.value else "")
  }

  /** The bucket that a (strategy, reference) choice addresses: liquidity has no reference. */
  function Target(tenant: string, strategy: Strategy, asset: string, strategyRef: string): Bucket {
    Bucket(tenant, asset, strategy, if strategy.Liquidity? then "" else strategyRef)
  }

  /** Guaranteed by the unique index. */
  ghost predicate UniqueBuckets(t: Table) {
    forall i, j :: i in t && j in t && BucketOf(t[i]) == BucketOf(t[j]) ==> i == j
  }

  ghost predicate NonNegative(t: Table) {
    forall i :: i in t ==> t[i].amount >= 0
  }

  ghost function Find(t: Table, b: Bucket): Option<Id> {
    if exists i :: i in t && BucketOf(t[i]) == b then
      var i :| i in t && BucketOf(t[i]) == b;
      Some(i)
    else None
  }

  ghost function Amount(t: Table, b: Bucket): int {
    var m := Find(t, b);
    if m.Some? then t[m.value].amount else 0
  }

  function RowFor(b: Bucket, amount: int): Position {
    Position(b.tenant, b.asset, b.strategy, if b.strategy.Liquidity? then None else Some(b.strategyRef), amount)
  }

  /** The upsert of applyPositionDelta; None when it throws. `newId` is the id of a new row. */
  ghost function AfterDelta(t: Table, b: Bucket, delta: int, newId: Id): Option<Table> {
    var m := Find(t, b);
    var next := Amount(t, b) + delta;
    if next < 0 then None
    else Some(t[(if m.Some? then m.value else newId) := RowFor(b, next)])
  }

  datatype Request = Request(tenant: string, from: Strategy, to: Strategy, asset: string, amount: int, strategyRef: string)

  /** What happens outside the service during one rebalance. A chain invocation can be lost
      before or after the contract ran; the caller sees an error either way. */
  datatype ChainFault = NoFault | LostBefore | LostAfter
  datatype DatabaseFault = Stored | FirstUpsertFails | SecondUpsertFails | AuditFails
  datatype Environment = Environment(
    mainnetRefusal: bool,
    binding: Option<string>,
    defindexLive: bool,
    defindexOk: bool,
    blendOk: bool,
    chainLive: bool,
    signers: set<TC.Address>,
    chainFault: ChainFault,
    database: DatabaseFault,
    newId1: Id,
    newId2: Id)

  datatype Stage = Mainnet | LegalContext | Guard | Integration | Chain | Bookkeeping | Audit
  datatype Outcome = Completed(legalContextHash: string) | Threw(stage: Stage)

  datatype State = State(table: Table, ledger: TC.Ledger)

  predicate Contains(s: string, part: string) {
    part <= s || (s != [] && Contains(s[1..], part))
  }

  /** Contract addresses are longer than a symbol may be and collapse to the venue's name. */
  function Collapse(strategyRef: string): TC.Symbol {
    if |strategyRef| > 32 then (if Contains(strategyRef, "CCEB") then "blend" else "defindex") else strategyRef
  }

  function KeyOf(req: Request): TC.BalanceKey {
    TC.BalanceKey(req.tenant, req.asset, Collapse(req.strategyRef))
  }

  function Direction(req: Request): TC.Symbol {
    if req.to.Liquidity? then "withdraw" else "deposit"
  }

  /** The venue calls of step 1; their effects are outside the model. */
  predicate IntegrationOk(req: Request, env: Environment) {
    && (!env.defindexLive && (req.to.DefindexVault? || req.from.DefindexVault?) ==> env.defindexOk)
    && (req.to.BlendPool? || req.from.BlendPool? ==> env.blendOk)
  }

  /** SorobanGateway.recordTreasuryFlow: simulated when not configured; the amount must fit i128. */
  function AfterFlow(l: TC.Ledger, req: Request, env: Environment, hash: string): (TC.Ledger, bool) {
    if !env.chainLive then (l, true)
    else if env.chainFault.LostBefore? || !(-TC.I128_MAX - 1 <= req.amount <= TC.I128_MAX) then (l, false)
    else
      var (l', call) := TC.AfterRecordFlow(l, env.signers, Direction(req), KeyOf(req), req.amount, hash);
      (l', call.Succeeded() && env.chainFault.NoFault?)
  }

  ghost function FromBucket(req: Request): Bucket { Target(req.tenant, req.from, req.asset, req.strategyRef) }

  ghost function ToBucket(req: Request): Bucket { Target(req.tenant, req.to, req.asset, req.strategyRef) }

  /** Step 3 of the rebalance: debit, credit, audit. */
  ghost function AfterBookkeeping(t: Table, req: Request, env: Environment, hash: string): (Table, Outcome) {
    var debited := AfterDelta(t, FromBucket(req), -req.amount, env.newId1);
    if debited.None? || env.database.FirstUpsertFails? then (t, Threw(Bookkeeping))
    else
      var credited := AfterDelta(debited.value, ToBucket(req), req.amount, env.newId2);
      if credited.None? || env.database.SecondUpsertFails? then (debited.value, Threw(Bookkeeping))
      else (credited.value, if env.database.AuditFails? then Threw(Audit) else Completed(hash))
  }

  /** One rebalance: guard, venue, chain record, bookkeeping, in that order. */
  ghost function AfterRebalance(s: State, req: Request, env: Environment): (State, Outcome) {
    if env.mainnetRefusal then (s, Threw(Mainnet))
    else if env.binding.None? then (s, Threw(LegalContext))
    else if Amount(s.table, FromBucket(req)) - req.amount < 0 then (s, Threw(Guard))
    else if !IntegrationOk(req, env) then (s, Threw(Integration))
    else
      var (ledger, recorded) := AfterFlow(s.ledger, req, env, env.binding.value);
      if !recorded then (State(s.table, ledger), Threw(Chain))
      else
        var (table, outcome) := AfterBookkeeping(s.table, req, env, env.binding.value);
        (State(table, ledger), outcome)
  }

  /** What the database and randomUUID guarantee before a rebalance. */
  ghost predicate Ready(s: State, env: Environment) {
    && UniqueBuckets(s.table) && NonNegative(s.table)
    && env.newId1 !in s.table && env.newId2 !in s.table && env.newId1 != env.newId2
  }

  // ---- Sums over rows ----

  ghost function Weights(t: Table, sel: Bucket -> bool): map<string, int> {
    map i | i in t :: if sel(BucketOf(t[i])) then t[i].amount else 0
  }

  /** The total amount in the buckets that `sel` selects. */
  ghost function Total(t: Table, sel: Bucket -> bool): int {
    Sum(Weights(t, sel))
  }

  lemma FindUnique(t: Table, i: Id)
    requires UniqueBuckets(t) && i in t
    ensures Find(t, BucketOf(t[i])) == Some(i)
  {
  }

  lemma FindNone(t: Table, b: Bucket)
    ensures Find(t, b).Some? ==> Find(t, b).value in t && BucketOf(t[Find(t, b).value]) == b
    ensures Find(t, b).None? ==> forall i :: i in t ==> BucketOf(t[i]) != b
  {
  }

  lemma RowForBucket(b: Bucket, amount: int)
    requires b.strategy.Liquidity? ==> b.strategyRef == ""
    ensures BucketOf(RowFor(b, amount)) == b
  {
  }

  /** One upsert moves the total of every selection that holds its bucket, and no other. */
  lemma DeltaTotal(t: Table, b: Bucket, delta: int, newId: Id, sel: Bucket -> bool)
    requires newId !in t && AfterDelta(t, b, delta, newId).Some?
    requires b.strategy.Liquidity? ==> b.strategyRef == ""
    ensures Total(AfterDelta(t, b, delta, newId).value, sel) == Total(t, sel) + (if sel(b) then delta else 0)
  {
    var m := Find(t, b);
    var t' := AfterDelta(t, b, delta, newId).value;
    FindNone(t, b);
    RowForBucket(b, Amount(t, b) + delta);
    var id := if m.Some? then m.value else newId;
    var w := if sel(b) then Amount(t, b) + delta else 0;
    assert Weights(t', sel) == Weights(t, sel)[id := w];
    SumUpdate(Weights(t, sel), id, w);
  }

  /** One upsert keeps the index, keeps rows non-negative and changes one bucket's amount. */
  lemma DeltaEffect(t: Table, b: Bucket, delta: int, newId: Id)
    requires UniqueBuckets(t) && NonNegative(t) && newId !in t && AfterDelta(t, b, delta, newId).Some?
    requires b.strategy.Liquidity? ==> b.strategyRef == ""
    ensures var t' := AfterDelta(t, b, delta, newId).value;
            && UniqueBuckets(t') && NonNegative(t')
            && Amount(t', b) == Amount(t, b) + delta
            && (forall c :: c != b ==> Amount(t', c) == Amount(t, c))
            && t.Keys <= t'.Keys <= t.Keys + {newId}
  {
    var m := Find(t, b);
    var t' := AfterDelta(t, b, delta, newId).value;
    FindNone(t, b);
    RowForBucket(b, Amount(t, b) + delta);
    var id := if m.Some? then m.value else newId;
    assert UniqueBuckets(t') by {
      forall i, j | i in t' && j in t' && BucketOf(t'[i]) == BucketOf(t'[j])
        ensures i == j
      {
        if i != id && j != id {
          assert t'[i] == t[i] && t'[j] == t[j];
        }
      }
    }
    FindUnique(t', id);
    forall c | c != b
      ensures Amount(t', c) == Amount(t, c)
    {
      SameRow(t, t', id, c);
    }
  }

  lemma SameRow(t: Table, t': Table, id: Id, c: Bucket)
    requires UniqueBuckets(t) && UniqueBuckets(t') && id in t'
    requires t' == t[id := t'[id]]
    requires BucketOf(t'[id]) != c && (id in t ==> BucketOf(t[id]) != c)
    ensures Amount(t', c) == Amount(t, c)
  {
    FindNone(t, c);
    FindNone(t', c);
    if Find(t, c).Some? {
      FindUnique(t', Find(t, c).value);
    }
  }

  ghost predicate InKey(b: Bucket, key: TC.BalanceKey) {
    !b.strategy.Liquidity? && b.tenant == key.tenant && b.asset == key.asset && Collapse(b.strategyRef) == key.strategy
  }

  /** The yield rows that the contract cannot tell apart. */
  ghost function YieldBooked(t: Table, key: TC.BalanceKey): int {
    Total(t, (b: Bucket) => InKey(b, key))
  }

  /** The total of one asset of one tenant. */
  ghost function Holdings(t: Table, tenant: string, asset: string): int {
    Total(t, (b: Bucket) => b.tenant == tenant && b.asset == asset)
  }
}
