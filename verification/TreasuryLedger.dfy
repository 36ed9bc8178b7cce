/** What every rebalance keeps, in the database and between the database and the chain. */
module TreasuryLedger {
  import opened Wrappers
  import opened Sums
  import TC = TreasuryContract
  import opened Treasury

  // ---- Bookkeeping in the database ----

  lemma AmountNonNegative(t: Table, b: Bucket)
    requires NonNegative(t)
    ensures Amount(t, b) >= 0
  {
    FindNone(t, b);
  }

  /** The rows between the debit and the credit, and after both. */
  ghost function Debited(t: Table, req: Request, env: Environment): Option<Table> {
    AfterDelta(t, FromBucket(req), -req.amount, env.newId1)
  }

  ghost predicate MayTransfer(t: Table, req: Request, env: Environment) {
    Ready(State(t, TC.EMPTY), env) && 0 <= req.amount <= Amount(t, FromBucket(req))
  }

  /** After the guard, neither upsert can meet a negative balance. */
  lemma NeitherDeltaThrows(t: Table, req: Request, env: Environment)
    requires MayTransfer(t, req, env)
    ensures Debited(t, req, env).Some?
    ensures AfterDelta(Debited(t, req, env).value, ToBucket(req), req.amount, env.newId2).Some?
    ensures var d := Debited(t, req, env).value;
            UniqueBuckets(d) && NonNegative(d) && env.newId2 !in d && d.Keys <= t.Keys + {env.newId1}
  {
    DeltaEffect(t, FromBucket(req), -req.amount, env.newId1);
    AmountNonNegative(Debited(t, req, env).value, ToBucket(req));
  }

  lemma BucketsProper(req: Request)
    ensures FromBucket(req).strategy.Liquidity? ==> FromBucket(req).strategyRef == ""
    ensures ToBucket(req).strategy.Liquidity? ==> ToBucket(req).strategyRef == ""
  {
  }

  /** The bookkeeping without a fault: the debit, then the credit. */
  lemma BothUpserts(t: Table, req: Request, env: Environment)
    requires MayTransfer(t, req, env)
    requires env.database.Stored? || env.database.AuditFails?
    ensures Debited(t, req, env).Some?
    ensures var d, t' := Debited(t, req, env).value, AfterBookkeeping(t, req, env, "").0;
            && AfterDelta(d, ToBucket(req), req.amount, env.newId2) == Some(t')
            && UniqueBuckets(d) && NonNegative(d) && env.newId2 !in d
  {
    NeitherDeltaThrows(t, req, env);
    hide AfterDelta, UniqueBuckets, NonNegative, FromBucket, ToBucket, MayTransfer;
  }

  lemma DebitOf(t: Table, req: Request, env: Environment)
    requires MayTransfer(t, req, env)
    ensures UniqueBuckets(t) && NonNegative(t) && env.newId1 !in t
    ensures AfterDelta(t, FromBucket(req), -req.amount, env.newId1) == Debited(t, req, env)
  {
    hide AfterDelta, UniqueBuckets, NonNegative, FromBucket, Amount;
  }

  /** Both upserts together: rows stay unique and non-negative, every selection of buckets gains
      what it receives and loses what it gives. */
  lemma TransferEffect(t: Table, req: Request, env: Environment, sel: Bucket -> bool)
    requires MayTransfer(t, req, env)
    requires env.database.Stored? || env.database.AuditFails?
    ensures var t' := AfterBookkeeping(t, req, env, "").0;
            && UniqueBuckets(t') && NonNegative(t')
            && Total(t', sel) == Total(t, sel) - (if sel(FromBucket(req)) then req.amount else 0)
                                               + (if sel(ToBucket(req)) then req.amount else 0)
  {
    hide AfterDelta, Amount, Total, UniqueBuckets, NonNegative, AfterBookkeeping, FromBucket, ToBucket, MayTransfer, Debited;
    BothUpserts(t, req, env);
    DebitOf(t, req, env);
    BucketsProper(req);
    var d := Debited(t, req, env).value;
    DeltaTotal(t, FromBucket(req), -req.amount, env.newId1, sel);
    DeltaEffect(d, ToBucket(req), req.amount, env.newId2);
    DeltaTotal(d, ToBucket(req), req.amount, env.newId2, sel);
  }

  /** The amounts of the two buckets after the transfer, and of all the others. */
  lemma TransferAmounts(t: Table, req: Request, env: Environment, b: Bucket)
    requires MayTransfer(t, req, env)
    requires env.database.Stored? || env.database.AuditFails?
    ensures var t' := AfterBookkeeping(t, req, env, "").0;
            Amount(t', b) == Amount(t, b) - (if b == FromBucket(req) then req.amount else 0)
                                          + (if b == ToBucket(req) then req.amount else 0)
  {
    hide AfterDelta, Amount, UniqueBuckets, NonNegative, AfterBookkeeping, FromBucket, ToBucket, MayTransfer, Debited;
    BothUpserts(t, req, env);
    DebitOf(t, req, env);
    BucketsProper(req);
    DeltaEffect(t, FromBucket(req), -req.amount, env.newId1);
    DeltaEffect(Debited(t, req, env).value, ToBucket(req), req.amount, env.newId2);
  }

  /** A rebalance that gets past the chain with the guard satisfied. */
  ghost predicate Booked(outcome: Outcome) {
    outcome.Completed? || outcome == Threw(Audit)
  }

  /** For every choice of buckets, equal ones included: a rebalance that was booked keeps the
      holdings of every tenant and asset, moves exactly its amount between its two buckets and
      touches no other. */
  lemma RebalanceConserves(s: State, req: Request, env: Environment)
    requires Ready(s, env) && req.amount >= 0
    ensures var (s', outcome) := AfterRebalance(s, req, env);
            Booked(outcome) ==>
              && UniqueBuckets(s'.table) && NonNegative(s'.table)
              && (forall tenant, asset :: Holdings(s'.table, tenant, asset) == Holdings(s.table, tenant, asset))
              && (forall b :: Amount(s'.table, b) == Amount(s.table, b)
                                - (if b == FromBucket(req) then req.amount else 0)
                                + (if b == ToBucket(req) then req.amount else 0))
  {
    var (s', outcome) := AfterRebalance(s, req, env);
    if Booked(outcome) {
      BookedTable(s, req, env);
      forall tenant, asset
        ensures Holdings(s'.table, tenant, asset) == Holdings(s.table, tenant, asset)
      {
        TransferEffect(s.table, req, env, (b: Bucket) => b.tenant == tenant && b.asset == asset);
      }
      forall b
        ensures Amount(s'.table, b) == Amount(s.table, b) - (if b == FromBucket(req) then req.amount else 0)
                                                          + (if b == ToBucket(req) then req.amount else 0)
      {
        TransferAmounts(s.table, req, env, b);
      }
      TransferEffect(s.table, req, env, (b: Bucket) => true);
    }
  }

  /** An upsert changes the row it finds or adds one, and leaves every other. */
  lemma OneRow(t: Table, b: Bucket, delta: int, newId: Id) returns (i: Id)
    requires AfterDelta(t, b, delta, newId).Some?
    ensures AfterDelta(t, b, delta, newId).value - {i} == t - {i}
    ensures t.Keys <= AfterDelta(t, b, delta, newId).value.Keys
  {
    i := if Find(t, b).Some? then Find(t, b).value else newId;
    hide Find;
    assert AfterDelta(t, b, delta, newId).value - {i} == t - {i};
  }

  lemma TwoRows(a: Table, b: Table, c: Table, i: Id, j: Id)
    requires b - {i} == a - {i} && c - {j} == b - {j}
    ensures c - {i, j} == a - {i, j}
  {
    assert (b - {i}) - {j} == b - {i, j} && (a - {i}) - {j} == a - {i, j};
    assert (c - {j}) - {i} == c - {i, j} && (b - {j}) - {i} == b - {i, j};
  }

  /** At most two rows change, and none disappears. */
  lemma AtMostTwoRows(s: State, req: Request, env: Environment) returns (i: Id, j: Id)
    requires Ready(s, env) && req.amount >= 0
    requires Booked(AfterRebalance(s, req, env).1)
    ensures AfterRebalance(s, req, env).0.table - {i, j} == s.table - {i, j}
    ensures s.table.Keys <= AfterRebalance(s, req, env).0.table.Keys
  {
    BookedTable(s, req, env);
    hide AfterRebalance, AfterBookkeeping, AfterDelta, FromBucket, ToBucket, MayTransfer, Debited, UniqueBuckets, NonNegative,
         Ready;
    BothUpserts(s.table, req, env);
    DebitOf(s.table, req, env);
    var d := Debited(s.table, req, env).value;
    i := OneRow(s.table, FromBucket(req), -req.amount, env.newId1);
    j := OneRow(d, ToBucket(req), req.amount, env.newId2);
    TwoRows(s.table, d, AfterRebalance(s, req, env).0.table, i, j);
  }

  lemma BookedTable(s: State, req: Request, env: Environment)
    requires Ready(s, env) && req.amount >= 0
    requires Booked(AfterRebalance(s, req, env).1)
    ensures MayTransfer(s.table, req, env)
    ensures env.database.Stored? || env.database.AuditFails?
    ensures AfterRebalance(s, req, env).0.table == AfterBookkeeping(s.table, req, env, "").0
  {
  }

  /** A rebalance that throws before its bookkeeping leaves every row as it was; one that throws
      in it has lost at most the debit, and only because the database refused an upsert. */
  lemma FailedRebalance(s: State, req: Request, env: Environment)
    requires Ready(s, env) && req.amount >= 0
    requires !Booked(AfterRebalance(s, req, env).1)
    ensures var (s', outcome) := AfterRebalance(s, req, env);
            && (outcome.stage != Bookkeeping ==> s'.table == s.table)
            && (outcome.stage == Bookkeeping ==>
                  (env.database.FirstUpsertFails? && s'.table == s.table) ||
                  (env.database.SecondUpsertFails? && Debited(s.table, req, env) == Some(s'.table)))
            && UniqueBuckets(s'.table) && NonNegative(s'.table)
  {
    if AfterRebalance(s, req, env).1.stage == Bookkeeping {
      NeitherDeltaThrows(s.table, req, env);
    }
  }

  /** The move gets as far as the contract. */
  ghost predicate ReachesContract(s: State, req: Request, env: Environment) {
    && !env.mainnetRefusal && env.binding.Some?
    && Amount(s.table, FromBucket(req)) >= req.amount && IntegrationOk(req, env)
    && env.chainLive && !env.chainFault.LostBefore? && -TC.I128_MAX - 1 <= req.amount <= TC.I128_MAX
  }

  /** The contract takes it. */
  ghost predicate ContractAccepts(l: TC.Ledger, req: Request, env: Environment) {
    && l.admin.Some? && l.admin.value in env.signers && req.amount > 0
    && if req.to.Liquidity? then req.amount <= TC.Balance(l, KeyOf(req)) <= TC.I128_MAX + req.amount
       else TC.Balance(l, KeyOf(req)) + req.amount <= TC.I128_MAX
  }

  ghost predicate Lands(s: State, req: Request, env: Environment) {
    ReachesContract(s, req, env) && ContractAccepts(s.ledger, req, env)
  }

  /** However a rebalance ends, the ledger changes exactly when the move reaches the contract and is
      accepted, and then by its amount under its key. */
  lemma LedgerAfterRebalance(s: State, req: Request, env: Environment, key: TC.BalanceKey)
    ensures !Lands(s, req, env) ==> AfterRebalance(s, req, env).0.ledger == s.ledger
    ensures TC.Balance(AfterRebalance(s, req, env).0.ledger, key) == TC.Balance(s.ledger, key)
              + (if !Lands(s, req, env) || key != KeyOf(req) then 0 else if req.to.Liquidity? then -req.amount else req.amount)
  {
    hide Amount, FromBucket, AfterBookkeeping, IntegrationOk, Collapse;
  }

  // ---- The database against the chain ----

  /** How much more the contract holds under a key than the yield rows booked under it. */
  ghost function Gap(s: State, key: TC.BalanceKey): int {
    TC.Balance(s.ledger, key) - YieldBooked(s.table, key)
  }

  ghost predicate OneSideLiquid(req: Request) {
    req.from.Liquidity? != req.to.Liquidity?
  }

  /** What the bookkeeping of a landed move adds to the yield rows under its key. */
  function RowsMoved(req: Request, env: Environment): int {
    if !env.chainFault.NoFault? || env.database.FirstUpsertFails? then 0
    else
      (if req.from.Liquidity? then 0 else -req.amount) +
      (if req.to.Liquidity? || env.database.SecondUpsertFails? then 0 else req.amount)
  }

  function Drift(req: Request, env: Environment): int {
    (if req.to.Liquidity? then -req.amount else req.amount) - RowsMoved(req, env)
  }

  lemma InKeyOf(req: Request, key: TC.BalanceKey)
    ensures InKey(FromBucket(req), key) <==> !req.from.Liquidity? && key == KeyOf(req)
    ensures InKey(ToBucket(req), key) <==> !req.to.Liquidity? && key == KeyOf(req)
  {
    hide Collapse;
  }

  lemma DebitTotal(t: Table, req: Request, env: Environment, sel: Bucket -> bool)
    requires MayTransfer(t, req, env)
    ensures Debited(t, req, env).Some?
    ensures Total(Debited(t, req, env).value, sel) == Total(t, sel) - (if sel(FromBucket(req)) then req.amount else 0)
  {
    hide AfterDelta, Amount, Total, UniqueBuckets, NonNegative, FromBucket, ToBucket, MayTransfer, Debited;
    NeitherDeltaThrows(t, req, env);
    DebitOf(t, req, env);
    BucketsProper(req);
    DeltaTotal(t, FromBucket(req), -req.amount, env.newId1, sel);
  }

  lemma YieldAfterRebalance(s: State, req: Request, env: Environment, key: TC.BalanceKey)
    requires Ready(s, env) && req.amount >= 0 && env.chainLive
    ensures YieldBooked(AfterRebalance(s, req, env).0.table, key) == YieldBooked(s.table, key)
              + (if !Lands(s, req, env) || key != KeyOf(req) then 0 else RowsMoved(req, env))
  {
    InKeyOf(req, key);
    TableAfterRebalance(s, req, env);
    if Lands(s, req, env) && env.chainFault.NoFault? && !env.database.FirstUpsertFails? {
      var sel := (b: Bucket) => InKey(b, key);
      assert MayTransfer(s.table, req, env);
      hide AfterRebalance, AfterBookkeeping, InKey, Total, Lands, Amount, FromBucket, ToBucket, MayTransfer;
      if env.database.SecondUpsertFails? {
        DebitTotal(s.table, req, env, sel);
      } else {
        TransferEffect(s.table, req, env, sel);
      }
    }
  }

  /** The rows after a rebalance, however it ends. */
  lemma TableAfterRebalance(s: State, req: Request, env: Environment)
    requires Ready(s, env) && req.amount >= 0 && env.chainLive
    ensures AfterRebalance(s, req, env).0.table ==
            if !Lands(s, req, env) || !env.chainFault.NoFault? then s.table
            else AfterBookkeeping(s.table, req, env, "").0
    ensures env.database.FirstUpsertFails? ==> AfterBookkeeping(s.table, req, env, "").0 == s.table
    ensures Lands(s, req, env) && env.database.SecondUpsertFails? ==>
              Debited(s.table, req, env) == Some(AfterBookkeeping(s.table, req, env, "").0)
  {
    if Lands(s, req, env) {
      NeitherDeltaThrows(s.table, req, env);
    }
    hide Amount, AfterDelta, FromBucket, ToBucket, IntegrationOk, Collapse, UniqueBuckets, NonNegative;
  }

  /** However a rebalance ends, a landed move shifts the gap of its own key by its drift and no other
      gap; a move that does not land shifts none. */
  lemma GapAfterRebalance(s: State, req: Request, env: Environment, key: TC.BalanceKey)
    requires Ready(s, env) && req.amount >= 0 && env.chainLive
    ensures Gap(AfterRebalance(s, req, env).0, key) == Gap(s, key)
              + (if Lands(s, req, env) && key == KeyOf(req) then Drift(req, env) else 0)
  {
    hide AfterRebalance, YieldBooked, Lands;
    YieldAfterRebalance(s, req, env, key);
    LedgerAfterRebalance(s, req, env, key);
  }

  /** Under a configured contract, the chain and the rows stay together exactly when the move does not
      land, or when no reply is lost, the first upsert is taken, one side is liquidity, and the second
      upsert is taken unless it is liquidity that is credited. */
  lemma GapsKeptIff(s: State, req: Request, env: Environment)
    requires Ready(s, env) && req.amount >= 0 && env.chainLive
    ensures (forall key :: Gap(AfterRebalance(s, req, env).0, key) == Gap(s, key)) <==>
            || !Lands(s, req, env)
            || (&& env.chainFault.NoFault? && !env.database.FirstUpsertFails? && OneSideLiquid(req)
                && (req.to.Liquidity? || !env.database.SecondUpsertFails?))
  {
    assert Lands(s, req, env) ==> req.amount > 0;
    hide AfterRebalance, Gap, Lands;
    forall key
      ensures Gap(AfterRebalance(s, req, env).0, key) == Gap(s, key)
                + (if Lands(s, req, env) && key == KeyOf(req) then Drift(req, env) else 0)
    {
      GapAfterRebalance(s, req, env, key);
    }
    assert Gap(AfterRebalance(s, req, env).0, KeyOf(req)) ==
           Gap(s, KeyOf(req)) + (if Lands(s, req, env) then Drift(req, env) else 0);
  }

  // ---- Whole runs ----

  datatype Event = Event(req: Request, env: Environment)

  ghost function Run(s: State, events: seq<Event>): State {
    if events == [] then s
    else
      var last := events[|events| - 1];
      AfterRebalance(Run(s, events[..|events| - 1]), last.req, last.env).0
  }

  /** No effect is lost between the chain and the database, and new row ids are new. */
  ghost predicate Faithful(s: State, e: Event) {
    && e.env.chainLive && !e.env.chainFault.LostAfter? && !e.env.database.FirstUpsertFails? && !e.env.database.SecondUpsertFails?
    && e.env.newId1 !in s.table && e.env.newId2 !in s.table && e.env.newId1 != e.env.newId2
    && e.req.amount > 0 && OneSideLiquid(e.req)
  }

  ghost predicate FaithfulRun(s: State, events: seq<Event>) {
    forall i :: 0 <= i < |events| ==> Faithful(Run(s, events[..i]), events[i])
  }

  /** Every on-chain balance is the sum of the non-negative yield rows that collapse to it. */
  ghost predicate Refined(s: State) {
    && UniqueBuckets(s.table) && NonNegative(s.table)
    && forall key :: Gap(s, key) == 0
  }

  lemma StepKeepsRefined(s: State, e: Event)
    requires Refined(s) && Faithful(s, e)
    ensures Refined(AfterRebalance(s, e.req, e.env).0)
  {
    GapsKeptIff(s, e.req, e.env);
    if Booked(AfterRebalance(s, e.req, e.env).1) {
      RebalanceConserves(s, e.req, e.env);
    } else {
      FailedRebalance(s, e.req, e.env);
    }
  }

  /** The chain refines the database at every state of every faithful run. */
  lemma {:induction false} RunKeepsRefined(s: State, events: seq<Event>)
    requires Refined(s) && FaithfulRun(s, events)
    ensures Refined(Run(s, events))
  {
    if events != [] {
      var init := events[..|events| - 1];
      assert forall i :: 0 <= i < |init| ==> init[..i] == events[..i];
      RunKeepsRefined(s, init);
      StepKeepsRefined(Run(s, init), events[|events| - 1]);
    }
  }

  lemma TotalAtLeast(t: Table, sel: Bucket -> bool, i: Id)
    requires NonNegative(t) && i in t && sel(BucketOf(t[i]))
    ensures Total(t, sel) >= t[i].amount
  {
    SumRemove(Weights(t, sel), i);
    SumNonNegative(Weights(t, sel) - {i});
  }

  /** In a refined state, a withdrawal that passes the guard is covered on-chain. */
  lemma GuardCoversChain(s: State, req: Request)
    requires Refined(s) && req.amount > 0 && !req.from.Liquidity?
    requires Amount(s.table, FromBucket(req)) - req.amount >= 0
    ensures TC.Balance(s.ledger, KeyOf(req)) >= req.amount
  {
    var b := FromBucket(req);
    FindNone(s.table, b);
    var i := Find(s.table, b).value;
    TotalAtLeast(s.table, (c: Bucket) => InKey(c, KeyOf(req)), i);
    assert Gap(s, KeyOf(req)) == 0;
  }

  /** So in every faithful run no call of the contract ever ends in InsufficientBalance. */
  lemma NeverInsufficient(s: State, events: seq<Event>, i: nat)
    requires Refined(s) && FaithfulRun(s, events) && i < |events|
    ensures var before, req, env := Run(s, events[..i]), events[i].req, events[i].env;
            Amount(before.table, FromBucket(req)) >= req.amount && req.amount <= TC.I128_MAX ==>
              TC.AfterRecordFlow(before.ledger, env.signers, Direction(req), KeyOf(req), req.amount, "").1
              != TC.Returned(Err(TC.InsufficientBalance))
  {
    var before, req := Run(s, events[..i]), events[i].req;
    assert FaithfulRun(s, events[..i]) by {
      assert forall j :: 0 <= j < i ==> events[..i][..j] == events[..j];
    }
    RunKeepsRefined(s, events[..i]);
    assert Faithful(before, events[i]);
    if req.to.Liquidity? && Amount(before.table, FromBucket(req)) >= req.amount {
      GuardCoversChain(before, req);
    }
  }

  /** What still decides the outcome of a covered move: in a refined state the contract's own
      balance check is not among it. */
  lemma CompletesIff(s: State, req: Request, env: Environment)
    requires Refined(s) && Ready(s, env) && req.amount > 0 && OneSideLiquid(req)
    requires env.chainLive && env.database.Stored?
    ensures AfterRebalance(s, req, env).1.Completed? <==>
            && !env.mainnetRefusal && env.binding.Some?
            && Amount(s.table, FromBucket(req)) >= req.amount
            && IntegrationOk(req, env)
            && env.chainFault.NoFault? && req.amount <= TC.I128_MAX
            && s.ledger.admin.Some? && s.ledger.admin.value in env.signers
            && (if req.to.Liquidity? then TC.Balance(s.ledger, KeyOf(req)) - req.amount <= TC.I128_MAX
                else TC.Balance(s.ledger, KeyOf(req)) + req.amount <= TC.I128_MAX)
  {
    if Amount(s.table, FromBucket(req)) >= req.amount {
      NeitherDeltaThrows(s.table, req, env);
      if req.to.Liquidity? {
        GuardCoversChain(s, req);
      }
      hide Amount, AfterDelta, UniqueBuckets, NonNegative, Gap, FromBucket, ToBucket, IntegrationOk, Collapse;
    }
  }
}
