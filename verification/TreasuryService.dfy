/** The treasury service as it runs: it reads the rows in whatever order the database lists them
    and updates them one after another. */
module TreasuryService {
  import opened Wrappers
  import opened Sums
  import opened Arithmetic
  import TC = TreasuryContract
  import opened Treasury
  import opened TreasuryVenues

  /** bigint division: truncation toward zero. */
  function Truncated(a: int, b: int): int
    requires b != 0
  {
    if (a >= 0) == (b > 0) then Abs(a) / Abs(b) else -(Abs(a) / Abs(b))
  }

  function Abs(x: int): nat { if x < 0 then -x else x }

  class Service {
    var table: Table
    const chain: TC.Contract

    constructor (chain: TC.Contract)
      ensures this.chain == chain && table == map[]
    {
      this.chain := chain;
      table := map[];
    }

    ghost function View(): State
      reads this, chain
    {
      State(table, chain.View())
    }

    /** Every row of the tenant once, in no particular order. */
    method ListPositions(tenant: string) returns (ids: seq<Id>)
      ensures forall i :: 0 <= i < |ids| ==> ids[i] in table && table[ids[i]].tenant == tenant
      ensures forall i, j :: 0 <= i < j < |ids| ==> ids[i] != ids[j]
      ensures forall id :: id in table && table[id].tenant == tenant ==> id in ids
    {
      ids := [];
      var rest := table.Keys;
      while rest != {}
        invariant rest <= table.Keys
        invariant forall i :: 0 <= i < |ids| ==> ids[i] in table && ids[i] !in rest && table[ids[i]].tenant == tenant
        invariant forall i, j :: 0 <= i < j < |ids| ==> ids[i] != ids[j]
        invariant forall id :: id in table && id !in rest && table[id].tenant == tenant ==> id in ids
        decreases |rest|
      {
        var id :| id in rest;
        rest := rest - {id};
        if table[id].tenant == tenant {
          ids := ids + [id];
        }
      }
    }

    /** `positions.find(...)`. */
    method FindMatch(tenant: string, strategy: Strategy, asset: string, strategyRef: string) returns (m: Option<Id>)
      requires UniqueBuckets(table)
      ensures m == Find(table, Target(tenant, strategy, asset, strategyRef))
    {
      var ids := ListPositions(tenant);
      ghost var b := Target(tenant, strategy, asset, strategyRef);
      FindNone(table, b);
      var i := 0;
      while i < |ids|
        invariant 0 <= i <= |ids|
        invariant forall j :: 0 <= j < i ==> BucketOf(table[ids[j]]) != b
      {
        var p := table[ids[i]];
        var have := if p.strategyRef.Some? then p.strategyRef.value else "";
        var want := if strategy.Liquidity? then "" else strategyRef;
        if p.strategy == strategy && p.asset == asset && have == want {
          FindUnique(table, ids[i]);
          return Some(ids[i]);
        }
        i := i + 1;
      }
      m := None;
    }

    method AssertCanDebit(tenant: string, strategy: Strategy, asset: string, strategyRef: string, amount: int)
      returns (ok: bool)
      requires UniqueBuckets(table)
      ensures ok <==> Amount(table, Target(tenant, strategy, asset, strategyRef)) - amount >= 0
    {
      var m := FindMatch(tenant, strategy, asset, strategyRef);
      FindNone(table, Target(tenant, strategy, asset, strategyRef));
      var current := if m.Some? then table[m.value].amount else 0;
      ok := current - amount >= 0;
    }

    /** `stored` is false when the database refuses the upsert. */
    method ApplyPositionDelta(tenant: string, strategy: Strategy, asset: string, strategyRef: string, delta: int,
                              newId: Id, stored: bool)
      returns (ok: bool)
      requires UniqueBuckets(table)
      modifies this`table
      ensures var r := AfterDelta(old(table), Target(tenant, strategy, asset, strategyRef), delta, newId);
              ok == (r.Some? && stored) && table == if ok then r.value else old(table)
    {
      var m := FindMatch(tenant, strategy, asset, strategyRef);
      FindNone(table, Target(tenant, strategy, asset, strategyRef));
      var current := if m.Some? then table[m.value].amount else 0;
      var next := current + delta;
      if next < 0 || !stored {
        return false;
      }
      var row := Position(tenant, asset, strategy, if strategy.Liquidity? then None else Some(strategyRef), next);
      table := table[(if m.Some? then m.value else newId) := row];
      ok := true;
    }

    method RecordTreasuryFlow(req: Request, env: Environment, hash: string) returns (ok: bool)
      modifies chain
      ensures (chain.View(), ok) == AfterFlow(old(chain.View()), req, env, hash)
      ensures forall key :: UnderKey(req, key) ==> FlowDone(old(chain.View()), chain.View(), ok, req, env, hash, key)
    {
      forall key | UnderKey(req, key)
        ensures var (r, ok) := AfterFlow(chain.View(), req, env, hash);
                FlowDone(chain.View(), r, ok, req, env, hash, key)
      {
        FlowSays(chain.View(), req, env, hash, key);
      }
      hide UnderKey, FlowDone;
      if !env.chainLive {
        return true;
      }
      if env.chainFault.LostBefore? || !(-TC.I128_MAX - 1 <= req.amount <= TC.I128_MAX) {
        return false;
      }
      var r := chain.RecordFlow(env.signers, Direction(req), KeyOf(req), req.amount, hash);
      ok := r.Succeeded() && env.chainFault.NoFault?;
    }

    method Rebalance(req: Request, env: Environment) returns (outcome: Outcome)
      requires Ready(View(), env)
      modifies this`table, chain
      ensures (View(), outcome) == AfterRebalance(old(View()), req, env)
    {
      if env.mainnetRefusal {
        return Threw(Mainnet);
      }
      if env.binding.None? {
        return Threw(LegalContext);
      }
      var covered := AssertCanDebit(req.tenant, req.from, req.asset, req.strategyRef, req.amount);
      if !covered {
        return Threw(Guard);
      }
      if !env.defindexLive && (req.to.DefindexVault? || req.from.DefindexVault?) && !env.defindexOk {
        return Threw(Integration);
      }
      if (req.to.BlendPool? || req.from.BlendPool?) && !env.blendOk {
        return Threw(Integration);
      }
      var recorded := RecordTreasuryFlow(req, env, env.binding.value);
      if !recorded {
        return Threw(Chain);
      }
      outcome := Book(req, env, env.binding.value);
    }

    method Book(req: Request, env: Environment, hash: string) returns (outcome: Outcome)
      requires Ready(View(), env)
      modifies this`table
      ensures (table, outcome) == AfterBookkeeping(old(table), req, env, hash)
    {
      hide AfterDelta, Amount;
      var debited := ApplyPositionDelta(req.tenant, req.from, req.asset, req.strategyRef, -req.amount, env.newId1,
                                        !env.database.FirstUpsertFails?);
      if !debited {
        return Threw(Bookkeeping);
      }
      DeltaEffect(old(table), FromBucket(req), -req.amount, env.newId1);
      var credited := ApplyPositionDelta(req.tenant, req.to, req.asset, req.strategyRef, req.amount, env.newId2,
                                         !env.database.SecondUpsertFails?);
      if !credited {
        return Threw(Bookkeeping);
      }
      outcome := if env.database.AuditFails? then Threw(Audit) else Completed(hash);
    }

    /** The totals of the snapshot over the database rows. */
    method Totals(tenant: string) returns (liquid: int, yieldUnits: int, total: int, yieldShareBps: int)
      ensures liquid == Total(table, LiquidOf(tenant)) && yieldUnits == Total(table, YieldOf(tenant))
      ensures total == liquid + yieldUnits
      ensures yieldShareBps == if total == 0 then 0 else Truncated(yieldUnits * 10_000, total)
    {
      hide Total, Counted, Sum, Weights, Truncated;
      var ids := ListPositions(tenant);
      liquid, yieldUnits := 0, 0;
      var k := 0;
      NothingCounted(table, LiquidOf(tenant));
      NothingCounted(table, YieldOf(tenant));
      while k < |ids|
        invariant 0 <= k <= |ids|
        invariant liquid == Sum(Counted(table, LiquidOf(tenant), ids[..k]))
        invariant yieldUnits == Sum(Counted(table, YieldOf(tenant), ids[..k]))
      {
        var p := table[ids[k]];
        CountOne(table, LiquidOf(tenant), ids, k);
        CountOne(table, YieldOf(tenant), ids, k);
        if p.strategy.Liquidity? {
          liquid := liquid + p.amount;
        } else {
          yieldUnits := yieldUnits + p.amount;
        }
        k := k + 1;
      }
      AllCounted(table, LiquidOf(tenant), ids);
      AllCounted(table, YieldOf(tenant), ids);
      assert ids[..k] == ids;
      total := liquid + yieldUnits;
      yieldShareBps := if total == 0 then 0 else Truncated(yieldUnits * 10_000, total);
    }
  }

  function LiquidOf(tenant: string): Bucket -> bool {
    (b: Bucket) => b.tenant == tenant && b.strategy.Liquidity?
  }

  function YieldOf(tenant: string): Bucket -> bool {
    (b: Bucket) => b.tenant == tenant && !b.strategy.Liquidity?
  }

  /** The weights of the rows counted so far. */
  ghost function Counted(t: Table, sel: Bucket -> bool, ids: seq<Id>): map<string, int> {
    map i | i in t :: if i in ids && sel(BucketOf(t[i])) then t[i].amount else 0
  }

  lemma NothingCounted(t: Table, sel: Bucket -> bool)
    ensures Sum(Counted(t, sel, [])) == 0
  {
    SumZero(Counted(t, sel, []));
  }

  lemma CountOne(t: Table, sel: Bucket -> bool, ids: seq<Id>, k: nat)
    requires k < |ids| && ids[k] in t && ids[k] !in ids[..k]
    ensures Sum(Counted(t, sel, ids[..k + 1])) ==
            Sum(Counted(t, sel, ids[..k])) + (if sel(BucketOf(t[ids[k]])) then t[ids[k]].amount else 0)
  {
    var w := if sel(BucketOf(t[ids[k]])) then t[ids[k]].amount else 0;
    assert ids[..k + 1] == ids[..k] + [ids[k]];
    assert Counted(t, sel, ids[..k + 1]) == Counted(t, sel, ids[..k])[ids[k] := w];
    SumUpdate(Counted(t, sel, ids[..k]), ids[k], w);
  }

  lemma AllCounted(t: Table, sel: Bucket -> bool, ids: seq<Id>)
    requires forall i :: i in t && sel(BucketOf(t[i])) ==> i in ids
    ensures Sum(Counted(t, sel, ids)) == Total(t, sel)
  {
    assert Counted(t, sel, ids) == Weights(t, sel);
  }

  /** What bigint division gives, by its remainder: it is smaller than the divisor and has the sign of
      the dividend. */
  lemma TruncatedRemainder(a: int, b: int)
    requires b != 0
    ensures var r := a - Truncated(a, b) * b;
            && Abs(r) < Abs(b) && (a >= 0 ==> r >= 0) && (a <= 0 ==> r <= 0)
  {
    var q, r := Abs(a) / Abs(b), Abs(a) % Abs(b);
    assert Abs(a) == q * Abs(b) + r;
    assert b < 0 ==> Abs(b) == -b;
    Signs(q, b);
  }

  lemma Signs(q: int, b: int)
    ensures (-q) * b == -(q * b) && q * (-b) == -(q * b)
  {
  }

  /** The share of yield that a snapshot of non-negative rows reports lies in [0, 10000]. */
  lemma YieldShareInRange(liquid: int, yieldUnits: int)
    requires liquid >= 0 && yieldUnits >= 0 && liquid + yieldUnits != 0
    ensures 0 <= Truncated(yieldUnits * 10_000, liquid + yieldUnits) <= 10_000
  {
    QuotientAtMost(yieldUnits * 10_000, liquid + yieldUnits, 10_000);
  }
}
