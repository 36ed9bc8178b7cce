/** Which on-chain balance a move changes, said of the reference in the request; and what a venue's
    refusal stops. */
module TreasuryVenues {
  import opened Wrappers
  import TC = TreasuryContract
  import opened Treasury
  import opened TreasuryLedger

  /** The reference has the four letters somewhere. */
  predicate HasCceb(ref: string) {
    exists i :: 0 <= i <= |ref| - 4 && CcebAt(ref, i)
  }

  predicate CcebAt(ref: string, i: int)
    requires 0 <= i <= |ref| - 4
  {
    ref[i] == 'C' && ref[i + 1] == 'C' && ref[i + 2] == 'E' && ref[i + 3] == 'B'
  }

  lemma {:induction false} ContainsIff(ref: string)
    ensures Contains(ref, "CCEB") <==> HasCceb(ref)
  {
    if "CCEB" <= ref {
      assert CcebAt(ref, 0);
    }
    if ref != [] {
      ContainsIff(ref[1..]);
      if HasCceb(ref[1..]) {
        var i :| 0 <= i <= |ref[1..]| - 4 && CcebAt(ref[1..], i);
        assert CcebAt(ref, i + 1);
      }
      if HasCceb(ref) {
        var i :| 0 <= i <= |ref| - 4 && CcebAt(ref, i);
        if i == 0 {
          assert ref[..4] == "CCEB";
        } else {
          assert CcebAt(ref[1..], i - 1);
        }
      }
    }
  }

  /** The name under which the contract keeps a reference: the venue's for a contract address, its own
      for anything of up to 32 characters. */
  predicate Named(ref: string, name: string) {
    || (|ref| > 32 && HasCceb(ref) && name == "blend")
    || (|ref| > 32 && !HasCceb(ref) && name == "defindex")
    || (|ref| <= 32 && name == ref)
  }

  lemma CollapseIff(ref: string, name: string)
    ensures Named(ref, name) <==> Collapse(ref) == name
  {
    ContainsIff(ref);
    hide Contains, HasCceb;
  }

  /** The key under which a move of this request is recorded. */
  predicate UnderKey(req: Request, key: TC.BalanceKey) {
    key.tenant == req.tenant && key.asset == req.asset && Named(req.strategyRef, key.strategy)
  }

  lemma KeyOfIff(req: Request, key: TC.BalanceKey)
    ensures UnderKey(req, key) <==> key == KeyOf(req)
  {
    CollapseIff(req.strategyRef, key.strategy);
    hide Named, Collapse;
  }

  /** The contract would take the move under this key. */
  predicate Takes(l: TC.Ledger, req: Request, env: Environment, key: TC.BalanceKey) {
    && l.admin.Some? && l.admin.value in env.signers && req.amount > 0
    && if req.to.Liquidity? then req.amount <= TC.Balance(l, key) <= TC.I128_MAX + req.amount
       else TC.Balance(l, key) + req.amount <= TC.I128_MAX
  }

  /** A venue that the move needs, and that is driven from here, refuses. */
  predicate VenueRefuses(req: Request, env: Environment) {
    || ((req.from.DefindexVault? || req.to.DefindexVault?) && !env.defindexLive && !env.defindexOk)
    || ((req.from.BlendPool? || req.to.BlendPool?) && !env.blendOk)
  }

  lemma IntegrationIff(req: Request, env: Environment)
    ensures IntegrationOk(req, env) <==> !VenueRefuses(req, env)
  {
  }

  /** A refusal stops the move before the chain and before the rows, as does a missing binding, an
      uncovered bucket or the main network. */
  lemma RefusalStops(s: State, req: Request, env: Environment)
    requires VenueRefuses(req, env) || env.binding.None? || env.mainnetRefusal || Amount(s.table, FromBucket(req)) < req.amount
    ensures var (r, outcome) := AfterRebalance(s, req, env);
            r == s && outcome.Threw? && (VenueRefuses(req, env) ==> outcome.stage in {Mainnet, LegalContext, Guard, Integration})
  {
    IntegrationIff(req, env);
    hide IntegrationOk, VenueRefuses, Amount, AfterFlow, AfterBookkeeping;
  }

  /** However a rebalance ends: the balance under the request's key changes by the amount, up for a
      deposit and down for a withdrawal, exactly when the move gets to a configured contract that takes
      it; no other balance changes. */
  lemma BalanceAfterRebalance(s: State, req: Request, env: Environment, key: TC.BalanceKey)
    ensures TC.Balance(AfterRebalance(s, req, env).0.ledger, key) - TC.Balance(s.ledger, key) ==
            if && UnderKey(req, key) && Takes(s.ledger, req, env, key) && env.chainLive && !env.chainFault.LostBefore?
               && !env.mainnetRefusal && env.binding.Some? && !VenueRefuses(req, env)
               && Amount(s.table, FromBucket(req)) >= req.amount && req.amount <= TC.I128_MAX
            then (if req.to.Liquidity? then -req.amount else req.amount)
            else 0
  {
    KeyOfIff(req, key);
    IntegrationIff(req, env);
    if key == KeyOf(req) {
      LandsIff(s, req, env, key);
    }
    hide AfterRebalance, Lands, UnderKey, IntegrationOk, VenueRefuses, Amount, FromBucket, Takes;
    LedgerAfterRebalance(s, req, env, key);
  }

  /** Then, and only then, one event is left: with the direction, the key, the amount and the hash of the
      binding. A move that completes answers with that hash. */
  lemma EventAfterRebalance(s: State, req: Request, env: Environment, key: TC.BalanceKey)
    requires UnderKey(req, key)
    ensures var (r, outcome) := AfterRebalance(s, req, env);
            && r.ledger.events == s.ledger.events +
                 (if && Takes(s.ledger, req, env, key) && env.chainLive && !env.chainFault.LostBefore?
                     && !env.mainnetRefusal && env.binding.Some? && !VenueRefuses(req, env)
                     && Amount(s.table, FromBucket(req)) >= req.amount && req.amount <= TC.I128_MAX
                  then [TC.FlowEvent(if req.to.Liquidity? then "withdraw" else "deposit", key, req.amount, env.binding.value)]
                  else [])
            && (outcome.Completed? ==> env.binding == Some(outcome.legalContextHash))
  {
    KeyOfIff(req, key);
    IntegrationIff(req, env);
    hide UnderKey, VenueRefuses, IntegrationOk, Amount, FromBucket, Collapse, AfterDelta;
  }

  /** What one recorded flow does: simulated without a configured contract; otherwise it lands under its key
      or changes nothing, and the caller hears of it unless the reply is lost. */
  ghost predicate FlowDone(l: TC.Ledger, r: TC.Ledger, ok: bool, req: Request, env: Environment, hash: string, key: TC.BalanceKey) {
    var lands := env.chainLive && !env.chainFault.LostBefore? && req.amount <= TC.I128_MAX && Takes(l, req, env, key);
    && r.admin == l.admin
    && r.events == l.events +
         (if lands then [TC.FlowEvent(if req.to.Liquidity? then "withdraw" else "deposit", key, req.amount, hash)] else [])
    && TC.Balance(r, key) == TC.Balance(l, key) + (if !lands then 0 else if req.to.Liquidity? then -req.amount else req.amount)
    && (forall other :: other != key ==> TC.Balance(r, other) == TC.Balance(l, other))
    && (ok <==> !env.chainLive || (lands && env.chainFault.NoFault?))
  }

  lemma FlowSays(l: TC.Ledger, req: Request, env: Environment, hash: string, key: TC.BalanceKey)
    requires UnderKey(req, key)
    ensures var (r, ok) := AfterFlow(l, req, env, hash);
            FlowDone(l, r, ok, req, env, hash, key)
  {
    KeyOfIff(req, key);
    hide UnderKey, Collapse;
  }

  lemma LandsIff(s: State, req: Request, env: Environment, key: TC.BalanceKey)
    requires key == KeyOf(req)
    ensures Lands(s, req, env) <==>
            && Takes(s.ledger, req, env, key) && env.chainLive && !env.chainFault.LostBefore?
            && !env.mainnetRefusal && env.binding.Some? && IntegrationOk(req, env)
            && Amount(s.table, FromBucket(req)) >= req.amount && req.amount <= TC.I128_MAX
  {
    hide Amount, FromBucket, IntegrationOk, Collapse;
  }

  /** The yield rows whose reference goes by a name. */
  function RowsNamed(tenant: string, asset: string, name: string): Bucket -> bool {
    (b: Bucket) => !b.strategy.Liquidity? && b.tenant == tenant && b.asset == asset && Named(b.strategyRef, name)
  }

  lemma SameTotal(t: Table, f: Bucket -> bool, g: Bucket -> bool)
    requires forall b :: f(b) == g(b)
    ensures Total(t, f) == Total(t, g)
  {
    assert Weights(t, f) == Weights(t, g);
  }

  lemma BookedByName(t: Table, key: TC.BalanceKey)
    ensures YieldBooked(t, key) == Total(t, RowsNamed(key.tenant, key.asset, key.strategy))
  {
    hide Total, Named, Collapse;
    var f := (b: Bucket) => InKey(b, key);
    var g := RowsNamed(key.tenant, key.asset, key.strategy);
    forall b: Bucket
      ensures f(b) == g(b)
    {
      CollapseIff(b.strategyRef, key.strategy);
    }
    SameTotal(t, f, g);
  }

  /** At every state of every faithful run, the contract's balance for a name is the sum of the yield
      rows that go by it: for "blend" those with a long reference that has the letters, for "defindex"
      those with a long one that has not, and rows of exactly that short reference. */
  lemma VenueBalances(s: State, events: seq<Event>, tenant: string, asset: string, name: string)
    requires Refined(s) && FaithfulRun(s, events)
    ensures var r := Run(s, events);
            TC.Balance(r.ledger, TC.BalanceKey(tenant, asset, name)) == Total(r.table, RowsNamed(tenant, asset, name))
  {
    hide Total, RowsNamed, Run, FaithfulRun;
    RunKeepsRefined(s, events);
    BookedByName(Run(s, events).table, TC.BalanceKey(tenant, asset, name));
    assert Gap(Run(s, events), TC.BalanceKey(tenant, asset, name)) == 0;
  }

  /** The bucket of one side of a request. */
  predicate OnSide(req: Request, side: Strategy, b: Bucket) {
    && b.tenant == req.tenant && b.asset == req.asset && b.strategy == side
    && b.strategyRef == if side.Liquidity? then "" else req.strategyRef
  }

  /** A booked rebalance takes its amount from the bucket of its `from` side, adds it to that of its `to`
      side, and leaves every other bucket. */
  lemma BookedMoves(s: State, req: Request, env: Environment, b: Bucket)
    requires Ready(s, env) && req.amount >= 0 && Booked(AfterRebalance(s, req, env).1)
    ensures Amount(AfterRebalance(s, req, env).0.table, b) ==
            Amount(s.table, b) - (if OnSide(req, req.from, b) then req.amount else 0) + (if OnSide(req, req.to, b) then req.amount else 0)
  {
    assert OnSide(req, req.from, b) <==> b == FromBucket(req);
    assert OnSide(req, req.to, b) <==> b == ToBucket(req);
    hide AfterRebalance, FromBucket, ToBucket, Amount, OnSide;
    RebalanceConserves(s, req, env);
  }
}
