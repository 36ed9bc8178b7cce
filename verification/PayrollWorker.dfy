/** The worker job over all tenants, as it runs. */
module PayrollWorker {
  import opened Wrappers
  import opened PayrollSchedules
  import PF = PayrollForecast

  type Tenant = string

  /** Whom the schedules of a tenant pay. */
  datatype Book = Book(plans: seq<PF.Plan>, employees: seq<PF.Employee>)

  predicate Matches(b: Book, s: Schedules) {
    && PF.DistinctIds(b.plans)
    && (forall i :: 0 <= i < |b.plans| ==> b.plans[i].id in s)
    && (forall id :: id in s ==> exists i :: 0 <= i < |b.plans| && b.plans[i].id == id)
  }

  /** The plans with their present rows. */
  function Present(b: Book, s: Schedules): (plans: seq<PF.Plan>)
    requires Matches(b, s)
    ensures |plans| == |b.plans|
    ensures forall i :: 0 <= i < |plans| ==> plans[i] == b.plans[i].(timing := s[b.plans[i].id])
  {
    seq(|b.plans|, i requires 0 <= i < |b.plans| => b.plans[i].(timing := s[b.plans[i].id]))
  }

  /** Every active employee that an active schedule names has a well-formed salary. */
  predicate SalariesParse(b: Book, s: Schedules)
    requires Matches(b, s)
  {
    forall i :: 0 <= i < |b.plans| && s[b.plans[i].id].active ==>
      forall id :: id in b.plans[i].employeeIds ==> !PF.Malformed(PF.ById(b.employees), id)
  }

  lemma PresentRows(b: Book, s: Schedules)
    requires Matches(b, s)
    ensures PF.DistinctIds(Present(b, s)) && PF.RowsOf(Present(b, s)) == s
  {
    var plans := Present(b, s);
    PF.RowsAt(plans);
    hide PF.RowsOf;
    forall id | id in s
      ensures id in PF.RowsOf(plans) && PF.RowsOf(plans)[id] == s[id]
    {
      var i :| 0 <= i < |b.plans| && b.plans[i].id == id;
      assert plans[i].id == id;
    }
  }

  /** The forecast of a tenant answers exactly when those salaries are well-formed. */
  lemma AnswersIff(b: Book, s: Schedules)
    requires Matches(b, s)
    ensures PF.Forecast(Present(b, s), PF.ById(b.employees)).Some? <==> SalariesParse(b, s)
  {
    var plans, roster := Present(b, s), PF.ById(b.employees);
    PF.ForecastSucceedsIff(plans, roster);
    hide PF.Forecast, PF.RunOf, PF.Malformed, PF.ById;
    forall i | 0 <= i < |plans|
      ensures PF.RunOf(plans[i], roster).Some? <==> forall id :: id in b.plans[i].employeeIds ==> !PF.Malformed(roster, id)
    {
      PF.RunBuiltIff(plans[i], roster);
    }
  }

  /** What the worker sees of the API: the books and the schedule rows of every tenant. */
  class Api {
    const books: map<Tenant, Book>
    var schedules: map<Tenant, Schedules>

    constructor (books: map<Tenant, Book>, schedules: map<Tenant, Schedules>)
      ensures this.books == books && this.schedules == schedules
    {
      this.books, this.schedules := books, schedules;
    }

    ghost predicate Valid()
      reads this
    {
      forall t :: t in schedules ==> t in books && Matches(books[t], schedules[t])
    }

    /** The forecast's schedule ids; None when it throws. */
    method Obligations(tenant: Tenant) returns (order: Option<seq<Id>>)
      requires Valid() && tenant in schedules
      ensures order.Some? <==> SalariesParse(books[tenant], schedules[tenant])
      ensures order.Some? ==> Listing(schedules[tenant], order.value)
    {
      var b, s := books[tenant], schedules[tenant];
      PresentRows(b, s);
      AnswersIff(b, s);
      hide PF.Forecast, PF.ById, PF.RowsOf, Matches, SalariesParse, Listing;
      var plans := Present(b, s);
      var f := PF.UpcomingObligations(plans, b.employees);
      if f.None? {
        return None;
      }
      PF.ForecastIsListing(plans, PF.ById(b.employees));
      order := Some(PF.ScheduleIds(f.value));
    }

    /** `attempt` is how the execution ends outside the schedule row. */
    method ExecuteRun(tenant: Tenant, id: Id, attempt: Attempt) returns (ok: bool)
      requires tenant in schedules
      modifies this
      ensures (schedules, ok) ==
              (old(schedules)[tenant := AfterExecute(old(schedules)[tenant], id, attempt).0],
               AfterExecute(old(schedules)[tenant], id, attempt).1)
    {
      var s := schedules[tenant];
      assert schedules[tenant := s] == schedules;
      if id !in s || attempt.Unsaved? || attempt.Simulated? {
        assert id in s ==> s[id := s[id]] == s;
        return id in s && attempt.Simulated?;
      }
      var row := SavedRow(s[id], attempt);
      schedules := schedules[tenant := s[id := row]];
      ok := attempt.Settled?;
    }
  }

  /** runScheduledPayroll: a tenant's failure, or an API that does not answer for it, ends the work
      for that tenant only. It gets its tick exactly when the API is reachable and its salaries are
      well-formed. */
  method RunScheduledPayroll(api: Api, tenantIds: seq<Tenant>, reachable: set<Tenant>, now: int,
                             env: Tenant -> Id -> Attempt)
    returns (orders: map<Tenant, seq<Id>>)
    requires api.Valid()
    requires forall i :: 0 <= i < |tenantIds| ==> tenantIds[i] in api.schedules
    requires forall i, j :: 0 <= i < j < |tenantIds| ==> tenantIds[i] != tenantIds[j]
    modifies api
    ensures api.Valid() && api.schedules.Keys == old(api.schedules).Keys
    ensures forall t :: t in orders <==>
              t in tenantIds && t in reachable && SalariesParse(api.books[t], old(api.schedules)[t])
    ensures forall t :: t in orders ==>
              && Listing(old(api.schedules)[t], orders[t])
              && api.schedules[t] == AfterTick(old(api.schedules)[t], Tick(now, orders[t], env(t))).0
    ensures forall t :: t in api.schedules && t !in orders ==> api.schedules[t] == old(api.schedules)[t]
  {
    hide SalariesParse, Listing, AfterTick, Matches;
    orders := map[];
    var k := 0;
    while k < |tenantIds|
      invariant 0 <= k <= |tenantIds|
      invariant api.Valid() && api.schedules.Keys == old(api.schedules).Keys
      invariant forall t :: t in orders <==>
                  t in tenantIds[..k] && t in reachable && SalariesParse(api.books[t], old(api.schedules)[t])
      invariant forall t :: t in orders ==>
                  && Listing(old(api.schedules)[t], orders[t])
                  && api.schedules[t] == AfterTick(old(api.schedules)[t], Tick(now, orders[t], env(t))).0
      invariant forall t :: t in api.schedules && t !in orders ==> api.schedules[t] == old(api.schedules)[t]
    {
      var t := tenantIds[k];
      assert t !in orders;
      if t in reachable {
        var order := api.Obligations(t);
        if order.Some? {
          KeysKept(api.books[t], api.schedules[t], Tick(now, order.value, env(t)));
          RunTenant(api, t, order.value, now, env(t));
          orders := orders[t := order.value];
        }
      }
      k := k + 1;
    }
    assert tenantIds[..k] == tenantIds;
  }

  lemma {:induction false} DueKeys(s: Schedules, due: seq<Id>, env: Id -> Attempt)
    ensures AfterDue(s, due, env).0.Keys == s.Keys
  {
    if due != [] {
      var (s1, returned) := AfterExecute(s, due[0], env(due[0]));
      ExecuteOther(s, due[0], env(due[0]));
      hide AfterExecute;
      if returned {
        DueKeys(s1, due[1..], env);
      }
    }
  }

  lemma KeysKept(b: Book, s: Schedules, t: Tick)
    requires Matches(b, s)
    ensures Matches(b, AfterTick(s, t).0)
  {
    hide AfterDue;
    DueKeys(s, Due(s, t.order, t.now), t.env);
  }

  /** The due obligations of one tenant, in order, up to the first throw. */
  method RunTenant(api: Api, t: Tenant, order: seq<Id>, now: int, env: Id -> Attempt)
    requires t in api.schedules
    modifies api
    ensures api.schedules == old(api.schedules)[t := AfterTick(old(api.schedules)[t], Tick(now, order, env)).0]
  {
    hide AfterExecute, Due;
    var s := api.schedules[t];
    var due := Due(s, order, now);
    var k := 0;
    assert api.schedules == old(api.schedules)[t := s];
    assert due[k..] == due;
    while k < |due|
      invariant 0 <= k <= |due|
      invariant t in api.schedules && api.schedules == old(api.schedules)[t := api.schedules[t]]
      invariant AfterDue(api.schedules[t], due[k..], env).0 == AfterDue(s, due, env).0
    {
      assert due[k..][0] == due[k] && due[k..][1..] == due[k + 1..];
      var ok := api.ExecuteRun(t, due[k], env(due[k]));
      if !ok {
        return;
      }
      k := k + 1;
    }
  }
}
