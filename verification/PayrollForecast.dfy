/** What a schedule will need and what its run pays: the forecast of upcoming obligations against
    the run built from the same schedule. */
module PayrollForecast {
  import opened Wrappers
  import opened Money
  import PS = PayrollSchedules

  datatype Employee = Employee(id: string, active: bool, salaryAmount: string, preferredRail: string,
                               walletAddress: Option<string>, bankReference: Option<string>)
  type Roster = map<string, Employee>

  /** A schedule with the list of whom it pays. */
  datatype Plan = Plan(id: string, name: string, asset: string, employeeIds: seq<string>, timing: PS.Schedule)

  datatype Line = Line(employeeId: string, amount: string, asset: string, rail: string, destination: string)

  datatype Obligation = Obligation(scheduleId: string, scheduleName: string, nextRunAt: int, asset: string,
                                   requiredBaseUnits: int, employeeCount: nat)

  /** What executeRun settles. */
  datatype Run = Run(lines: seq<Line>, totalBaseUnits: int, totalAmount: string)

  /** A repeated id keeps its last record. */
  function ById(employees: seq<Employee>): Roster {
    if employees == [] then map[]
    else
      var last := employees[|employees| - 1];
      ById(employees[..|employees| - 1])[last.id := last]
  }

  function LineOf(p: Plan, e: Employee): Line {
    var destination := if e.walletAddress.Some? then e.walletAddress.value
                       else if e.bankReference.Some? then e.bankReference.value
                       else "unspecified";
    Line(e.id, e.salaryAmount, p.asset, e.preferredRail, destination)
  }

  predicate Paid(roster: Roster, id: string) { id in roster && roster[id].active }

  /** The lines for the first ids of the schedule, one for every active employee it names. */
  function Lines(p: Plan, ids: seq<string>, roster: Roster): seq<Line> {
    if ids == [] then []
    else
      var id := ids[|ids| - 1];
      Lines(p, ids[..|ids| - 1], roster) + if Paid(roster, id) then [LineOf(p, roster[id])] else []
  }

  /** The sum of the line amounts; a malformed amount throws. */
  function LinesTotal(lines: seq<Line>): Option<int> {
    if lines == [] then Some(0)
    else
      var total :- LinesTotal(lines[..|lines| - 1]);
      var amount :- ToBaseUnits(lines[|lines| - 1].amount, STELLAR_DECIMALS);
      Some(total + amount)
  }

  function RunOf(p: Plan, roster: Roster): Option<Run> {
    var lines := Lines(p, p.employeeIds, roster);
    var total :- LinesTotal(lines);
    Some(Run(lines, total, FromBaseUnits(total, STELLAR_DECIMALS)))
  }

  /** The forecast's own accumulation: a total and a headcount. */
  function Required(ids: seq<string>, roster: Roster): Option<(int, nat)> {
    if ids == [] then Some((0, 0))
    else
      var sofar :- Required(ids[..|ids| - 1], roster);
      var id := ids[|ids| - 1];
      if !Paid(roster, id) then Some(sofar)
      else
        var amount :- ToBaseUnits(roster[id].salaryAmount, STELLAR_DECIMALS);
        Some((sofar.0 + amount, sofar.1 + 1))
  }

  /** The obligations of the active schedules, in the order the schedules are listed. */
  function Obligations(plans: seq<Plan>, roster: Roster): Option<seq<Obligation>> {
    if plans == [] then Some([])
    else
      var sofar :- Obligations(plans[..|plans| - 1], roster);
      var p := plans[|plans| - 1];
      if !p.timing.active then Some(sofar)
      else
        var need :- Required(p.employeeIds, roster);
        Some(sofar + [Obligation(p.id, p.name, p.timing.nextRunAt, p.asset, need.0, need.1)])
  }

  /** A stable sort by the next run. */
  function Insert(sorted: seq<Obligation>, o: Obligation): seq<Obligation> {
    if sorted == [] || sorted[|sorted| - 1].nextRunAt <= o.nextRunAt then sorted + [o]
    else Insert(sorted[..|sorted| - 1], o) + [sorted[|sorted| - 1]]
  }

  function SortByRun(obligations: seq<Obligation>): seq<Obligation> {
    if obligations == [] then []
    else Insert(SortByRun(obligations[..|obligations| - 1]), obligations[|obligations| - 1])
  }

  function Forecast(plans: seq<Plan>, roster: Roster): Option<seq<Obligation>> {
    var obligations :- Obligations(plans, roster);
    Some(SortByRun(obligations))
  }

  // ---- The sort ----

  predicate Sorted(s: seq<Obligation>) {
    forall i, j :: 0 <= i < j < |s| ==> s[i].nextRunAt <= s[j].nextRunAt
  }

  /** The obligations due at one instant, in order. */
  function DueAt(s: seq<Obligation>, t: int): seq<Obligation> {
    if s == [] then []
    else DueAt(s[..|s| - 1], t) + if s[|s| - 1].nextRunAt == t then [s[|s| - 1]] else []
  }

  lemma {:induction false} DueAtLater(s: seq<Obligation>, t: int)
    requires forall i :: 0 <= i < |s| ==> s[i].nextRunAt != t
    ensures DueAt(s, t) == []
  {
    if s != [] {
      DueAtLater(s[..|s| - 1], t);
    }
  }

  lemma {:induction false} InsertPermutes(s: seq<Obligation>, o: Obligation)
    ensures multiset(Insert(s, o)) == multiset(s) + multiset{o}
  {
    if s != [] && s[|s| - 1].nextRunAt > o.nextRunAt {
      var init, last := s[..|s| - 1], s[|s| - 1];
      assert s == init + [last];
      InsertPermutes(init, o);
    }
  }

  lemma SortedAppend(s: seq<Obligation>, o: Obligation)
    requires Sorted(s) && forall i :: 0 <= i < |s| ==> s[i].nextRunAt <= o.nextRunAt
    ensures Sorted(s + [o])
  {
  }

  lemma {:induction false} InsertSorts(s: seq<Obligation>, o: Obligation)
    requires Sorted(s)
    ensures Sorted(Insert(s, o))
  {
    if s != [] && s[|s| - 1].nextRunAt > o.nextRunAt {
      var init, last := s[..|s| - 1], s[|s| - 1];
      InsertSorts(init, o);
      InsertPermutes(init, o);
      var r := Insert(init, o);
      forall i | 0 <= i < |r|
        ensures r[i].nextRunAt <= last.nextRunAt
      {
        assert r[i] in multiset(r);
        assert r[i] in init || r[i] == o;
      }
      SortedAppend(r, last);
    }
  }

  lemma {:induction false} InsertStable(s: seq<Obligation>, o: Obligation, t: int)
    ensures DueAt(Insert(s, o), t) == DueAt(s + [o], t)
  {
    var whole := s + [o];
    assert whole[..|whole| - 1] == s;
    if s != [] && s[|s| - 1].nextRunAt > o.nextRunAt {
      var init, last := s[..|s| - 1], s[|s| - 1];
      InsertStable(init, o, t);
      assert (init + [o])[..|init|] == init;
      var r := Insert(init, o);
      assert (r + [last])[..|r|] == r;
    }
  }

  lemma {:induction false} SortSorts(s: seq<Obligation>)
    ensures Sorted(SortByRun(s))
    ensures multiset(SortByRun(s)) == multiset(s)
    ensures forall t :: DueAt(SortByRun(s), t) == DueAt(s, t)
  {
    if s != [] {
      var init, last := s[..|s| - 1], s[|s| - 1];
      assert s == init + [last];
      SortSorts(init);
      InsertSorts(SortByRun(init), last);
      InsertPermutes(SortByRun(init), last);
      forall t
        ensures DueAt(SortByRun(s), t) == DueAt(s, t)
      {
        InsertStable(SortByRun(init), last, t);
        var moved := SortByRun(init) + [last];
        assert moved[..|moved| - 1] == SortByRun(init);
      }
    }
  }

  // ---- Forecast and run agree ----

  /** The forecast's total and headcount are those of the run's lines, and throw together. */
  lemma {:induction false} RequiredIsLines(p: Plan, ids: seq<string>, roster: Roster)
    ensures var lines := Lines(p, ids, roster);
            Required(ids, roster) ==
            if LinesTotal(lines).Some? then Some((LinesTotal(lines).value, |lines|)) else None
  {
    hide ToBaseUnits;
    if ids != [] {
      var init, id := ids[..|ids| - 1], ids[|ids| - 1];
      RequiredIsLines(p, init, roster);
      var before := Lines(p, init, roster);
      if Paid(roster, id) {
        assert (before + [LineOf(p, roster[id])])[..|before|] == before;
      } else {
        assert before + [] == before;
      }
    }
  }

  function ObligationOf(p: Plan, run: Run): Obligation {
    Obligation(p.id, p.name, p.timing.nextRunAt, p.asset, run.totalBaseUnits, |run.lines|)
  }

  /** The i-th schedule is active, its run can be built, and o is what that run will take. */
  predicate Owes(plans: seq<Plan>, roster: Roster, o: Obligation, i: int) {
    && 0 <= i < |plans| && plans[i].timing.active && RunOf(plans[i], roster).Some?
    && o == ObligationOf(plans[i], RunOf(plans[i], roster).value)
  }

  /** One step of the forecast's outer loop, in terms of the run. */
  function AddObligation(sofar: seq<Obligation>, p: Plan, roster: Roster): Option<seq<Obligation>> {
    if !p.timing.active then Some(sofar)
    else
      var run :- RunOf(p, roster);
      Some(sofar + [ObligationOf(p, run)])
  }

  lemma ObligationsStep(plans: seq<Plan>, roster: Roster)
    requires plans != []
    ensures var sofar := Obligations(plans[..|plans| - 1], roster);
            Obligations(plans, roster) ==
            if sofar.Some? then AddObligation(sofar.value, plans[|plans| - 1], roster) else None
  {
    var p := plans[|plans| - 1];
    RequiredIsLines(p, p.employeeIds, roster);
    hide Required, Lines, LinesTotal, FromBaseUnits;
  }

  lemma OwesOneMore(plans: seq<Plan>, init: seq<Plan>, roster: Roster, sofar: seq<Obligation>, o: Obligation)
    requires plans != [] && init == plans[..|plans| - 1]
    requires o in sofar <==> exists i :: Owes(init, roster, o, i)
    requires AddObligation(sofar, plans[|plans| - 1], roster).Some?
    ensures o in AddObligation(sofar, plans[|plans| - 1], roster).value <==> exists i :: Owes(plans, roster, o, i)
  {
    hide RunOf, ObligationOf;
    var all := AddObligation(sofar, plans[|plans| - 1], roster).value;
    if i :| Owes(plans, roster, o, i) {
      if i < |init| {
        assert Owes(init, roster, o, i);
      } else {
        assert all[|sofar|] == o;
      }
    }
    if o in sofar {
      var i :| Owes(init, roster, o, i);
      assert Owes(plans, roster, o, i);
    } else if o in all {
      assert Owes(plans, roster, o, |plans| - 1);
    }
  }

  /** The forecast succeeds exactly when the run of every active schedule could be built. */
  lemma {:induction false} ForecastSucceedsIff(plans: seq<Plan>, roster: Roster)
    ensures Forecast(plans, roster).Some? <==>
            forall i :: 0 <= i < |plans| && plans[i].timing.active ==> RunOf(plans[i], roster).Some?
  {
    if plans != [] {
      var init := plans[..|plans| - 1];
      ForecastSucceedsIff(init, roster);
      ObligationsStep(plans, roster);
      hide Obligations, RunOf, ObligationOf;
      assert forall i :: 0 <= i < |init| ==> init[i] == plans[i];
    }
  }

  lemma {:induction false} ObligationsAreRuns(plans: seq<Plan>, roster: Roster, o: Obligation)
    requires Obligations(plans, roster).Some?
    ensures o in Obligations(plans, roster).value <==> exists i :: Owes(plans, roster, o, i)
  {
    if plans != [] {
      ObligationsStep(plans, roster);
      var init := plans[..|plans| - 1];
      ObligationsAreRuns(init, roster, o);
      hide Obligations, RunOf, ObligationOf, Owes;
      OwesOneMore(plans, init, roster, Obligations(init, roster).value, o);
    }
  }

  /** The forecast lists, sorted by instant, exactly what the runs of the active schedules will
      take: total, asset and headcount. */
  lemma ForecastAgreesWithRuns(plans: seq<Plan>, roster: Roster)
    requires Forecast(plans, roster).Some?
    ensures var f := Forecast(plans, roster).value;
            && Sorted(f)
            && multiset(f) == multiset(Obligations(plans, roster).value)
            && (forall o :: o in f <==> exists i :: Owes(plans, roster, o, i))
            && forall t :: DueAt(f, t) == DueAt(Obligations(plans, roster).value, t)
  {
    var listed := Obligations(plans, roster).value;
    var f := Forecast(plans, roster).value;
    SortSorts(listed);
    forall o
      ensures o in f <==> exists i :: Owes(plans, roster, o, i)
    {
      ObligationsAreRuns(plans, roster, o);
      assert o in f <==> o in multiset(f);
      assert o in listed <==> o in multiset(listed);
    }
  }

  /** The total printed on a run reads back as the integer the contract is given. */
  lemma RunTotalReadsBack(p: Plan, roster: Roster)
    requires RunOf(p, roster).Some?
    ensures var run := RunOf(p, roster).value;
            ToBaseUnits(run.totalAmount, STELLAR_DECIMALS) == Some(run.totalBaseUnits)
  {
    hide ToBaseUnits, FromBaseUnits, Lines, LinesTotal;
    RoundTrip(RunOf(p, roster).value.totalBaseUnits, STELLAR_DECIMALS);
  }

  // ---- Who blocks a run ----

  /** An active employee whose salary does not parse. */
  predicate Malformed(roster: Roster, id: string) {
    Paid(roster, id) && ToBaseUnits(roster[id].salaryAmount, STELLAR_DECIMALS).None?
  }

  lemma RequiredStep(ids: seq<string>, roster: Roster)
    requires ids != []
    ensures Required(ids, roster).None? <==>
            Required(ids[..|ids| - 1], roster).None? || Malformed(roster, ids[|ids| - 1])
  {
    hide ToBaseUnits;
  }

  lemma {:induction false} RequiredIff(ids: seq<string>, roster: Roster)
    ensures Required(ids, roster).Some? <==> forall id :: id in ids ==> !Malformed(roster, id)
  {
    hide Malformed;
    if ids != [] {
      var init, last := ids[..|ids| - 1], ids[|ids| - 1];
      assert ids == init + [last];
      RequiredStep(ids, roster);
      RequiredIff(init, roster);
    }
  }

  /** A run can be built exactly when no active employee it names has a malformed salary. With
      ForecastSucceedsIff: one such salary makes the whole tenant's forecast throw. */
  lemma RunBuiltIff(p: Plan, roster: Roster)
    ensures RunOf(p, roster).Some? <==> forall id :: id in p.employeeIds ==> !Malformed(roster, id)
  {
    RequiredIff(p.employeeIds, roster);
    RequiredIsLines(p, p.employeeIds, roster);
    hide Required, Lines, LinesTotal, Malformed;
  }

  // ---- What the worker is given ----

  function RowsOf(plans: seq<Plan>): PS.Schedules {
    if plans == [] then map[]
    else
      var p := plans[|plans| - 1];
      RowsOf(plans[..|plans| - 1])[p.id := p.timing]
  }

  predicate DistinctIds(plans: seq<Plan>) {
    forall i, j :: 0 <= i < j < |plans| ==> plans[i].id != plans[j].id
  }

  function ScheduleIds(f: seq<Obligation>): (ids: seq<string>)
    ensures |ids| == |f| && forall i :: 0 <= i < |f| ==> ids[i] == f[i].scheduleId
  {
    seq(|f|, i requires 0 <= i < |f| => f[i].scheduleId)
  }

  lemma {:induction false} RowsAt(plans: seq<Plan>)
    requires DistinctIds(plans)
    ensures forall k :: 0 <= k < |plans| ==> plans[k].id in RowsOf(plans) && RowsOf(plans)[plans[k].id] == plans[k].timing
    ensures forall id :: id in RowsOf(plans) ==> exists k :: 0 <= k < |plans| && plans[k].id == id
  {
    if plans != [] {
      var init := plans[..|plans| - 1];
      RowsAt(init);
      assert forall k :: 0 <= k < |init| ==> init[k] == plans[k];
      forall id | id in RowsOf(plans)
        ensures exists k :: 0 <= k < |plans| && plans[k].id == id
      {
        if id in RowsOf(init) {
          var k :| 0 <= k < |init| && init[k].id == id;
          assert plans[k].id == id;
        } else {
          assert plans[|plans| - 1].id == id;
        }
      }
    }
  }

  predicate Single(s: seq<Obligation>) {
    forall i, j :: 0 <= i < j < |s| ==> s[i] != s[j]
  }

  lemma {:induction false} SingleCounts(s: seq<Obligation>)
    ensures Single(s) <==> forall x :: multiset(s)[x] <= 1
  {
    if s != [] {
      var init, last := s[..|s| - 1], s[|s| - 1];
      assert s == init + [last];
      SingleCounts(init);
      if last in init {
        var i :| 0 <= i < |init| && init[i] == last;
        assert s[i] == s[|s| - 1];
        assert multiset(s)[last] >= 2;
      } else {
        SingleAppend(init, last);
      }
    }
  }

  lemma SingleAppend(s: seq<Obligation>, o: Obligation)
    requires o !in s
    ensures Single(s + [o]) <==> Single(s)
    ensures (forall x :: multiset(s + [o])[x] <= 1) <==> (forall x :: multiset(s)[x] <= 1)
  {
    var t := s + [o];
    assert forall i :: 0 <= i < |s| ==> t[i] == s[i] && s[i] in s;
    assert forall x :: multiset(t)[x] == multiset(s)[x] + if x == o then 1 else 0;
    assert multiset(s)[o] == 0;
  }

  lemma {:induction false} ObligationsSingle(plans: seq<Plan>, roster: Roster)
    requires DistinctIds(plans) && Obligations(plans, roster).Some?
    ensures Single(Obligations(plans, roster).value)
  {
    if plans != [] {
      var init := plans[..|plans| - 1];
      ObligationsStep(plans, roster);
      ObligationsSingle(init, roster);
      var sofar := Obligations(init, roster).value;
      hide Obligations, RunOf;
      forall i | 0 <= i < |sofar|
        ensures sofar[i].scheduleId != plans[|plans| - 1].id
      {
        ObligationsAreRuns(init, roster, sofar[i]);
        var k :| Owes(init, roster, sofar[i], k);
        assert init[k] == plans[k];
      }
    }
  }

  lemma EntryOwed(plans: seq<Plan>, roster: Roster, i: nat) returns (k: nat)
    requires Forecast(plans, roster).Some? && i < |Forecast(plans, roster).value|
    ensures Owes(plans, roster, Forecast(plans, roster).value[i], k)
  {
    ForecastAgreesWithRuns(plans, roster);
    hide Obligations, Forecast, RunOf, Sorted, DueAt;
    var f := Forecast(plans, roster).value;
    assert f[i] in f;
    k :| Owes(plans, roster, f[i], k);
  }

  lemma ForecastSingle(plans: seq<Plan>, roster: Roster)
    requires DistinctIds(plans) && Forecast(plans, roster).Some?
    ensures Single(Forecast(plans, roster).value)
  {
    ForecastAgreesWithRuns(plans, roster);
    ObligationsSingle(plans, roster);
    hide Single, Owes, DueAt, Sorted;
    SingleCounts(Obligations(plans, roster).value);
    SingleCounts(Forecast(plans, roster).value);
  }

  lemma EntryUnique(plans: seq<Plan>, roster: Roster, i: nat, j: nat)
    requires DistinctIds(plans) && Forecast(plans, roster).Some?
    requires i < j < |Forecast(plans, roster).value|
    ensures Forecast(plans, roster).value[i].scheduleId != Forecast(plans, roster).value[j].scheduleId
  {
    hide *;
    ForecastSingle(plans, roster);
    var k := EntryOwed(plans, roster, i);
    var l := EntryOwed(plans, roster, j);
    OneEntryEach(plans, roster, Forecast(plans, roster).value, i, j, k, l);
  }

  lemma OneEntryEach(plans: seq<Plan>, roster: Roster, f: seq<Obligation>, i: nat, j: nat, k: nat, l: nat)
    requires DistinctIds(plans) && Single(f) && i < j < |f|
    requires Owes(plans, roster, f[i], k) && Owes(plans, roster, f[j], l)
    ensures f[i].scheduleId != f[j].scheduleId
  {
    hide RunOf;
  }

  lemma EntryOf(plans: seq<Plan>, roster: Roster, k: nat) returns (i: nat)
    requires Forecast(plans, roster).Some? && k < |plans| && plans[k].timing.active
    ensures i < |Forecast(plans, roster).value| && Forecast(plans, roster).value[i].scheduleId == plans[k].id
  {
    ForecastAgreesWithRuns(plans, roster);
    ForecastSucceedsIff(plans, roster);
    hide Obligations, Forecast, RunOf, Sorted, DueAt;
    var f := Forecast(plans, roster).value;
    var o := ObligationOf(plans[k], RunOf(plans[k], roster).value);
    assert Owes(plans, roster, o, k);
    assert o in f;
    i :| 0 <= i < |f| && f[i] == o;
  }

  lemma EntryRow(plans: seq<Plan>, roster: Roster, i: nat)
    requires DistinctIds(plans) && Forecast(plans, roster).Some? && i < |Forecast(plans, roster).value|
    ensures var s, o := RowsOf(plans), Forecast(plans, roster).value[i];
            o.scheduleId in s && s[o.scheduleId].active && s[o.scheduleId].nextRunAt == o.nextRunAt
  {
    var k := EntryOwed(plans, roster, i);
    RowsAt(plans);
    hide Forecast, RunOf, RowsOf;
  }

  lemma RowEntry(plans: seq<Plan>, roster: Roster, id: string)
    requires DistinctIds(plans) && Forecast(plans, roster).Some?
    requires id in RowsOf(plans) && RowsOf(plans)[id].active
    ensures id in ScheduleIds(Forecast(plans, roster).value)
  {
    RowsAt(plans);
    hide Forecast, RowsOf;
    var k :| 0 <= k < |plans| && plans[k].id == id;
    var i := EntryOf(plans, roster, k);
    assert ScheduleIds(Forecast(plans, roster).value)[i] == id;
  }

  lemma ForecastSorted(plans: seq<Plan>, roster: Roster)
    requires Forecast(plans, roster).Some?
    ensures Sorted(Forecast(plans, roster).value)
  {
    ForecastAgreesWithRuns(plans, roster);
  }

  /** The forecast gives the worker a listing of the tenant's schedules: every active one once,
      sorted by its next run. */
  lemma ForecastIsListing(plans: seq<Plan>, roster: Roster)
    requires DistinctIds(plans) && Forecast(plans, roster).Some?
    ensures PS.Listing(RowsOf(plans), ScheduleIds(Forecast(plans, roster).value))
  {
    hide Forecast, RowsOf, DistinctIds;
    var s, f := RowsOf(plans), Forecast(plans, roster).value;
    ForecastSorted(plans, roster);
    forall i | 0 <= i < |f|
      ensures f[i].scheduleId in s && s[f[i].scheduleId].active && s[f[i].scheduleId].nextRunAt == f[i].nextRunAt
    {
      EntryRow(plans, roster, i);
    }
    forall id | id in s && s[id].active
      ensures id in ScheduleIds(f)
    {
      RowEntry(plans, roster, id);
    }
    forall i, j | 0 <= i < j < |f|
      ensures f[i].scheduleId != f[j].scheduleId
    {
      EntryUnique(plans, roster, i, j);
    }
  }

  // ---- The loops ----

  method RosterOf(employees: seq<Employee>) returns (roster: Roster)
    ensures roster == ById(employees)
  {
    roster := map[];
    for i := 0 to |employees|
      invariant roster == ById(employees[..i])
    {
      assert employees[..i + 1][..i] == employees[..i];
      roster := roster[employees[i].id := employees[i]];
    }
    assert employees[..|employees|] == employees;
  }

  /** Throws (None) at the first malformed salary. */
  method UpcomingObligations(plans: seq<Plan>, employees: seq<Employee>) returns (r: Option<seq<Obligation>>)
    ensures r == Forecast(plans, ById(employees))
  {
    hide ToBaseUnits, SortByRun, ById;
    var roster := RosterOf(employees);
    var result: seq<Obligation> := [];
    for i := 0 to |plans|
      invariant Obligations(plans[..i], roster) == Some(result)
    {
      assert plans[..i + 1][..i] == plans[..i];
      var p := plans[i];
      if p.timing.active {
        var total, count := 0, 0;
        for j := 0 to |p.employeeIds|
          invariant Required(p.employeeIds[..j], roster) == Some((total, count))
        {
          assert p.employeeIds[..j + 1][..j] == p.employeeIds[..j];
          var id := p.employeeIds[j];
          if Paid(roster, id) {
            var amount := ToBaseUnits(roster[id].salaryAmount, STELLAR_DECIMALS);
            if amount.None? {
              RequiredPrefix(p.employeeIds, j + 1, roster);
              ObligationsPrefix(plans, i + 1, roster);
              return None;
            }
            total := total + amount.value;
            count := count + 1;
          }
        }
        assert p.employeeIds[..|p.employeeIds|] == p.employeeIds;
        result := result + [Obligation(p.id, p.name, p.timing.nextRunAt, p.asset, total, count)];
      }
    }
    assert plans[..|plans|] == plans;
    r := Some(SortByRun(result));
  }

  lemma {:induction false} RequiredPrefix(ids: seq<string>, n: nat, roster: Roster)
    requires n <= |ids| && Required(ids[..n], roster).None?
    ensures Required(ids, roster).None?
    decreases |ids|
  {
    if n == |ids| {
      assert ids[..n] == ids;
    } else {
      assert ids[..|ids| - 1][..n] == ids[..n];
      RequiredPrefix(ids[..|ids| - 1], n, roster);
    }
  }

  lemma {:induction false} ObligationsPrefix(plans: seq<Plan>, n: nat, roster: Roster)
    requires n <= |plans| && Obligations(plans[..n], roster).None?
    ensures Obligations(plans, roster).None?
    decreases |plans|
  {
    if n == |plans| {
      assert plans[..n] == plans;
    } else {
      assert plans[..|plans| - 1][..n] == plans[..n];
      ObligationsPrefix(plans[..|plans| - 1], n, roster);
    }
  }

  method BuildRunLines(p: Plan, employees: seq<Employee>) returns (lines: seq<Line>)
    ensures lines == Lines(p, p.employeeIds, ById(employees))
  {
    var roster := RosterOf(employees);
    lines := [];
    for i := 0 to |p.employeeIds|
      invariant lines == Lines(p, p.employeeIds[..i], roster)
    {
      assert p.employeeIds[..i + 1][..i] == p.employeeIds[..i];
      var id := p.employeeIds[i];
      if Paid(roster, id) {
        lines := lines + [LineOf(p, roster[id])];
      }
    }
    assert p.employeeIds[..|p.employeeIds|] == p.employeeIds;
  }
}
