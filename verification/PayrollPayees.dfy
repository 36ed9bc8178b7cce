/** Who is in a payment and what an event says, in terms of the schedule, its employees and the run. */
module PayrollPayees {
  import opened Wrappers
  import opened PayrollSchedules
  import opened PayrollSettlement
  import opened PayrollPayouts
  import PC = PayrollContract
  import PF = PayrollForecast

  // ---- Lines ----

  /** Where an employee's pay goes: the wallet, else the bank reference, else nowhere in particular. */
  predicate GoesTo(e: PF.Employee, destination: string) {
    || e.walletAddress == Some(destination)
    || (e.walletAddress.None? && e.bankReference == Some(destination))
    || (e.walletAddress.None? && e.bankReference.None? && destination == "unspecified")
  }

  /** The active employee behind an id. */
  predicate IsActive(roster: PF.Roster, id: string, e: PF.Employee) {
    id in roster && roster[id] == e && e.active
  }

  /** Positions in ascending order. */
  ghost predicate Ascending(pos: seq<nat>, n: nat) {
    && (forall k :: 0 <= k < |pos| ==> pos[k] < n)
    && (forall i, j :: 0 <= i < j < |pos| ==> pos[i] < pos[j])
  }

  lemma AscendingMore(pos: seq<nat>, n: nat)
    requires Ascending(pos, n)
    ensures Ascending(pos, n + 1) && Ascending(pos + [n], n + 1)
  {
  }

  /** The lines of a schedule are those of its active employees, in the order it names them: each with the
      employee's id, salary and rail, the schedule's asset, and the employee's destination. */
  lemma {:induction false} LinesAt(p: PF.Plan, ids: seq<string>, roster: PF.Roster) returns (pos: seq<nat>)
    ensures Ascending(pos, |ids|) && |pos| == |PF.Lines(p, ids, roster)|
    ensures forall i :: 0 <= i < |ids| ==> (i in pos <==> ids[i] in roster && roster[ids[i]].active)
    ensures forall k :: 0 <= k < |pos| ==>
              var line := PF.Lines(p, ids, roster)[k];
              && ids[pos[k]] in roster
              && var e := roster[ids[pos[k]]];
                 && line.employeeId == e.id && line.amount == e.salaryAmount && line.rail == e.preferredRail
                 && line.asset == p.asset && GoesTo(e, line.destination)
  {
    if ids == [] {
      pos := [];
    } else {
      var init, id := ids[..|ids| - 1], ids[|ids| - 1];
      pos := LinesAt(p, init, roster);
      AscendingMore(pos, |init|);
      if PF.Paid(roster, id) {
        pos := pos + [|init|];
      }
    }
  }

  // ---- Payees ----

  lemma PayeesMore(lines: seq<PF.Line>, line: PF.Line)
    ensures Payees(lines + [line]) == Payees(lines) + if IsStellar(line.destination) then [line.destination] else []
  {
    assert (lines + [line])[..|lines|] == lines;
  }

  /** One more line. */
  lemma PositionsMore(init: seq<PF.Line>, last: PF.Line, before: seq<nat>) returns (pos: seq<nat>)
    requires Ascending(before, |init|) && |before| == |Payees(init)|
    requires forall i :: 0 <= i < |init| ==> (i in before <==> IsStellar(init[i].destination))
    requires forall k :: 0 <= k < |before| ==> Payees(init)[k] == init[before[k]].destination
    ensures Ascending(pos, |init| + 1) && |pos| == |Payees(init + [last])|
    ensures forall i :: 0 <= i < |init + [last]| ==> (i in pos <==> IsStellar((init + [last])[i].destination))
    ensures forall k :: 0 <= k < |pos| ==> Payees(init + [last])[k] == (init + [last])[pos[k]].destination
  {
    hide IsStellar, Payees;
    AscendingMore(before, |init|);
    PayeesMore(init, last);
    pos := if IsStellar(last.destination) then before + [|init|] else before;
    forall i | 0 <= i < |init + [last]|
      ensures i in pos <==> IsStellar((init + [last])[i].destination)
    {
      assert i in pos <==> i in before || (i == |init| && IsStellar(last.destination));
    }
  }

  /** The payees of a run are the Stellar destinations of its lines, in line order. */
  lemma {:induction false} PayeesAt(lines: seq<PF.Line>) returns (pos: seq<nat>)
    ensures Ascending(pos, |lines|) && |pos| == |Payees(lines)|
    ensures forall i :: 0 <= i < |lines| ==> (i in pos <==> IsStellar(lines[i].destination))
    ensures forall k :: 0 <= k < |pos| ==> Payees(lines)[k] == lines[pos[k]].destination
  {
    pos := [];
    if lines != [] {
      hide IsStellar, Payees;
      var init := lines[..|lines| - 1];
      assert lines == init + [lines[|init|]];
      pos := PayeesAt(init);
      pos := PositionsMore(init, lines[|init|], pos);
    }
  }

  /** What makes a payout land, in terms of the run's lines. */
  ghost predicate PayoutLands(cfg: Config, x: Conditions) {
    && !x.refused && x.run.Some? && !x.dryRun && cfg.enabled && cfg.paysOut && !x.fault.PayoutFails?
    && exists i :: 0 <= i < |x.run.value.lines| && IsStellar(x.run.value.lines[i].destination)
  }

  lemma SendsIff(cfg: Config, x: Conditions)
    ensures Sends(cfg, x) <==> PayoutLands(cfg, x)
  {
    if x.run.Some? {
      var pos := PayeesAt(x.run.value.lines);
      hide Payees, IsStellar;
      assert Payees(x.run.value.lines) != [] ==> pos[0] in pos;
    }
  }

  /** An execution adds one payment if its payout lands, else none. The payment carries the run id and pays
      exactly the Stellar destinations of the run's lines, in line order: `pos` are their positions. */
  lemma PaymentSays(c: Chain, cfg: Config, x: Conditions) returns (pos: seq<nat>)
    requires x.runId !in c.contract.runs
    ensures var payments := Executed(c, cfg, x).0.payments;
            if !PayoutLands(cfg, x) then payments == c.payments
            else
              var lines := x.run.value.lines;
              && |payments| == |c.payments| + 1 && payments[..|c.payments|] == c.payments
              && var paid := payments[|c.payments|];
                 && paid.runId == x.runId && |paid.payees| == |pos| && Ascending(pos, |lines|)
                 && (forall i :: 0 <= i < |lines| ==> (i in pos <==> IsStellar(lines[i].destination)))
                 && (forall k :: 0 <= k < |pos| ==> paid.payees[k] == lines[pos[k]].destination)
  {
    hide Executed, Payees, IsStellar, Sends, Records;
    ExecutedEffects(c, cfg, x);
    SendsIff(cfg, x);
    pos := [];
    if PayoutLands(cfg, x) {
      pos := PayeesAt(x.run.value.lines);
    }
  }

  /** How often the schedule names an active employee whose pay goes to this address. */
  function NamedWith(ids: seq<string>, roster: PF.Roster, address: string): nat {
    if ids == [] then 0
    else
      var id := ids[|ids| - 1];
      NamedWith(ids[..|ids| - 1], roster, address) +
      if id in roster && roster[id].active && GoesTo(roster[id], address) then 1 else 0
  }

  lemma DestinationIff(p: PF.Plan, e: PF.Employee, address: string)
    ensures GoesTo(e, address) <==> PF.LineOf(p, e).destination == address
  {
  }

  /** Every Stellar address is paid exactly as often as the schedule names an active employee whose pay
      goes there. */
  lemma {:induction false} PaidAsOftenAsNamed(p: PF.Plan, ids: seq<string>, roster: PF.Roster, address: string)
    requires IsStellar(address)
    ensures multiset(Payees(PF.Lines(p, ids, roster)))[address] == NamedWith(ids, roster, address)
  {
    hide IsStellar;
    if ids != [] {
      var init, id := ids[..|ids| - 1], ids[|ids| - 1];
      PaidAsOftenAsNamed(p, init, roster, address);
      if PF.Paid(roster, id) {
        DestinationIff(p, roster[id], address);
        PayeesMore(PF.Lines(p, init, roster), PF.LineOf(p, roster[id]));
      } else {
        assert PF.Lines(p, ids, roster) == PF.Lines(p, init, roster);
      }
      hide Payees, PF.Lines, PF.LineOf, GoesTo;
    }
  }

  lemma {:induction false} NamedAlone(ids: seq<string>, roster: PF.Roster, id: string, address: string)
    requires id in roster && roster[id].active && GoesTo(roster[id], address)
    requires forall other :: other in ids && other in roster && roster[other].active && GoesTo(roster[other], address) ==> other == id
    ensures NamedWith(ids, roster, address) == multiset(ids)[id]
  {
    hide GoesTo;
    if ids != [] {
      var init, last := ids[..|ids| - 1], ids[|ids| - 1];
      assert ids == init + [last];
      NamedAlone(init, roster, id, address);
    }
  }

  /** So an active employee with a Stellar wallet, not shared with another, is paid exactly as often as the
      schedule names them. */
  lemma EmployeePaid(p: PF.Plan, roster: PF.Roster, id: string, wallet: string)
    requires id in roster && roster[id].active && roster[id].walletAddress == Some(wallet) && IsStellar(wallet)
    requires forall other :: other in p.employeeIds && other in roster && roster[other].active && GoesTo(roster[other], wallet) ==>
               other == id
    requires PF.RunOf(p, roster).Some?
    ensures multiset(Payees(PF.RunOf(p, roster).value.lines))[wallet] == multiset(p.employeeIds)[id]
  {
    hide Payees, PF.Lines, IsStellar;
    PaidAsOftenAsNamed(p, p.employeeIds, roster, wallet);
    NamedAlone(p.employeeIds, roster, id, wallet);
  }

  // ---- Events ----

  /** What the record says: an execution that lands its record leaves one event, with the terms of its run
      and the provenance of the service account, else none. */
  lemma EventSays(c: Chain, cfg: Config, x: Conditions)
    requires x.runId !in c.contract.runs
    ensures Executed(c, cfg, x).0.contract.events ==
            c.contract.events +
            if !Records(c.contract, cfg, x) then []
            else
              var run := x.run.value;
              [PC.RunEvent(PC.Terms(cfg.tenant, x.runId, run.totalBaseUnits, x.asset, |run.lines|, x.lcpHash),
                           if c.contract.admin == Some(cfg.service) then "agent" else "operator")]
  {
    hide Payees, IsStellar;
  }

  // ---- Returning ----

  /** An execution returns to the worker exactly when nothing before the chain refuses it and it is a dry
      run, or its record is heard of (or no contract is configured) and all three writes are taken. */
  lemma ReturnsIff(c: Chain, cfg: Config, x: Conditions)
    requires x.runId !in c.contract.runs
    ensures Returns(Executed(c, cfg, x).1) <==>
            && !x.refused && x.run.Some?
            && (|| x.dryRun
                || (&& x.database.Stored?
                    && (!cfg.enabled || (Records(c.contract, cfg, x) && !x.fault.RecordReplyLost?))))
  {
    hide Payees, IsStellar;
  }
}
