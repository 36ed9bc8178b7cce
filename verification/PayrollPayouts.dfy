/** What whole payroll histories pay, against what they record. */
module PayrollPayouts {
  import opened Wrappers
  import opened PayrollSchedules
  import opened PayrollRuns
  import opened PayrollSettlement
  import PC = PayrollContract
  import PF = PayrollForecast

  datatype Execution = Execution(id: Id, x: Conditions)

  function ChainAt(c: Chain, cfg: Config, es: seq<Execution>, k: nat): Chain
    requires k <= |es|
  {
    if k == 0 then c else Executed(ChainAt(c, cfg, es, k - 1), cfg, es[k - 1].x).0
  }

  function AttemptAt(c: Chain, cfg: Config, es: seq<Execution>, k: nat): Attempt
    requires k < |es|
  {
    Executed(ChainAt(c, cfg, es, k), cfg, es[k].x).1
  }

  /** The executions are those of a worker's log, and end there as they do on the chain. */
  ghost predicate Realizes(log: seq<Entry>, c: Chain, cfg: Config, es: seq<Execution>) {
    |log| == |es| && forall k :: 0 <= k < |es| ==> log[k] == Entry(es[k].id, AttemptAt(c, cfg, es, k))
  }

  // ---- What one execution does, in terms of its conditions ----

  predicate ReachesChain(cfg: Config, x: Conditions) {
    !x.refused && x.run.Some? && !x.dryRun && cfg.enabled
  }

  /** The payout lands. */
  predicate Sends(cfg: Config, x: Conditions) {
    ReachesChain(cfg, x) && Pays(cfg, x.run.value) && !x.fault.PayoutFails?
  }

  /** The service account may record runs. */
  predicate Entitled(store: PC.Store, cfg: Config) {
    store.admin == Some(cfg.service) || (store.admin.Some? && cfg.service in store.operators)
  }

  /** The contract takes these amounts. */
  predicate Recordable(run: PF.Run) {
    0 < run.totalBaseUnits <= PC.I128_MAX && 0 < |run.lines| < 0x1_0000_0000
  }

  /** The record lands, if the run id is new. */
  predicate Records(store: PC.Store, cfg: Config, x: Conditions) {
    && ReachesChain(cfg, x) && Entitled(store, cfg) && Recordable(x.run.value)
    && !x.fault.RecordFails?
    && (Pays(cfg, x.run.value) ==> !x.fault.PayoutFails? && !x.fault.PayoutReplyLost?)
  }

  /** An execution changes the chain by its payout and its record, each exactly under its condition,
      and by nothing else. */
  lemma ExecutedEffects(c: Chain, cfg: Config, x: Conditions)
    requires x.runId !in c.contract.runs
    ensures var after := Executed(c, cfg, x).0;
            && after.payments == c.payments + (if Sends(cfg, x) then [Payment(x.runId, Payees(x.run.value.lines))] else [])
            && after.contract.admin == c.contract.admin && after.contract.operators == c.contract.operators
            && after.contract.runs == c.contract.runs + (if Records(c.contract, cfg, x) then {x.runId} else {})
            && |after.contract.events| == |c.contract.events| + (if Records(c.contract, cfg, x) then 1 else 0)
  {
    hide Payees, IsStellar;
  }

  /** When the API says that the run settled: the record landed and was heard of, or the contract is
      not configured. */
  lemma SettledIff(c: Chain, cfg: Config, x: Conditions)
    requires x.runId !in c.contract.runs
    ensures Advances(Executed(c, cfg, x).1) <==>
            && !x.refused && x.run.Some? && !x.dryRun
            && !x.database.RunUpdateFails? && !x.database.ScheduleUpdateFails?
            && (!cfg.enabled || (Records(c.contract, cfg, x) && !x.fault.RecordReplyLost?))
  {
    hide Payees, IsStellar;
  }

  /** Run ids are drawn anew. */
  ghost predicate FreshRuns(c: Chain, es: seq<Execution>) {
    && (forall i, j :: 0 <= i < j < |es| ==> es[i].x.runId != es[j].x.runId)
    && (forall i :: 0 <= i < |es| ==> es[i].x.runId !in c.contract.runs)
  }

  lemma SameEntitlement(a: PC.Store, b: PC.Store, cfg: Config, x: Conditions)
    requires a.admin == b.admin && a.operators == b.operators
    ensures Records(a, cfg, x) <==> Records(b, cfg, x)
  {
  }

  /** The runs that the first k executions record. */
  function Recorded(store: PC.Store, cfg: Config, es: seq<Execution>, k: nat): set<string>
    requires k <= |es|
  {
    if k == 0 then {}
    else Recorded(store, cfg, es, k - 1) + if Records(store, cfg, es[k - 1].x) then {es[k - 1].x.runId} else {}
  }

  /** The payments that they send, in order. */
  function Sent(cfg: Config, es: seq<Execution>, k: nat): seq<Payment>
    requires k <= |es|
  {
    if k == 0 then []
    else
      var x := es[k - 1].x;
      Sent(cfg, es, k - 1) + if Sends(cfg, x) then [Payment(x.runId, Payees(x.run.value.lines))] else []
  }

  lemma {:induction false} RecordedIff(store: PC.Store, cfg: Config, es: seq<Execution>, k: nat, i: nat)
    requires k <= |es| && i < |es| && forall a, b :: 0 <= a < b < |es| ==> es[a].x.runId != es[b].x.runId
    ensures es[i].x.runId in Recorded(store, cfg, es, k) <==> i < k && Records(store, cfg, es[i].x)
  {
    hide Records;
    if k > 0 {
      RecordedIff(store, cfg, es, k - 1, i);
    }
  }

  lemma {:induction false} SentIn(cfg: Config, es: seq<Execution>, k: nat, p: Payment)
    requires k <= |es|
    ensures p in Sent(cfg, es, k) <==>
            exists i :: 0 <= i < k && Sends(cfg, es[i].x) && p == Payment(es[i].x.runId, Payees(es[i].x.run.value.lines))
  {
    hide Payees;
    if k > 0 {
      SentIn(cfg, es, k - 1, p);
    }
  }

  /** What a history leaves on the chain: the payments and records of its executions, nothing else. */
  lemma {:induction false} HistoryOnChain(c: Chain, cfg: Config, es: seq<Execution>, k: nat)
    requires FreshRuns(c, es) && k <= |es|
    ensures var at := ChainAt(c, cfg, es, k);
            && at.payments == c.payments + Sent(cfg, es, k)
            && at.contract.runs == c.contract.runs + Recorded(c.contract, cfg, es, k)
            && at.contract.admin == c.contract.admin && at.contract.operators == c.contract.operators
    ensures k < |es| ==> es[k].x.runId !in ChainAt(c, cfg, es, k).contract.runs
  {
    if k < |es| {
      RecordedIff(c.contract, cfg, es, k, k);
    }
    hide Executed, Records, Sends;
    if k > 0 {
      var before, x := ChainAt(c, cfg, es, k - 1), es[k - 1].x;
      HistoryOnChain(c, cfg, es, k - 1);
      ExecutedEffects(before, cfg, x);
      SameEntitlement(before.contract, c.contract, cfg, x);
    }
  }

  // ---- Payouts against records ----

  /** Every payment made has its run on record exactly when no record was refused or failed after its
      payout had landed. */
  lemma PaymentsOnRecordIff(c: Chain, cfg: Config, es: seq<Execution>)
    requires FreshRuns(c, es) && c.payments == []
    ensures var after := ChainAt(c, cfg, es, |es|);
            (forall p :: p in after.payments ==> p.runId in after.contract.runs) <==>
            forall k :: 0 <= k < |es| && Sends(cfg, es[k].x) ==> Records(c.contract, cfg, es[k].x)
  {
    HistoryOnChain(c, cfg, es, |es|);
    hide Executed, Sends, Records, ChainAt, Recorded, Sent;
    var n := |es|;
    forall k | 0 <= k < n && Sends(cfg, es[k].x)
      ensures Payment(es[k].x.runId, Payees(es[k].x.run.value.lines)) in Sent(cfg, es, n)
      ensures es[k].x.runId in c.contract.runs + Recorded(c.contract, cfg, es, n) <==> Records(c.contract, cfg, es[k].x)
    {
      SentIn(cfg, es, n, Payment(es[k].x.runId, Payees(es[k].x.run.value.lines)));
      RecordedIff(c.contract, cfg, es, n, k);
    }
    forall p | p in Sent(cfg, es, n)
      ensures exists k :: 0 <= k < n && Sends(cfg, es[k].x) && p.runId == es[k].x.runId
    {
      SentIn(cfg, es, n, p);
    }
  }

  function RecordCount(store: PC.Store, cfg: Config, es: seq<Execution>, k: nat): nat
    requires k <= |es|
  {
    if k == 0 then 0 else RecordCount(store, cfg, es, k - 1) + if Records(store, cfg, es[k - 1].x) then 1 else 0
  }

  /** The records among them of runs that paid nobody on the network. */
  function Unpaid(store: PC.Store, cfg: Config, es: seq<Execution>, k: nat): nat
    requires k <= |es|
  {
    if k == 0 then 0
    else
      var x := es[k - 1].x;
      Unpaid(store, cfg, es, k - 1) + if Records(store, cfg, x) && !Pays(cfg, x.run.value) then 1 else 0
  }

  lemma {:induction false} EventsAt(c: Chain, cfg: Config, es: seq<Execution>, k: nat)
    requires FreshRuns(c, es) && k <= |es|
    ensures |ChainAt(c, cfg, es, k).contract.events| == |c.contract.events| + RecordCount(c.contract, cfg, es, k)
  {
    hide Executed, Records, Sends;
    if k > 0 {
      var before, x := ChainAt(c, cfg, es, k - 1), es[k - 1].x;
      EventsAt(c, cfg, es, k - 1);
      HistoryOnChain(c, cfg, es, k - 1);
      ExecutedEffects(before, cfg, x);
      SameEntitlement(before.contract, c.contract, cfg, x);
    }
  }

  lemma {:induction false} CountsCompared(store: PC.Store, cfg: Config, es: seq<Execution>, k: nat)
    requires k <= |es|
    ensures RecordCount(store, cfg, es, k) <= |Sent(cfg, es, k)| + Unpaid(store, cfg, es, k)
    ensures |Sent(cfg, es, k)| + Unpaid(store, cfg, es, k) == RecordCount(store, cfg, es, k) <==>
            forall i :: 0 <= i < k && Sends(cfg, es[i].x) ==> Records(store, cfg, es[i].x)
  {
    hide Payees, Recordable, Entitled;
    if k > 0 {
      CountsCompared(store, cfg, es, k - 1);
    }
  }

  /** Payouts sent equal run events recorded, not counting events of runs that pay nobody on the
      network, exactly when no record was refused or failed after its payout; there are never fewer. */
  lemma PayoutsEqualEventsIff(c: Chain, cfg: Config, es: seq<Execution>)
    requires FreshRuns(c, es)
    ensures var after := ChainAt(c, cfg, es, |es|);
            var payouts := |after.payments| - |c.payments|;
            var events := |after.contract.events| - |c.contract.events| - Unpaid(c.contract, cfg, es, |es|);
            && events <= payouts
            && (events == payouts <==>
                forall k :: 0 <= k < |es| && Sends(cfg, es[k].x) ==> Records(c.contract, cfg, es[k].x))
  {
    HistoryOnChain(c, cfg, es, |es|);
    EventsAt(c, cfg, es, |es|);
    hide ChainAt, Sends, Records;
    CountsCompared(c.contract, cfg, es, |es|);
  }

  // ---- A one-off is paid once or more ----

  lemma NoEntries(log: seq<Entry>, y: Id)
    requires !Tried(log, y)
    ensures forall i :: 0 <= i < |log| ==> log[i].id != y
  {
  }

  /** In one tick y has at most one entry, and it is what the environment says. */
  lemma OneEntryPerTick(s: Schedules, t: Tick, y: Id, m: nat)
    requires ValidTick(s, t) && m < |AfterTick(s, t).1| && AfterTick(s, t).1[m].id == y
    ensures AfterTick(s, t).1[m].attempt == t.env(y) && Tried(AfterTick(s, t).1, y)
    ensures forall n :: m < n < |AfterTick(s, t).1| ==> AfterTick(s, t).1[n].id != y
  {
    TickForward(s, t);
    hide AfterTick, Due, ValidTick;
    var log, due := AfterTick(s, t).1, Due(s, t.order, t.now);
    assert forall n :: m < n < |log| ==> log[n].id == due[n] && due[n] != due[m];
  }

  /** No entry of y follows the m-th of the log. */
  ghost predicate LastOf(log: seq<Entry>, y: Id, m: int) {
    forall n :: 0 <= n < |log| && m < n ==> log[n].id != y
  }

  /** In the log of a whole run, no entry of a one-off follows the one that moved it on. */
  lemma {:induction false} NothingAfterwards(s: Schedules, ticks: seq<Tick>, y: Id, i: nat, m: nat)
    requires ValidRun(s, ticks) && i <= |ticks| && y in s && s[y].cadence.OneOff?
    requires m < |LogTo(s, ticks, i)| && LogTo(s, ticks, i)[m].id == y && Advances(LogTo(s, ticks, i)[m].attempt)
    ensures y in StateAt(s, ticks, i) && !StateAt(s, ticks, i)[y].active
    ensures LastOf(LogTo(s, ticks, i), y, m)
  {
    hide AfterTick, ValidTick, Tried, Advances;
    var log, latest := LogTo(s, ticks, i - 1), LogAt(s, ticks, i - 1);
    var before := StateAt(s, ticks, i - 1);
    assert ValidTick(before, ticks[i - 1]);
    if m < |log| {
      NothingAfterwards(s, ticks, y, i - 1, m);
      InactiveNotTried(before, ticks[i - 1], y);
      NoEntries(latest, y);
    } else {
      assert latest[m - |log|] == LogTo(s, ticks, i)[m];
      OneEntryPerTick(before, ticks[i - 1], y, m - |log|);
      SettledAt(s, ticks, y, i - 1);
    }
    LastOfAppended(log, latest, y, m);
  }

  lemma LastOfAppended(log: seq<Entry>, latest: seq<Entry>, y: Id, m: nat)
    requires m < |log| ==> LastOf(log, y, m) && LastOf(latest, y, -1)
    requires m >= |log| ==> LastOf(latest, y, m - |log|)
    ensures LastOf(log + latest, y, m)
  {
    forall n | m < n < |log + latest|
      ensures (log + latest)[n].id != y
    {
      assert n >= |log| ==> (log + latest)[n] == latest[n - |log|];
    }
  }

  /** The payments among these that were made for y. */
  function PaymentsFor(payments: seq<Payment>, es: seq<Execution>, y: Id): nat {
    if payments == [] then 0
    else
      var last := payments[|payments| - 1];
      PaymentsFor(payments[..|payments| - 1], es, y) +
      if exists k :: 0 <= k < |es| && es[k].id == y && es[k].x.runId == last.runId then 1 else 0
  }

  /** How many of the first k executions paid for y. */
  function PaidFor(cfg: Config, es: seq<Execution>, y: Id, k: nat): nat
    requires k <= |es|
  {
    if k == 0 then 0
    else PaidFor(cfg, es, y, k - 1) + if es[k - 1].id == y && Sends(cfg, es[k - 1].x) then 1 else 0
  }

  lemma SendsRun(cfg: Config, x: Conditions)
    requires Sends(cfg, x)
    ensures x.run.Some?
  {
  }

  lemma {:induction false} PaymentsForSent(cfg: Config, es: seq<Execution>, y: Id, k: nat)
    requires k <= |es| && forall a, b :: 0 <= a < b < |es| ==> es[a].x.runId != es[b].x.runId
    ensures PaymentsFor(Sent(cfg, es, k), es, y) == PaidFor(cfg, es, y, k)
  {
    hide Pays, Payees, ReachesChain;
    if k > 0 {
      PaymentsForSent(cfg, es, y, k - 1);
      if Sends(cfg, es[k - 1].x) {
        SendsRun(cfg, es[k - 1].x);
        var all, p := Sent(cfg, es, k), Payment(es[k - 1].x.runId, Payees(es[k - 1].x.run.value.lines));
        assert all == Sent(cfg, es, k - 1) + [p];
        assert all[..|all| - 1] == Sent(cfg, es, k - 1);
        if j :| 0 <= j < |es| && es[j].id == y && es[j].x.runId == p.runId {
          assert j == k - 1;
        }
      } else {
        assert Sent(cfg, es, k) == Sent(cfg, es, k - 1);
      }
    }
  }

  lemma {:induction false} PaidForLast(cfg: Config, es: seq<Execution>, y: Id, m: nat, k: nat)
    requires m < k <= |es| && es[m].id == y && Sends(cfg, es[m].x)
    requires forall n :: m < n < |es| ==> es[n].id != y
    ensures PaidFor(cfg, es, y, k) == PaidFor(cfg, es, y, m) + 1
  {
    hide Sends;
    if k - 1 > m {
      PaidForLast(cfg, es, y, m, k - 1);
    }
  }

  lemma {:induction false} PaidForNoneIff(cfg: Config, es: seq<Execution>, y: Id, k: nat)
    requires k <= |es|
    ensures PaidFor(cfg, es, y, k) == 0 <==> forall i :: 0 <= i < k && es[i].id == y ==> !Sends(cfg, es[i].x)
  {
    hide Sends;
    if k > 0 {
      PaidForNoneIff(cfg, es, y, k - 1);
    }
  }

  /** A one-off that settled with a payout was paid that once and once more for every earlier attempt
      whose payout had landed; so it was paid exactly once if and only if there was none. */
  lemma OneOffPaidOnceIff(s: Schedules, ticks: seq<Tick>, y: Id, c: Chain, cfg: Config, es: seq<Execution>, m: nat)
    requires ValidRun(s, ticks) && y in s && s[y].cadence.OneOff?
    requires c.payments == [] && FreshRuns(c, es) && Realizes(LogTo(s, ticks, |ticks|), c, cfg, es)
    requires m < |es| && es[m].id == y && Advances(AttemptAt(c, cfg, es, m)) && Sends(cfg, es[m].x)
    ensures var payments := ChainAt(c, cfg, es, |es|).payments;
            && PaymentsFor(payments, es, y) == 1 + PaidFor(cfg, es, y, m)
            && (PaymentsFor(payments, es, y) == 1 <==> forall k :: 0 <= k < m && es[k].id == y ==> !Sends(cfg, es[k].x))
  {
    var log := LogTo(s, ticks, |ticks|);
    hide LogTo, ValidRun, ChainAt, AttemptAt, Sends, Sent, PaymentsFor, PaidFor, Advances;
    assert log[m] == Entry(es[m].id, AttemptAt(c, cfg, es, m));
    NothingAfterwards(s, ticks, y, |ticks|, m);
    assert forall n :: m < n < |es| ==> log[n].id == es[n].id;
    HistoryOnChain(c, cfg, es, |es|);
    PaymentsForSent(cfg, es, y, |es|);
    PaidForLast(cfg, es, y, m, |es|);
    PaidForNoneIff(cfg, es, y, m);
    assert c.payments + Sent(cfg, es, |es|) == Sent(cfg, es, |es|);
  }

  /** The contract promises that a run id settles once; a retry draws another id. An execution whose
      record fails after its payout leaves the schedule to be retried, and the retry that settles pays
      the same people again, for a single event. */
  lemma RetryPaysAgain(c: Chain, cfg: Config, x: Conditions, retryId: string)
    requires !x.refused && x.run.Some? && !x.dryRun && cfg.enabled
    requires Pays(cfg, x.run.value) && Recordable(x.run.value) && Entitled(c.contract, cfg)
    requires x.runId !in c.contract.runs && retryId !in c.contract.runs && retryId != x.runId
    requires x.fault.RecordFails? && x.database.Stored?
    ensures var (failed, first) := Executed(c, cfg, x);
            var (settled, second) := Executed(failed, cfg, x.(runId := retryId, fault := NoFault));
            var payees := Payees(x.run.value.lines);
            && first == ChainFailed(x.at) && second == Settled
            && settled.payments == c.payments + [Payment(x.runId, payees), Payment(retryId, payees)]
            && |settled.contract.events| == |c.contract.events| + 1
            && x.runId !in settled.contract.runs && retryId in settled.contract.runs
  {
    hide Payees;
    var p, q := Payment(x.runId, Payees(x.run.value.lines)), Payment(retryId, Payees(x.run.value.lines));
    assert c.payments + [p] + [q] == c.payments + [p, q];
  }

  // ---- Runs that the contract refuses ----

  /** The run of a schedule is acceptable to the contract exactly when it pays somebody a positive,
      representable total; one that names no active employee is not. */
  lemma RunRecordableIff(p: PF.Plan, roster: PF.Roster, store: PC.Store, cfg: Config, x: Conditions)
    requires PF.RunOf(p, roster).Some? && Encodable(PF.RunOf(p, roster).value) && x.runId !in store.runs
    ensures var run := PF.RunOf(p, roster).value;
            PC.AfterExecute(store, {cfg.service}, cfg.service, TermsOf(cfg, run, x)).1.Succeeded() <==>
            Entitled(store, cfg) && Recordable(run)
  {
    hide PF.RunOf;
  }

  lemma {:induction false} NobodyListed(p: PF.Plan, ids: seq<string>, roster: PF.Roster)
    requires forall id :: id in ids ==> !PF.Paid(roster, id)
    ensures PF.Lines(p, ids, roster) == []
  {
    if ids != [] {
      NobodyListed(p, ids[..|ids| - 1], roster);
    }
  }

  lemma NobodyToPay(p: PF.Plan, roster: PF.Roster)
    requires forall id :: id in p.employeeIds ==> !PF.Paid(roster, id)
    ensures PF.RunOf(p, roster).Some? && PF.RunOf(p, roster).value.lines == [] && !Recordable(PF.RunOf(p, roster).value)
  {
    NobodyListed(p, p.employeeIds, roster);
  }

  lemma RefusedAt(c: Chain, cfg: Config, es: seq<Execution>, k: nat)
    requires FreshRuns(c, es) && k < |es| && cfg.enabled
    requires es[k].x.run.Some? ==> !Recordable(es[k].x.run.value)
    ensures !Advances(AttemptAt(c, cfg, es, k))
  {
    hide Executed, ChainAt, Recordable, Recorded, Sent;
    HistoryOnChain(c, cfg, es, k);
    SettledIff(ChainAt(c, cfg, es, k), cfg, es[k].x);
  }

  /** A schedule whose runs the contract refuses is never moved on: it stays active, whatever the
      worker does. */
  lemma RefusedNeverSettles(s: Schedules, ticks: seq<Tick>, y: Id, c: Chain, cfg: Config, es: seq<Execution>)
    requires ValidRun(s, ticks) && y in s && s[y].active && cfg.enabled
    requires FreshRuns(c, es) && Realizes(LogTo(s, ticks, |ticks|), c, cfg, es)
    requires forall k :: 0 <= k < |es| && es[k].id == y && es[k].x.run.Some? ==> !Recordable(es[k].x.run.value)
    ensures NeverMoved(LogTo(s, ticks, |ticks|), y)
    ensures y in StateAt(s, ticks, |ticks|) && StateAt(s, ticks, |ticks|)[y].active
  {
    hide LogTo, Executed, ChainAt, AttemptAt, Advances, Recordable, ValidRun, FreshRuns;
    var log := LogTo(s, ticks, |ticks|);
    forall k | 0 <= k < |log| && log[k].id == y
      ensures !Advances(log[k].attempt)
    {
      RefusedAt(c, cfg, es, k);
    }
    StaysActive(s, ticks, y, |ticks|);
  }

  lemma {:induction false} StaysActive(s: Schedules, ticks: seq<Tick>, y: Id, i: nat)
    requires ValidRun(s, ticks) && i <= |ticks| && y in s && s[y].active && NeverMoved(LogTo(s, ticks, i), y)
    ensures y in StateAt(s, ticks, i) && StateAt(s, ticks, i)[y].active
  {
    hide AfterTick, ValidTick, NeverMoved;
    if i > 0 {
      NeverMovedParts(LogTo(s, ticks, i - 1), LogAt(s, ticks, i - 1), y);
      StaysActive(s, ticks, y, i - 1);
      assert ValidTick(StateAt(s, ticks, i - 1), ticks[i - 1]);
      TickKeepsActive(StateAt(s, ticks, i - 1), ticks[i - 1], y);
    }
  }

  lemma TickKeepsActive(s: Schedules, t: Tick, y: Id)
    requires ValidTick(s, t) && y in s && s[y].active && NeverMoved(AfterTick(s, t).1, y)
    ensures y in AfterTick(s, t).0 && AfterTick(s, t).0[y].active
  {
    DueIsSorted(s, t.order, t.now);
    hide NeverMoved;
    DueKeepsActive(s, Due(s, t.order, t.now), t.env, t.now, y);
  }

  /** No entry of y moved it on. */
  ghost predicate NeverMoved(log: seq<Entry>, y: Id) {
    forall k :: 0 <= k < |log| && log[k].id == y ==> !Advances(log[k].attempt)
  }

  lemma {:induction false} DueKeepsActive(s: Schedules, due: seq<Id>, env: Id -> Attempt, now: int, y: Id)
    requires DueList(s, due, now) && y in s && s[y].active
    requires NeverMoved(AfterDue(s, due, env).1, y)
    ensures y in AfterDue(s, due, env).0 && AfterDue(s, due, env).0[y].active
  {
    if due != [] {
      var first := Entry(due[0], env(due[0]));
      var (s1, returned) := AfterExecute(s, due[0], env(due[0]));
      ExecuteOther(s, due[0], env(due[0]));
      LogHead(s, due, env);
      assert AfterDue(s, due, env).1[0] == first;
      assert s1[y].active;
      hide AfterExecute, Advances;
      if returned {
        DueListTail(s, due, now, s1);
        NeverMovedTail(first, AfterDue(s1, due[1..], env).1, y);
        DueKeepsActive(s1, due[1..], env, now, y);
      }
    }
  }

  lemma NeverMovedTail(first: Entry, others: seq<Entry>, y: Id)
    requires NeverMoved([first] + others, y)
    ensures NeverMoved(others, y)
  {
    assert forall k :: 0 <= k < |others| ==> others[k] == ([first] + others)[k + 1];
  }

  lemma NeverMovedParts(a: seq<Entry>, b: seq<Entry>, y: Id)
    requires NeverMoved(a + b, y)
    ensures NeverMoved(a, y) && NeverMoved(b, y)
  {
    assert forall k :: 0 <= k < |a| ==> a[k] == (a + b)[k];
    assert forall k :: 0 <= k < |b| ==> b[k] == (a + b)[|a| + k];
  }
}
