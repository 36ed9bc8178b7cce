/** Which on-chain failures are backed off, and what spaces them. */
module PayrollBackoff {
  import opened Cadence
  import opened PayrollSchedules
  import opened PayrollRuns
  import opened PayrollRhythm
  import opened PayrollSettlement
  import opened PayrollPayouts
  import PC = PayrollContract

  // ---- A failure that is stored holds the schedule back ----

  /** Only the last entry of a tick may throw. */
  lemma {:induction false} OnlyLastThrows(s: Schedules, due: seq<Id>, env: Id -> Attempt, k: nat)
    requires k + 1 < |AfterDue(s, due, env).1|
    requires forall i :: 0 <= i < |due| ==> due[i] in s
    ensures Returns(AfterDue(s, due, env).1[k].attempt)
  {
    var (s1, returned) := AfterExecute(s, due[0], env(due[0]));
    ExecuteReturns(s, due[0], env(due[0]));
    ExecuteOther(s, due[0], env(due[0]));
    LogHead(s, due, env);
    hide AfterExecute, AfterDue;
    if returned && k > 0 {
      OnlyLastThrows(s1, due[1..], env, k - 1);
    }
  }

  lemma FailureSaved(s: Schedules, t: Tick, y: Id)
    requires ValidTick(s, t) && y in s && Tried(AfterTick(s, t).1, y) && t.env(y).ChainFailed?
    ensures y in AfterTick(s, t).0 && AfterTick(s, t).0[y].nextRunAt == t.env(y).at + HOUR
  {
    var due, log := Due(s, t.order, t.now), AfterTick(s, t).1;
    TickForward(s, t);
    DueReplays(s, due, t.env, y);
    var k :| 0 <= k < |log| && log[k].id == y;
    if k + 1 < |log| {
      OnlyLastThrows(s, due, t.env, k);
    }
    hide AfterDue, Due, ValidTick, DueList, Tried;
    assert log[|log| - 1] == Entry(y, t.env(y));
  }

  lemma {:induction false} NextRunGrows(s: Schedules, ticks: seq<Tick>, y: Id, i: nat, j: nat)
    requires ValidRun(s, ticks) && i <= j <= |ticks| && y in StateAt(s, ticks, i)
    ensures y in StateAt(s, ticks, j) && StateAt(s, ticks, i)[y].nextRunAt <= StateAt(s, ticks, j)[y].nextRunAt
    decreases j
  {
    hide AfterTick, ValidTick;
    if i < j {
      NextRunGrows(s, ticks, y, i, j - 1);
      assert ValidTick(StateAt(s, ticks, j - 1), ticks[j - 1]);
      TickForward(StateAt(s, ticks, j - 1), ticks[j - 1]);
    }
  }

  /** After an on-chain failure that was stored, the schedule is not tried again for an hour, in
      whatever tick that would be. */
  lemma BackedOff(s: Schedules, ticks: seq<Tick>, y: Id, i: nat, j: nat)
    requires ValidRun(s, ticks) && i < j < |ticks| && y in s
    requires Tried(LogAt(s, ticks, i), y) && ticks[i].env(y).ChainFailed?
    requires Tried(LogAt(s, ticks, j), y)
    ensures ticks[j].now >= ticks[i].env(y).at + HOUR
  {
    hide AfterTick, ValidTick, Tried;
    NextRunGrows(s, ticks, y, 0, i);
    assert ValidTick(StateAt(s, ticks, i), ticks[i]) && ValidTick(StateAt(s, ticks, j), ticks[j]);
    FailureSaved(StateAt(s, ticks, i), ticks[i], y);
    NextRunGrows(s, ticks, y, i + 1, j);
    if StateAt(s, ticks, j)[y].nextRunAt > ticks[j].now {
      LaterNotTried(StateAt(s, ticks, j), ticks[j], y);
    }
  }

  // ---- Which failures are stored ----

  /** The execution reaches the network and comes back with an error. */
  predicate FailsOnChain(store: PC.Store, cfg: Config, x: Conditions) {
    ReachesChain(cfg, x) && !(Records(store, cfg, x) && !x.fault.RecordReplyLost?)
  }

  /** The database takes the status of the run and the row of the schedule. */
  predicate Saved(x: Conditions) { !x.database.RunUpdateFails? && !x.database.ScheduleUpdateFails? }

  lemma FailedIff(c: Chain, cfg: Config, x: Conditions)
    requires x.runId !in c.contract.runs
    ensures Executed(c, cfg, x).1.ChainFailed? <==> FailsOnChain(c.contract, cfg, x) && Saved(x)
    ensures FailsOnChain(c.contract, cfg, x) ==> Executed(c, cfg, x).1 == if Saved(x) then ChainFailed(x.at) else Unsaved
  {
    hide Payees, IsStellar;
  }

  /** An execution of a due schedule that fails on-chain backs it off by an hour exactly when both of
      its database writes are taken; otherwise the row stays as it was, and still due. */
  lemma BacksOffIff(s: Schedules, id: Id, c: Chain, cfg: Config, x: Conditions)
    requires id in s && s[id].nextRunAt <= x.at && x.runId !in c.contract.runs
    requires FailsOnChain(c.contract, cfg, x)
    ensures var (r, returned) := AfterExecute(s, id, Executed(c, cfg, x).1);
            && !returned
            && (r[id].nextRunAt == x.at + HOUR <==> Saved(x))
            && (!Saved(x) ==> r == s)
  {
    FailedIff(c, cfg, x);
    hide Executed, FailsOnChain;
    assert s[id := s[id]] == s;
  }

  /** The times at which the first k executions of y failed on-chain, stored or not. */
  function ChainFailures(store: PC.Store, cfg: Config, es: seq<Execution>, y: Id, k: nat): seq<int>
    requires k <= |es|
  {
    if k == 0 then []
    else
      ChainFailures(store, cfg, es, y, k - 1) +
      if es[k - 1].id == y && FailsOnChain(store, cfg, es[k - 1].x) then [es[k - 1].x.at] else []
  }

  lemma AttemptFailedIff(c: Chain, cfg: Config, es: seq<Execution>, k: nat)
    requires FreshRuns(c, es) && k < |es|
    ensures var x := es[k].x;
            && (AttemptAt(c, cfg, es, k).ChainFailed? <==> FailsOnChain(c.contract, cfg, x) && Saved(x))
            && (AttemptAt(c, cfg, es, k).ChainFailed? ==> AttemptAt(c, cfg, es, k).at == x.at)
  {
    HistoryOnChain(c, cfg, es, k);
    hide Executed, ChainAt, ReachesChain, Saved, Sent, Recorded;
    FailedIff(ChainAt(c, cfg, es, k), cfg, es[k].x);
    SameEntitlement(ChainAt(c, cfg, es, k).contract, c.contract, cfg, es[k].x);
    hide Records;
  }

  lemma {:induction false} StoredFailures(c: Chain, cfg: Config, es: seq<Execution>, log: seq<Entry>, y: Id, k: nat)
    requires FreshRuns(c, es) && Realizes(log, c, cfg, es) && k <= |es|
    ensures var stored, all := Failures(log[..k], y), ChainFailures(c.contract, cfg, es, y, k);
            && |stored| <= |all|
            && (|stored| == |all| ==> stored == all)
            && (|stored| == |all| <==>
                forall i :: 0 <= i < k && es[i].id == y && FailsOnChain(c.contract, cfg, es[i].x) ==> Saved(es[i].x))
  {
    hide AttemptAt, FailsOnChain, Saved;
    if k > 0 {
      StoredFailures(c, cfg, es, log, y, k - 1);
      AttemptFailedIff(c, cfg, es, k - 1);
      assert log[..k][..k - 1] == log[..k - 1];
      assert log[k - 1] == Entry(es[k - 1].id, AttemptAt(c, cfg, es, k - 1));
    }
  }

  /** All on-chain failures of a schedule are stored, and so backed off, exactly when no database write
      was refused after one. */
  lemma AllStoredIff(c: Chain, cfg: Config, es: seq<Execution>, log: seq<Entry>, y: Id)
    requires FreshRuns(c, es) && Realizes(log, c, cfg, es)
    ensures Failures(log, y) == ChainFailures(c.contract, cfg, es, y, |es|) <==>
            forall i :: 0 <= i < |es| && es[i].id == y && FailsOnChain(c.contract, cfg, es[i].x) ==> Saved(es[i].x)
  {
    hide Failures, ChainFailures, FailsOnChain, Saved, AttemptAt;
    StoredFailures(c, cfg, es, log, y, |es|);
    assert log[..|es|] == log;
  }

  /** Then they are at least an hour apart, over every worker run. */
  lemma ChainFailuresSpaced(s: Schedules, ticks: seq<Tick>, y: Id, c: Chain, cfg: Config, es: seq<Execution>)
    requires ValidRun(s, ticks) && y in s
    requires FreshRuns(c, es) && Realizes(LogTo(s, ticks, |ticks|), c, cfg, es)
    requires forall i :: 0 <= i < |es| && es[i].id == y && FailsOnChain(c.contract, cfg, es[i].x) ==> Saved(es[i].x)
    ensures Spaced(ChainFailures(c.contract, cfg, es, y, |es|))
  {
    hide StateAt, LogTo, Failures, ChainFailures, FailsOnChain, Saved, Realizes, FreshRuns, ValidRun, Spaced;
    FailuresSpaced(s, ticks, y, |ticks|);
    AllStoredIff(c, cfg, es, LogTo(s, ticks, |ticks|), y);
    SpacedPart(Failures(LogTo(s, ticks, |ticks|), y), StateAt(s, ticks, |ticks|)[y].nextRunAt);
  }

  lemma SpacedPart(times: seq<int>, next: int)
    requires SpacedBefore(times, next)
    ensures Spaced(times)
  {
  }

  // ---- A refused write ----

  lemma TwoExecutions(c: Chain, cfg: Config, es: seq<Execution>, y: Id)
    requires |es| == 2 && es[0].id == y && es[1].id == y && FreshRuns(c, es)
    requires forall k :: 0 <= k < 2 ==> FailsOnChain(c.contract, cfg, es[k].x)
    requires !Saved(es[0].x) && Saved(es[1].x)
    ensures Realizes([Entry(y, Unsaved), Entry(y, ChainFailed(es[1].x.at))], c, cfg, es)
    ensures ChainFailures(c.contract, cfg, es, y, 2) == [es[0].x.at, es[1].x.at]
  {
    hide Executed, FailsOnChain, Saved;
    FailedIff(c, cfg, es[0].x);
    assert ChainAt(c, cfg, es, 0) == c;
    AttemptFailedIff(c, cfg, es, 1);
    assert ChainFailures(c.contract, cfg, es, y, 1) == [es[0].x.at];
  }

  /** Without that condition they may be any time apart: if the schedule row of a failed execution is
      refused, the next tick, w milliseconds later, tries again and may fail on-chain again. */
  lemma RefusedWriteRetries(c: Chain, cfg: Config, x: Conditions, retryId: string, y: Id, cadence: Cadence, w: nat)
      returns (ticks: seq<Tick>, es: seq<Execution>)
    requires ReachesChain(cfg, x)
    requires x.runId !in c.contract.runs && retryId !in c.contract.runs && retryId != x.runId
    ensures var s := map[y := Schedule(cadence, x.at, true)];
            && ValidRun(s, ticks) && |ticks| == 2
            && FreshRuns(c, es) && Realizes(LogTo(s, ticks, 2), c, cfg, es)
            && ChainFailures(c.contract, cfg, es, y, |es|) == [x.at, x.at + w]
  {
    var s := map[y := Schedule(cadence, x.at, true)];
    var first := x.(fault := RecordFails, database := ScheduleUpdateFails);
    var second := x.(fault := RecordFails, database := Database.Stored, runId := retryId, at := x.at + w);
    es := [Execution(y, first), Execution(y, second)];
    ticks := [Tick(x.at, [y], _ => Unsaved), Tick(x.at + w, [y], _ => ChainFailed(x.at + w))];
    assert FailsOnChain(c.contract, cfg, first) && FailsOnChain(c.contract, cfg, second);
    hide AfterTick, ValidTick, ValidRun, StateAt, LogTo, FailsOnChain, Realizes, ChainFailures;
    TwoExecutions(c, cfg, es, y);
    OnlySchedule(s, ticks[0], y);
    OnlySchedule(AfterTick(s, ticks[0]).0, ticks[1], y);
    TwoTicks(s, ticks);
    assert LogTo(s, ticks, 2) == [Entry(y, Unsaved), Entry(y, ChainFailed(x.at + w))];
  }
}
