/** When a schedule runs next, over whole worker runs: its row is the replay of its log entries, and
    on-chain failures move its rhythm. */
module PayrollRhythm {
  import opened Cadence
  import opened PayrollSchedules
  import opened PayrollRuns

  // ---- The row replays the log ----

  function Replay(row: Schedule, log: seq<Entry>, y: Id): Schedule {
    if log == [] then row
    else
      var before, last := Replay(row, log[..|log| - 1], y), log[|log| - 1];
      if last.id == y then RowAfter(before, last.attempt) else before
  }

  lemma {:induction false} ReplayConcat(row: Schedule, a: seq<Entry>, b: seq<Entry>, y: Id)
    ensures Replay(row, a + b, y) == Replay(Replay(row, a, y), b, y)
    decreases |b|
  {
    hide RowAfter;
    if b == [] {
      assert a + b == a;
    } else {
      assert (a + b)[..|a + b| - 1] == a + b[..|b| - 1];
      ReplayConcat(row, a, b[..|b| - 1], y);
    }
  }

  lemma ReplayOne(row: Schedule, e: Entry, y: Id)
    ensures Replay(row, [e], y) == if e.id == y then RowAfter(row, e.attempt) else row
  {
    hide RowAfter;
    assert [e][..0] == [];
  }

  lemma ExecuteRow(s: Schedules, id: Id, a: Attempt, y: Id)
    requires y in s
    ensures y in AfterExecute(s, id, a).0
    ensures AfterExecute(s, id, a).0[y] == if id == y then RowAfter(s[y], a) else s[y]
  {
    hide Advance;
  }

  lemma {:induction false} DueReplays(s: Schedules, due: seq<Id>, env: Id -> Attempt, y: Id)
    requires y in s
    ensures var (r, log) := AfterDue(s, due, env);
            y in r && r[y] == Replay(s[y], log, y)
  {
    if due != [] {
      var first := Entry(due[0], env(due[0]));
      var (s1, returned) := AfterExecute(s, due[0], env(due[0]));
      ExecuteRow(s, due[0], env(due[0]), y);
      ReplayOne(s[y], first, y);
      hide AfterExecute, RowAfter, Replay;
      if returned {
        DueReplays(s1, due[1..], env, y);
        ReplayConcat(s[y], [first], AfterDue(s1, due[1..], env).1, y);
      }
    }
  }

  /** At every point of every run, the row of a schedule is its first row with its own entries applied
      in order: no other schedule and no missed tick ever touches it. */
  lemma {:induction false} RowReplaysLog(s: Schedules, ticks: seq<Tick>, y: Id, i: nat)
    requires i <= |ticks| && y in s
    ensures y in StateAt(s, ticks, i) && StateAt(s, ticks, i)[y] == Replay(s[y], LogTo(s, ticks, i), y)
  {
    hide Replay, AfterDue;
    if i > 0 {
      RowReplaysLog(s, ticks, y, i - 1);
      var before, t := StateAt(s, ticks, i - 1), ticks[i - 1];
      DueReplays(before, Due(before, t.order, t.now), t.env, y);
      ReplayConcat(s[y], LogTo(s, ticks, i - 1), LogAt(s, ticks, i - 1), y);
    } else {
      ReplayNothing(s[y], y);
    }
  }

  lemma ReplayNothing(row: Schedule, y: Id)
    ensures Replay(row, [], y) == row
  {
  }

  // ---- Failures come when the row is due ----

  /** Every on-chain failure of y came no earlier than the row asked for. */
  ghost predicate FailsLate(row: Schedule, log: seq<Entry>, y: Id) {
    forall k :: 0 <= k < |log| && log[k].id == y && log[k].attempt.ChainFailed? ==>
      Replay(row, log[..k], y).nextRunAt <= log[k].attempt.at
  }

  lemma FailsLateConcat(row: Schedule, a: seq<Entry>, b: seq<Entry>, y: Id)
    requires FailsLate(row, a, y) && FailsLate(Replay(row, a, y), b, y)
    ensures FailsLate(row, a + b, y)
  {
    hide Replay;
    forall k | 0 <= k < |a + b| && (a + b)[k].id == y && (a + b)[k].attempt.ChainFailed?
      ensures Replay(row, (a + b)[..k], y).nextRunAt <= (a + b)[k].attempt.at
    {
      if k < |a| {
        assert (a + b)[..k] == a[..k];
      } else {
        assert (a + b)[..k] == a + b[..k - |a|];
        ReplayConcat(row, a, b[..k - |a|], y);
      }
    }
  }

  lemma FailsLateOne(row: Schedule, e: Entry, y: Id)
    requires e.id == y && e.attempt.ChainFailed? ==> row.nextRunAt <= e.attempt.at
    ensures FailsLate(row, [e], y)
  {
    assert [e][..0] == [];
  }

  lemma {:induction false} DueFailsLate(s: Schedules, due: seq<Id>, env: Id -> Attempt, now: int, y: Id)
    requires DueList(s, due, now) && y in s
    requires forall id :: env(id).ChainFailed? ==> env(id).at >= now
    ensures FailsLate(s[y], AfterDue(s, due, env).1, y)
  {
    if due != [] {
      var first := Entry(due[0], env(due[0]));
      var (s1, returned) := AfterExecute(s, due[0], env(due[0]));
      ExecuteOther(s, due[0], env(due[0]));
      DueListTail(s, due, now, s1);
      ExecuteRow(s, due[0], env(due[0]), y);
      LogHead(s, due, env);
      ReplayOne(s[y], first, y);
      FailsLateOne(s[y], first, y);
      hide AfterExecute, AfterDue, RowAfter, Replay, FailsLate, DueList;
      if returned {
        DueFailsLate(s1, due[1..], env, now, y);
        FailsLateConcat(s[y], [first], AfterDue(s1, due[1..], env).1, y);
      } else {
        assert [first] + [] == [first];
      }
    }
  }

  lemma {:induction false} RunFailsLate(s: Schedules, ticks: seq<Tick>, y: Id, i: nat)
    requires ValidRun(s, ticks) && i <= |ticks| && y in s
    ensures FailsLate(s[y], LogTo(s, ticks, i), y)
  {
    hide AfterDue, Replay, FailsLate, ValidTick;
    if i > 0 {
      RunFailsLate(s, ticks, y, i - 1);
      RowReplaysLog(s, ticks, y, i - 1);
      var before, t := StateAt(s, ticks, i - 1), ticks[i - 1];
      assert ValidTick(before, t);
      TickFailsLate(before, t, y);
      FailsLateConcat(s[y], LogTo(s, ticks, i - 1), LogAt(s, ticks, i - 1), y);
    } else {
      NoneLate(s[y], y);
    }
  }

  lemma TickFailsLate(s: Schedules, t: Tick, y: Id)
    requires ValidTick(s, t) && y in s
    ensures FailsLate(s[y], AfterTick(s, t).1, y)
  {
    TickForward(s, t);
    DueFailsLate(s, Due(s, t.order, t.now), t.env, t.now, y);
  }

  lemma NoneLate(row: Schedule, y: Id)
    ensures FailsLate(row, [], y)
  {
  }

  // ---- The rhythm ----

  /** How often y was moved on. */
  function Moves(log: seq<Entry>, y: Id): nat {
    if log == [] then 0
    else
      var last := log[|log| - 1];
      Moves(log[..|log| - 1], y) + if last.id == y && Advances(last.attempt) then 1 else 0
  }

  lemma {:induction false} CadenceReplayed(row: Schedule, log: seq<Entry>, y: Id)
    ensures Replay(row, log, y).cadence == row.cadence
  {
    hide Advance;
    if log != [] {
      CadenceReplayed(row, log[..|log| - 1], y);
    }
  }

  /** Without failures the next run is one step on from the first for every success, whenever the
      executions took place. */
  lemma {:induction false} ReplayOnTime(row: Schedule, log: seq<Entry>, y: Id)
    requires !row.cadence.OneOff? && Failures(log, y) == []
    ensures Replay(row, log, y).nextRunAt == Steps(row.nextRunAt, row.cadence, Moves(log, y))
  {
    hide Advance;
    if log != [] {
      CadenceReplayed(row, log[..|log| - 1], y);
      ReplayOnTime(row, log[..|log| - 1], y);
    }
  }

  /** The steps from this instant stay in order: every month has its day. */
  predicate Regular(from: int, c: Cadence) {
    !c.OneOff? && (c.Monthly? ==> DateOf(Day(from)).day <= 28)
  }

  lemma StaysRegular(from: int, c: Cadence, k: nat)
    requires Regular(from, c)
    ensures Regular(Steps(from, c, k), c)
  {
    if c.Monthly? {
      MonthlyRhythm(from, k);
    }
    hide Steps, DateOf, Day;
  }

  lemma RegularOrdered(a: int, b: int, c: Cadence)
    requires Regular(a, c) && a <= b
    ensures Advance(a, c) <= Advance(b, c)
    ensures Advance(a, c) == Advance(b, c) <==> a == b
  {
    hide Advance, DateOf, Day;
    if a < b {
      AdvanceOrdered(a, b, c);
    }
  }

  lemma StepOrdered(from: int, c: Cadence, k: nat, next: int)
    requires Regular(from, c) && Steps(from, c, k) <= next
    ensures Steps(from, c, k + 1) <= Advance(next, c)
    ensures Steps(from, c, k + 1) == Advance(next, c) <==> Steps(from, c, k) == next
  {
    hide Regular, Advance;
    StaysRegular(from, c, k);
    RegularOrdered(Steps(from, c, k), next, c);
  }

  /** With failures it is later, for good. */
  lemma {:induction false} ReplayRhythm(row: Schedule, log: seq<Entry>, y: Id)
    requires Regular(row.nextRunAt, row.cadence) && FailsLate(row, log, y)
    ensures Steps(row.nextRunAt, row.cadence, Moves(log, y)) <= Replay(row, log, y).nextRunAt
    ensures Steps(row.nextRunAt, row.cadence, Moves(log, y)) == Replay(row, log, y).nextRunAt <==> Failures(log, y) == []
  {
    hide Advance, Steps, Regular;
    if log != [] {
      var init := log[..|log| - 1];
      assert forall k :: 0 <= k < |init| ==> init[..k] == log[..k];
      CadenceReplayed(row, init, y);
      IsRecurring(row);
      ReplayRhythm(row, init, y);
      StepOrdered(row.nextRunAt, row.cadence, Moves(init, y), Replay(row, init, y).nextRunAt);
    } else {
      NoSteps(row.nextRunAt, row.cadence);
    }
  }

  lemma IsRecurring(row: Schedule)
    requires Regular(row.nextRunAt, row.cadence)
    ensures !row.cadence.OneOff?
  {
  }

  lemma NoSteps(from: int, c: Cadence)
    ensures Steps(from, c, 0) == from
  {
  }

  /** Over every worker run: a recurring schedule that never failed on-chain runs next exactly one step
      on per success. */
  lemma OnTimeWithoutFailures(s: Schedules, ticks: seq<Tick>, y: Id, i: nat)
    requires i <= |ticks| && y in s && !s[y].cadence.OneOff?
    requires Failures(LogTo(s, ticks, i), y) == []
    ensures y in StateAt(s, ticks, i)
    ensures StateAt(s, ticks, i)[y].nextRunAt == Steps(s[y].nextRunAt, s[y].cadence, Moves(LogTo(s, ticks, i), y))
  {
    hide StateAt, LogTo, Replay, Steps, Moves;
    RowReplaysLog(s, ticks, y, i);
    ReplayOnTime(s[y], LogTo(s, ticks, i), y);
  }

  /** Over every worker run: the next run of a weekly or biweekly schedule, or of a monthly one that
      starts on day 1 to 28, is never earlier than that, and it is exactly that if and only if the
      schedule never failed on-chain. */
  lemma RhythmKeptIff(s: Schedules, ticks: seq<Tick>, y: Id, i: nat)
    requires ValidRun(s, ticks) && i <= |ticks| && y in s && Regular(s[y].nextRunAt, s[y].cadence)
    ensures y in StateAt(s, ticks, i)
    ensures var log := LogTo(s, ticks, i);
            var next, steps := StateAt(s, ticks, i)[y].nextRunAt, Steps(s[y].nextRunAt, s[y].cadence, Moves(log, y));
            steps <= next && (steps == next <==> Failures(log, y) == [])
  {
    hide StateAt, LogTo, Replay, Steps, Moves, Failures, FailsLate, ValidRun, Regular;
    RowReplaysLog(s, ticks, y, i);
    RunFailsLate(s, ticks, y, i);
    ReplayRhythm(s[y], LogTo(s, ticks, i), y);
  }

  /** For weekly and biweekly schedules, in days. */
  lemma DaysKeptIff(s: Schedules, ticks: seq<Tick>, y: Id, i: nat)
    requires ValidRun(s, ticks) && i <= |ticks| && y in s && (s[y].cadence.Weekly? || s[y].cadence.Biweekly?)
    ensures y in StateAt(s, ticks, i)
    ensures var log := LogTo(s, ticks, i);
            var next, days := StateAt(s, ticks, i)[y].nextRunAt, (if s[y].cadence.Weekly? then 7 else 14) * Moves(log, y);
            && s[y].nextRunAt + days * MS_PER_DAY <= next
            && (s[y].nextRunAt + days * MS_PER_DAY == next <==> Failures(log, y) == [])
  {
    hide StateAt, LogTo, Steps, Moves, Failures, ValidRun;
    RhythmKeptIff(s, ticks, y, i);
    StepsAdd(s[y].nextRunAt, s[y].cadence, Moves(LogTo(s, ticks, i), y));
  }

  // ---- One failure ----

  lemma OnlySchedule(s: Schedules, t: Tick, y: Id)
    requires y in s && s.Keys == {y} && s[y].active && s[y].nextRunAt <= t.now && t.order == [y]
    requires forall id :: t.env(id).ChainFailed? ==> t.env(id).at >= t.now
    ensures ValidTick(s, t) && AfterTick(s, t).1 == [Entry(y, t.env(y))]
    ensures AfterTick(s, t).0.Keys == {y} && AfterTick(s, t).0[y] == RowAfter(s[y], t.env(y))
  {
    var due := Due(s, t.order, t.now);
    DueHead(s, t.order, t.now);
    assert t.order[1..] == [] && Due(s, [], t.now) == [];
    assert due == [y] && due[1..] == [];
    ExecuteRow(s, y, t.env(y), y);
    ExecuteOther(s, y, t.env(y));
    LogHead(s, due, t.env);
    hide AfterExecute, RowAfter, Due;
  }

  /** The rhythm is said not to drift. For every weekly or biweekly schedule due at `from`: if its run
      fails on-chain at once and the retry an hour later settles, it is due an hour late from then on. */
  lemma OneFailureDrifts(y: Id, from: int, c: Cadence) returns (ticks: seq<Tick>)
    requires c.Weekly? || c.Biweekly?
    ensures |ticks| == 2 && ValidRun(map[y := Schedule(c, from, true)], ticks)
    ensures LogTo(map[y := Schedule(c, from, true)], ticks, 2) == [Entry(y, ChainFailed(from)), Entry(y, Settled)]
    ensures var s := StateAt(map[y := Schedule(c, from, true)], ticks, 2);
            y in s && s[y].nextRunAt == Advance(from, c) + HOUR
            && TimeWithinDay(s[y].nextRunAt) != TimeWithinDay(from)
  {
    var s := map[y := Schedule(c, from, true)];
    ticks := [Tick(from, [y], _ => ChainFailed(from)), Tick(from + HOUR, [y], _ => Settled)];
    hide AfterTick, ValidTick, ValidRun, StateAt, LogTo, Advance, Day, TimeWithinDay;
    OnlySchedule(s, ticks[0], y);
    OnlySchedule(AfterTick(s, ticks[0]).0, ticks[1], y);
    TwoTicks(s, ticks);
    AdvanceAdds(from, c);
    AdvanceAdds(from + HOUR, c);
    AdvanceForward(from + HOUR, c);
    HourLater(from);
  }

  lemma HourLater(time: int)
    ensures TimeWithinDay(time + HOUR) != TimeWithinDay(time)
  {
  }

  lemma TwoTicks(s: Schedules, ticks: seq<Tick>)
    requires |ticks| == 2 && ticks[0].now <= ticks[1].now
    requires ValidTick(s, ticks[0]) && ValidTick(AfterTick(s, ticks[0]).0, ticks[1])
    ensures ValidRun(s, ticks)
    ensures StateAt(s, ticks, 1) == AfterTick(s, ticks[0]).0
    ensures StateAt(s, ticks, 2) == AfterTick(AfterTick(s, ticks[0]).0, ticks[1]).0
    ensures LogTo(s, ticks, 2) == AfterTick(s, ticks[0]).1 + AfterTick(AfterTick(s, ticks[0]).0, ticks[1]).1
  {
    hide AfterTick, ValidTick;
    assert StateAt(s, ticks, 0) == s;
    assert StateAt(s, ticks, 1) == AfterTick(s, ticks[0]).0;
    assert LogTo(s, ticks, 1) == [] + LogAt(s, ticks, 0);
  }

  /** What a failure and a success leave behind. */
  lemma FailedThenSettled(row: Schedule, at: int, y: Id)
    requires !row.cadence.OneOff? && row.nextRunAt <= at
    ensures var log := [Entry(y, ChainFailed(at)), Entry(y, Settled)];
            && FailsLate(row, log, y) && Failures(log, y) == [at] && Moves(log, y) == 1
            && Replay(row, log, y).nextRunAt == Advance(at + HOUR, row.cadence)
  {
    hide Advance;
    var failed, settled := Entry(y, ChainFailed(at)), Entry(y, Settled);
    var log := [failed, settled];
    assert log[..1] == [failed] && [failed][..0] == [];
    assert Replay(row, [failed], y) == RowAfter(row, ChainFailed(at));
    assert Failures([failed], y) == [at] && Moves([failed], y) == 0;
    assert log[..0] == [];
  }

  /** A monthly schedule on the 31st shows why the day matters: outside leap years one due on January 31
      that fails until February 3 and settles then is due when it would have been anyway. */
  lemma LateButMeets(y: Id, from: int, year: int)
    requires DateOf(Day(from)) == Date(year, 0, 31) && !Leap(year)
    ensures var log := [Entry(y, ChainFailed(from + 3 * MS_PER_DAY - HOUR)), Entry(y, Settled)];
            var row := Schedule(Monthly, from, true);
            && FailsLate(row, log, y) && Failures(log, y) != []
            && Replay(row, log, y).nextRunAt == Steps(from, Monthly, Moves(log, y))
  {
    MonthEndsMeet(from, year);
    FailedThenSettled(Schedule(Monthly, from, true), from + 3 * MS_PER_DAY - HOUR, y);
    hide Advance, DateOf, Leap, FailsLate, Failures, Moves, Replay;
    assert Steps(from, Monthly, 0) == from;
  }
}
