/** Whole worker runs over one tenant: no starvation, spacing of backed-off failures, one-off schedules. */
module PayrollRuns {
  import opened PayrollSchedules

  /** The schedules before tick i of a run; nobody edits them between ticks. */
  function StateAt(s: Schedules, ticks: seq<Tick>, i: nat): Schedules
    requires i <= |ticks|
  {
    if i == 0 then s else AfterTick(StateAt(s, ticks, i - 1), ticks[i - 1]).0
  }

  function LogAt(s: Schedules, ticks: seq<Tick>, i: nat): seq<Entry>
    requires i < |ticks|
  {
    AfterTick(StateAt(s, ticks, i), ticks[i]).1
  }

  /** Everything tried in the first i ticks. */
  function LogTo(s: Schedules, ticks: seq<Tick>, i: nat): seq<Entry>
    requires i <= |ticks|
  {
    if i == 0 then [] else LogTo(s, ticks, i - 1) + LogAt(s, ticks, i - 1)
  }

  ghost predicate ValidRun(s: Schedules, ticks: seq<Tick>) {
    && (forall i {:trigger StateAt(s, ticks, i)} :: 0 <= i < |ticks| ==> ValidTick(StateAt(s, ticks, i), ticks[i]))
    && (forall i, j :: 0 <= i < j < |ticks| ==> ticks[i].now <= ticks[j].now)
  }

  // ---- No starvation ----

  /** The other active schedules due no later than x. */
  function Ahead(s: Schedules, x: Id): set<Id>
    requires x in s
  {
    set y | y in s && y != x && s[y].active && s[y].nextRunAt <= s[x].nextRunAt
  }

  /** The tick ended in a throw that was not an on-chain failure. */
  predicate Halted(log: seq<Entry>) {
    log != [] && (log[|log| - 1].attempt.Unsaved? || log[|log| - 1].attempt.Unaudited?)
  }

  /** A due schedule that is not reached was kept from it by the last one tried: one listed before it
      that threw and, if it failed on-chain, was pushed past now. */
  lemma {:induction false} Blocker(s: Schedules, due: seq<Id>, env: Id -> Attempt, now: int, x: Id) returns (f: Id)
    requires DueList(s, due, now)
    requires forall id :: env(id).ChainFailed? ==> env(id).at >= now
    requires x in due && !Tried(AfterDue(s, due, env).1, x)
    ensures f in s && f != x && s[f].active && s[f].nextRunAt <= s[x].nextRunAt
    ensures var (r, log) := AfterDue(s, due, env);
            && r.Keys == s.Keys && log != [] && log[|log| - 1] == Entry(f, env(f)) && !Returns(env(f))
            && (env(f).ChainFailed? ==> r[f].nextRunAt > now)
  {
    var a := env(due[0]);
    var (s1, returned) := AfterExecute(s, due[0], a);
    DueForward(s, due, env, now);
    LogHead(s, due, env);
    ExecuteReturns(s, due[0], a);
    assert AfterDue(s, due, env).1[0].id == due[0];
    assert x in due[1..];
    if returned {
      ExecuteOther(s, due[0], a);
      ExecuteForward(s, due[0], a, now);
      DueListTail(s, due, now, s1);
      TriedCons(Entry(due[0], a), AfterDue(s1, due[1..], env).1, x);
      f := Blocker(s1, due[1..], env, now, x);
    } else {
      f := due[0];
    }
  }

  /** A tick that misses x keeps x as it is and adds nothing ahead of it; it pushes one of those
      ahead past it, unless it halted. */
  lemma MissedTickShrinks(s: Schedules, t: Tick, x: Id)
    requires ValidTick(s, t)
    requires x in s && s[x].active && s[x].nextRunAt <= t.now
    requires !Tried(AfterTick(s, t).1, x)
    ensures var (r, log) := AfterTick(s, t);
            && x in r && r[x] == s[x] && Ahead(r, x) <= Ahead(s, x)
            && (!Halted(log) ==> Ahead(r, x) < Ahead(s, x))
  {
    TickForward(s, t);
    var (r, log) := AfterTick(s, t);
    var f := Blocker(s, Due(s, t.order, t.now), t.env, t.now, x);
    hide AfterTick, Due, AfterDue, ValidTick, DueList;
    assert Ahead(r, x) <= Ahead(s, x);
    if !Halted(log) {
      assert f in Ahead(s, x) && f !in Ahead(r, x);
    }
  }

  lemma SubsetSize(a: set<Id>, b: set<Id>)
    requires a < b
    ensures |a| < |b|
  {
    var y :| y in b && y !in a;
    assert a <= b - {y};
    SubsetAtMost(a, b - {y});
  }

  lemma {:induction false} SubsetAtMost(a: set<Id>, b: set<Id>)
    requires a <= b
    ensures |a| <= |b|
    decreases |b|
  {
    if a != {} {
      var y :| y in a;
      SubsetAtMost(a - {y}, b - {y});
    }
  }

  /** How many of the first i ticks halted. */
  function Halts(s: Schedules, ticks: seq<Tick>, i: nat): nat
    requires i <= |ticks|
  {
    if i == 0 then 0 else Halts(s, ticks, i - 1) + if Halted(LogAt(s, ticks, i - 1)) then 1 else 0
  }

  /** x is due at every one of the first i ticks and tried in none of them. */
  ghost predicate Waits(s: Schedules, ticks: seq<Tick>, x: Id, i: nat)
    requires i <= |ticks|
  {
    && x in s && s[x].active
    && forall j :: 0 <= j < i ==> s[x].nextRunAt <= ticks[j].now && !Tried(LogAt(s, ticks, j), x)
  }

  /** With no proviso on how executions end: the ticks that x has waited are at most the schedules
      that are no longer ahead of it and the ticks that halted. */
  lemma {:induction false} WaitingIsBounded(s: Schedules, ticks: seq<Tick>, x: Id, i: nat)
    requires ValidRun(s, ticks) && i <= |ticks| && Waits(s, ticks, x, i)
    ensures x in StateAt(s, ticks, i) && StateAt(s, ticks, i)[x] == s[x]
    ensures |Ahead(StateAt(s, ticks, i), x)| + i <= |Ahead(s, x)| + Halts(s, ticks, i)
  {
    hide AfterTick, Ahead, Tried, Halted, ValidTick;
    if i > 0 {
      WaitingIsBounded(s, ticks, x, i - 1);
      var before, r := StateAt(s, ticks, i - 1), StateAt(s, ticks, i);
      assert !Tried(LogAt(s, ticks, i - 1), x);
      MissedTickShrinks(before, ticks[i - 1], x);
      if Halted(LogAt(s, ticks, i - 1)) {
        SubsetAtMost(Ahead(r, x), Ahead(before, x));
      } else {
        SubsetSize(Ahead(r, x), Ahead(before, x));
      }
    }
  }

  /** So a due active schedule with k others due no later is tried within any k + h + 1 ticks of which
      at most h halt; within k + 1 if executions fail only on-chain. */
  lemma NoStarvation(s: Schedules, ticks: seq<Tick>, x: Id)
    requires ValidRun(s, ticks) && x in s && s[x].active
    requires forall j :: 0 <= j < |ticks| ==> s[x].nextRunAt <= ticks[j].now
    requires |ticks| > |Ahead(s, x)| + Halts(s, ticks, |ticks|)
    ensures exists i :: 0 <= i < |ticks| && Tried(LogAt(s, ticks, i), x)
  {
    if Waits(s, ticks, x, |ticks|) {
      WaitingIsBounded(s, ticks, x, |ticks|);
    }
  }

  /** Something listed before the k-th schedule does not return in this tick. */
  predicate HeldUp(t: Tick, k: nat)
    requires k < |t.order|
  {
    exists j :: 0 <= j < k && !Returns(t.env(t.order[j]))
  }

  /** Exactly when a due schedule is never tried: at every tick one listed before it does not return.
      `places` says where x is listed. */
  lemma StarvesIff(s: Schedules, ticks: seq<Tick>, x: Id, places: seq<nat>)
    requires ValidRun(s, ticks) && |places| == |ticks|
    requires forall i :: 0 <= i < |ticks| ==> places[i] < |ticks[i].order| && ticks[i].order[places[i]] == x
    requires x in s && s[x].active && forall i :: 0 <= i < |ticks| ==> s[x].nextRunAt <= ticks[i].now
    ensures (forall i :: 0 <= i < |ticks| ==> !Tried(LogAt(s, ticks, i), x)) <==>
            forall i :: 0 <= i < |ticks| ==> HeldUp(ticks[i], places[i])
  {
    hide AfterTick, Tried, StateAt, Returns, HeldUp, ValidTick;
    forall i | 0 <= i < |ticks|
      ensures HeldUp(ticks[i], places[i]) ==> !Tried(LogAt(s, ticks, i), x)
      ensures Waits(s, ticks, x, i) && !Tried(LogAt(s, ticks, i), x) ==> HeldUp(ticks[i], places[i])
    {
      assert ValidTick(StateAt(s, ticks, i), ticks[i]);
      HeldUpIff(StateAt(s, ticks, i), ticks[i], places[i]);
      if Waits(s, ticks, x, i) {
        WaitingIsBounded(s, ticks, x, i);
      }
    }
  }

  lemma HeldUpIff(s: Schedules, t: Tick, k: nat)
    requires ValidTick(s, t) && k < |t.order|
    ensures HeldUp(t, k) ==> !Tried(AfterTick(s, t).1, t.order[k])
    ensures t.order[k] in s
    ensures s[t.order[k]].nextRunAt <= t.now && !Tried(AfterTick(s, t).1, t.order[k]) ==> HeldUp(t, k)
  {
    TriedIff(s, t, k);
    hide AfterTick, Tried, Returns;
  }

  /** A schedule that throws before the chain in every tick keeps its row, and everything due later
      is never tried. */
  lemma {:induction false} RefusalStarves(s: Schedules, ticks: seq<Tick>, f: Id, x: Id, i: nat)
    requires ValidRun(s, ticks) && i < |ticks|
    requires f in s && s[f].active && x in s && s[x].active && s[f].nextRunAt < s[x].nextRunAt
    requires forall j :: 0 <= j < |ticks| ==> ticks[j].env(f).Unsaved?
    ensures f in StateAt(s, ticks, i) && StateAt(s, ticks, i)[f] == s[f]
    ensures x in StateAt(s, ticks, i) && StateAt(s, ticks, i)[x] == s[x]
    ensures !Tried(LogAt(s, ticks, i), x)
  {
    hide AfterTick, ValidTick;
    if i > 0 {
      RefusalStarves(s, ticks, f, x, i - 1);
      assert ValidTick(StateAt(s, ticks, i - 1), ticks[i - 1]);
      RefusalBlocks(StateAt(s, ticks, i - 1), ticks[i - 1], f, x);
    }
    assert ValidTick(StateAt(s, ticks, i), ticks[i]);
    RefusalBlocks(StateAt(s, ticks, i), ticks[i], f, x);
  }

  lemma RefusalBlocks(s: Schedules, t: Tick, f: Id, x: Id)
    requires ValidTick(s, t) && f in s && s[f].active && x in s && s[x].active && s[f].nextRunAt < s[x].nextRunAt
    requires t.env(f).Unsaved?
    ensures var (r, log) := AfterTick(s, t);
            f in r && r[f] == s[f] && x in r && r[x] == s[x] && !Tried(log, x)
  {
    hide AfterTick, Tried;
    var k :| 0 <= k < |t.order| && t.order[k] == x;
    var j :| 0 <= j < |t.order| && t.order[j] == f;
    assert j < k;
    hide ValidTick;
    TriedIff(s, t, k);
    RefusalKeepsRow(s, t, f);
    UntriedKeepsRow(s, t, x);
  }

  lemma UntriedKeepsRow(s: Schedules, t: Tick, x: Id)
    requires ValidTick(s, t) && x in s
    ensures x in AfterTick(s, t).0 && (!Tried(AfterTick(s, t).1, x) ==> AfterTick(s, t).0[x] == s[x])
  {
    TickForward(s, t);
    hide AfterTick, Tried, ValidTick, Due, DueList;
  }

  lemma RefusalKeepsRow(s: Schedules, t: Tick, f: Id)
    requires ValidTick(s, t) && f in s && t.env(f).Unsaved?
    ensures f in AfterTick(s, t).0 && AfterTick(s, t).0[f] == s[f]
  {
    DueIsSorted(s, t.order, t.now);
    UnsavedKeepsRow(s, Due(s, t.order, t.now), t.env, t.now, f);
  }

  lemma {:induction false} UnsavedKeepsRow(s: Schedules, due: seq<Id>, env: Id -> Attempt, now: int, f: Id)
    requires DueList(s, due, now) && f in s && env(f).Unsaved?
    ensures f in AfterDue(s, due, env).0 && AfterDue(s, due, env).0[f] == s[f]
  {
    if due != [] {
      var (s1, returned) := AfterExecute(s, due[0], env(due[0]));
      ExecuteOther(s, due[0], env(due[0]));
      assert s1[f] == s[f];
      hide AfterExecute;
      if returned {
        DueListTail(s, due, now, s1);
        UnsavedKeepsRow(s1, due[1..], env, now, f);
      }
    }
  }

  // ---- Spacing of failures ----

  /** The times of the backed-off failures of y: those after which its row was stored. An on-chain failure
      whose database writes are refused is not among them; see PayrollBackoff.AllStoredIff. */
  function Failures(log: seq<Entry>, y: Id): seq<int> {
    if log == [] then []
    else
      var last := log[|log| - 1];
      Failures(log[..|log| - 1], y) +
      (if last.id == y && last.attempt.ChainFailed? then [last.attempt.at] else [])
  }

  ghost predicate Spaced(times: seq<int>) {
    forall i, j :: 0 <= i < j < |times| ==> times[j] - times[i] >= Hours(j - i)
  }

  lemma {:induction false} FailuresConcat(a: seq<Entry>, b: seq<Entry>, y: Id)
    ensures Failures(a + b, y) == Failures(a, y) + Failures(b, y)
    decreases |b|
  {
    if b == [] {
      assert a + b == a;
    } else {
      var init := b[..|b| - 1];
      assert (a + b)[..|a + b| - 1] == a + init;
      FailuresConcat(a, init, y);
    }
  }

  /** In one tick a schedule fails at most once, no earlier than its own next run, and is then
      pushed one hour past the failure. */
  lemma {:induction false} DueFailures(s: Schedules, due: seq<Id>, env: Id -> Attempt, now: int, y: Id)
    requires DueList(s, due, now) && y in s
    requires forall id :: env(id).ChainFailed? ==> env(id).at >= now
    ensures var (r, log) := AfterDue(s, due, env);
            var times := Failures(log, y);
            && y in r && |times| <= 1
            && (|times| == 1 ==> times[0] >= now && s[y].nextRunAt <= now && r[y].nextRunAt == times[0] + HOUR)
  {
    DueForward(s, due, env, now);
    var (r, log) := AfterDue(s, due, env);
    if due != [] {
      var a := env(due[0]);
      var (s1, returned) := AfterExecute(s, due[0], a);
      if returned {
        ExecuteOther(s, due[0], a);
        DueListTail(s, due, now, s1);
        var (_, others) := AfterDue(s1, due[1..], env);
        DueFailures(s1, due[1..], env, now, y);
        assert log == [Entry(due[0], a)] + others;
        FailuresConcat([Entry(due[0], a)], others, y);
        assert Failures([Entry(due[0], a)], y) == [] by {
          assert [Entry(due[0], a)][..0] == [];
        }
        if y == due[0] {
          NotListedAgain(s1, due, env, now, y);
        }
      } else {
        assert log == [Entry(due[0], a)] && log[..0] == [];
      }
    }
  }

  lemma NotListedAgain(s1: Schedules, due: seq<Id>, env: Id -> Attempt, now: int, y: Id)
    requires due != [] && y == due[0] && DueList(s1, due[1..], now)
    requires forall i :: 0 < i < |due| ==> due[i] != due[0]
    requires forall id :: env(id).ChainFailed? ==> env(id).at >= now
    ensures Failures(AfterDue(s1, due[1..], env).1, y) == []
  {
    DueForward(s1, due[1..], env, now);
    var log := AfterDue(s1, due[1..], env).1;
    assert forall i :: 0 <= i < |log| ==> log[i].id != y;
    NoFailures(log, y);
  }

  lemma {:induction false} NoFailures(log: seq<Entry>, y: Id)
    requires forall i :: 0 <= i < |log| ==> log[i].id != y
    ensures Failures(log, y) == []
  {
    if log != [] {
      NoFailures(log[..|log| - 1], y);
    }
  }

  lemma SpacedAppend(times: seq<int>, t: int, next: int)
    requires Spaced(times) && (times != [] ==> times[|times| - 1] + HOUR <= next)
    requires t >= next
    ensures Spaced(times + [t])
  {
    var all := times + [t];
    forall i, j | 0 <= i < j < |all|
      ensures all[j] - all[i] >= Hours(j - i)
    {
      if j == |times| && i < |times| - 1 {
        assert times[|times| - 1] - times[i] >= Hours(|times| - 1 - i);
      }
    }
  }

  lemma TickFailures(s: Schedules, t: Tick, y: Id)
    requires ValidTick(s, t) && y in s
    ensures var (r, log) := AfterTick(s, t);
            var times := Failures(log, y);
            && y in r && s[y].nextRunAt <= r[y].nextRunAt
            && (times == [] || (times == [times[0]] && times[0] >= s[y].nextRunAt && r[y].nextRunAt == times[0] + HOUR))
  {
    TickForward(s, t);
    DueFailures(s, Due(s, t.order, t.now), t.env, t.now, y);
    hide AfterDue, Due, Failures, DueList, ValidTick;
  }

  /** The times so far are spaced, and the next run lies an hour after the last of them. */
  ghost predicate SpacedBefore(times: seq<int>, next: int) {
    Spaced(times) && (times != [] ==> times[|times| - 1] + HOUR <= next)
  }

  lemma SpacedLater(times: seq<int>, latest: seq<int>, next: int, next': int)
    requires SpacedBefore(times, next) && next <= next'
    requires latest == [] || (latest == [latest[0]] && latest[0] >= next && next' == latest[0] + HOUR)
    ensures SpacedBefore(times + latest, next')
  {
    if latest == [] {
      assert times + latest == times;
    } else {
      SpacedAppend(times, latest[0], next);
    }
  }

  /** At every point of a run the backed-off failures so far are an hour apart and the next run lies an hour
      after the last of them. */
  lemma {:induction false} FailuresSpaced(s: Schedules, ticks: seq<Tick>, y: Id, i: nat)
    requires ValidRun(s, ticks) && y in s && i <= |ticks|
    ensures y in StateAt(s, ticks, i)
    ensures SpacedBefore(Failures(LogTo(s, ticks, i), y), StateAt(s, ticks, i)[y].nextRunAt)
  {
    hide AfterTick, ValidTick, SpacedBefore;
    if i > 0 {
      FailuresSpaced(s, ticks, y, i - 1);
      var before := StateAt(s, ticks, i - 1);
      var log, latest := LogTo(s, ticks, i - 1), LogAt(s, ticks, i - 1);
      TickFailures(before, ticks[i - 1], y);
      FailuresConcat(log, latest, y);
      hide Failures;
      SpacedLater(Failures(log, y), Failures(latest, y), before[y].nextRunAt, StateAt(s, ticks, i)[y].nextRunAt);
    } else {
      NothingYet(s[y].nextRunAt);
    }
  }

  lemma NothingYet(next: int)
    ensures SpacedBefore([], next)
  {
  }

  /** So a window of length w holds at most w / 1h + 1 of those of one schedule: the i-th and the
      j-th can lie in it only if they are no further apart in the log. */
  lemma FailuresInWindow(s: Schedules, ticks: seq<Tick>, y: Id, i: nat, j: nat, start: int, w: nat)
    requires ValidRun(s, ticks) && y in s
    requires var times := Failures(LogTo(s, ticks, |ticks|), y);
             i <= j < |times| && start <= times[i] && times[j] <= start + w
    ensures j - i + 1 <= w / HOUR + 1
  {
    FailuresSpaced(s, ticks, y, |ticks|);
    hide StateAt, LogTo, Failures, ValidRun;
    assert i < j ==> Hours(j - i) <= w;
  }

  // ---- One-off schedules ----

  lemma InactiveNotTried(s: Schedules, t: Tick, y: Id)
    requires ValidTick(s, t) && y in s && !s[y].active
    ensures var (r, log) := AfterTick(s, t);
            y in r && r[y] == s[y] && !Tried(log, y)
  {
    TickForward(s, t);
    var log, due := AfterTick(s, t).1, Due(s, t.order, t.now);
    forall i | 0 <= i < |log|
      ensures log[i].id != y
    {
      assert log[i].id == due[i] && s[due[i]].active;
    }
  }

  /** A one-off schedule that was moved on is inactive after its tick. */
  lemma {:induction false} SettledOneOff(s: Schedules, due: seq<Id>, env: Id -> Attempt, now: int, y: Id)
    requires DueList(s, due, now) && y in s && s[y].cadence.OneOff?
    requires forall id :: env(id).ChainFailed? ==> env(id).at >= now
    requires Tried(AfterDue(s, due, env).1, y) && Advances(env(y))
    ensures y in AfterDue(s, due, env).0 && !AfterDue(s, due, env).0[y].active
  {
    DueForward(s, due, env, now);
    if due != [] {
      var a := env(due[0]);
      var (s1, returned) := AfterExecute(s, due[0], a);
      ExecuteOther(s, due[0], a);
      if returned {
        DueListTail(s, due, now, s1);
        DueForward(s1, due[1..], env, now);
        var others := AfterDue(s1, due[1..], env).1;
        TriedCons(Entry(due[0], a), others, y);
        if y != due[0] {
          SettledOneOff(s1, due[1..], env, now, y);
        }
      } else {
        assert AfterDue(s, due, env).1 == [Entry(due[0], a)];
        assert y == due[0];
      }
    }
  }

  lemma SettledTick(s: Schedules, t: Tick, y: Id)
    requires ValidTick(s, t) && y in s && s[y].cadence.OneOff?
    requires Tried(AfterTick(s, t).1, y) && Advances(t.env(y))
    ensures y in AfterTick(s, t).0 && !AfterTick(s, t).0[y].active
  {
    TickForward(s, t);
    SettledOneOff(s, Due(s, t.order, t.now), t.env, t.now, y);
  }

  lemma {:induction false} StaysInactive(s: Schedules, ticks: seq<Tick>, y: Id, i: nat, j: nat)
    requires ValidRun(s, ticks) && i <= j <= |ticks|
    requires y in StateAt(s, ticks, i) && !StateAt(s, ticks, i)[y].active
    ensures y in StateAt(s, ticks, j) && !StateAt(s, ticks, j)[y].active
    decreases j
  {
    hide AfterTick, ValidTick;
    if i < j {
      StaysInactive(s, ticks, y, i, j - 1);
      assert ValidTick(StateAt(s, ticks, j - 1), ticks[j - 1]);
      InactiveNotTried(StateAt(s, ticks, j - 1), ticks[j - 1], y);
    }
  }

  lemma {:induction false} CadenceKept(s: Schedules, ticks: seq<Tick>, y: Id, i: nat)
    requires ValidRun(s, ticks) && i <= |ticks| && y in s
    ensures y in StateAt(s, ticks, i) && StateAt(s, ticks, i)[y].cadence == s[y].cadence
  {
    hide AfterTick, ValidTick;
    if i > 0 {
      CadenceKept(s, ticks, y, i - 1);
      assert ValidTick(StateAt(s, ticks, i - 1), ticks[i - 1]);
      TickForward(StateAt(s, ticks, i - 1), ticks[i - 1]);
    }
  }

  lemma InactiveAt(s: Schedules, ticks: seq<Tick>, y: Id, j: nat)
    requires ValidRun(s, ticks) && j < |ticks|
    requires y in StateAt(s, ticks, j) && !StateAt(s, ticks, j)[y].active
    ensures !Tried(LogAt(s, ticks, j), y)
  {
    hide AfterTick, ValidTick, StateAt;
    assert ValidTick(StateAt(s, ticks, j), ticks[j]);
    InactiveNotTried(StateAt(s, ticks, j), ticks[j], y);
  }

  lemma SettledAt(s: Schedules, ticks: seq<Tick>, y: Id, i: nat)
    requires ValidRun(s, ticks) && i < |ticks|
    requires y in s && s[y].cadence.OneOff?
    requires Tried(LogAt(s, ticks, i), y) && Advances(ticks[i].env(y))
    ensures y in StateAt(s, ticks, i + 1) && !StateAt(s, ticks, i + 1)[y].active
  {
    hide AfterTick, ValidTick, Tried;
    CadenceKept(s, ticks, y, i);
    assert ValidTick(StateAt(s, ticks, i), ticks[i]);
    SettledTick(StateAt(s, ticks, i), ticks[i], y);
  }

  /** A one-off schedule that was moved on in tick i, audited or not, is never tried again. */
  lemma OneOffSettlesOnce(s: Schedules, ticks: seq<Tick>, y: Id, i: nat, j: nat)
    requires ValidRun(s, ticks) && i < j < |ticks|
    requires y in s && s[y].cadence.OneOff?
    requires Tried(LogAt(s, ticks, i), y) && Advances(ticks[i].env(y))
    ensures !Tried(LogAt(s, ticks, j), y)
  {
    hide StateAt, LogAt, ValidRun, Tried;
    SettledAt(s, ticks, y, i);
    StaysInactive(s, ticks, y, i + 1, j);
    InactiveAt(s, ticks, y, j);
  }
}
