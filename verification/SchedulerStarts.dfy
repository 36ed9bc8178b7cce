/** What makes a run start: every event, said without the functions that perform it, and over whole runs
    that every task keeps being started at its times. */
module SchedulerStarts {
  import opened Arithmetic
  import opened Scheduler

  /** A run of that name has begun and not settled. */
  ghost predicate InFlight(s: State, name: string) {
    exists i :: i in s.inFlight && i < |s.starts| && s.starts[i].name == name
  }

  lemma RunningIff(es: seq<Timed>, name: string)
    ensures name in Run(IDLE, es).running <==> InFlight(Run(IDLE, es), name)
  {
    NeverOverlaps(es);
    hide Run;
  }

  lemma RunMore(s: State, es: seq<Timed>, e: Timed)
    ensures Run(s, es + [e]) == After(Run(s, es), e.event, e.now)
  {
    hide After;
    assert (es + [e])[..|es|] == es;
  }

  lemma {:induction false} RunAppend(s: State, a: seq<Timed>, b: seq<Timed>)
    ensures Run(s, a + b) == Run(Run(s, a), b)
    decreases |b|
  {
    hide After;
    if b == [] {
      assert a + b == a;
    } else {
      assert (a + b)[..|a + b| - 1] == a + b[..|b| - 1];
      RunAppend(s, a, b[..|b| - 1]);
    }
  }

  // ---- What each event does ----

  /** A run of this name may begin. */
  ghost predicate Free(s: State, name: string) { !s.stopped && !InFlight(s, name) }

  /** r is s after at most one start: of this name, now, if `begins`. */
  ghost predicate StartsOne(s: State, r: State, begins: bool, name: string, now: int) {
    && r.starts == s.starts + (if begins then [Start(name, now)] else [])
    && r.inFlight == s.inFlight + (if begins then {|s.starts|} else {})
    && r.stopped == s.stopped
  }

  lemma TickStarts(s: State, name: string, now: int)
    requires name in s.running <==> InFlight(s, name)
    ensures StartsOne(s, Ticked(s, name, now), Free(s, name), name, now)
    ensures Ticked(s, name, now).armed == s.armed && Ticked(s, name, now).nextId == s.nextId
  {
    hide InFlight;
  }

  ghost predicate ArmedNext(s: State, r: State, id: TimerId, now: int)
    requires id in s.armed
  {
    var task := s.armed[id].task;
    if s.armed[id].Every? then r.armed == s.armed[id := Every(task, now + task.interval)]
    else if s.stopped then r.armed == s.armed - {id}
    else exists next: TimerId :: next !in s.armed && r.armed == (s.armed - {id})[next := Every(task, now + task.interval)]
  }

  lemma FireStep(s: State, id: TimerId, now: int)
    requires id in s.armed && s.nextId !in s.armed
    requires s.armed[id].task.name in s.running <==> InFlight(s, s.armed[id].task.name)
    ensures var r := After(s, Fire(id), now);
            var name := s.armed[id].task.name;
            StartsOne(s, r, Free(s, name), name, now) && ArmedNext(s, r, id, now)
  {
    var task := s.armed[id].task;
    var again := s.(armed := s.armed[id := Every(task, now + task.interval)]);
    var fired := s.(armed := s.armed - {id});
    assert InFlight(again, task.name) == InFlight(fired, task.name) == InFlight(s, task.name);
    hide InFlight, Ticked;
    TickStarts(again, task.name, now);
    TickStarts(fired, task.name, now);
  }

  /** An armed timer that fires starts its task exactly when the scheduler is not stopped and no run of
      that name is in flight; either way the task's next tick is armed one interval on, and every other
      timer is left alone. Only a delayed first tick after a stop arms nothing. */
  lemma FireStarts(es: seq<Timed>, id: TimerId, now: int)
    requires id in Run(IDLE, es).armed
    ensures var s, r := Run(IDLE, es), Run(IDLE, es + [At(now, Fire(id))]);
            var name := s.armed[id].task.name;
            StartsOne(s, r, Free(s, name), name, now) && ArmedNext(s, r, id, now)
  {
    RunMore(IDLE, es, At(now, Fire(id)));
    RunningIff(es, Run(IDLE, es).armed[id].task.name);
    NextIdNew(es);
    hide Run, InFlight, After;
    FireStep(Run(IDLE, es), id, now);
  }

  lemma NextIdNew(es: seq<Timed>)
    ensures Run(IDLE, es).nextId !in Run(IDLE, es).armed
  {
    NeverOverlaps(es);
    hide Run;
  }

  /** An added task starts at once if it has no delay, under the same condition, and gets one timer: for
      its delay, or for its interval. */
  lemma AddStarts(es: seq<Timed>, task: Task, now: int)
    ensures var s, r := Run(IDLE, es), Run(IDLE, es + [At(now, Add(task))]);
            && StartsOne(s, r, task.delay <= 0 && Free(s, task.name), task.name, now)
            && exists id: TimerId :: id !in s.armed &&
                 r.armed == s.armed[id := if task.delay > 0 then Once(task, now + task.delay) else Every(task, now + task.interval)]
  {
    NeverOverlaps(es);
    RunMore(IDLE, es, At(now, Add(task)));
    RunningIff(es, task.name);
    hide Run, InFlight;
    var s := Run(IDLE, es);
    assert s.nextId !in s.armed;
    assert After(s, Add(task), now).armed ==
             s.armed[s.nextId := if task.delay > 0 then Once(task, now + task.delay) else Every(task, now + task.interval)];
  }

  /** A run that settles starts nothing, leaves the timers, and frees its name; a stop starts nothing,
      clears every timer and lasts. */
  lemma SettleAndStop(es: seq<Timed>, run: nat, now: int)
    ensures var s, r := Run(IDLE, es), Run(IDLE, es + [At(now, Settle(run))]);
            && r.starts == s.starts && r.armed == s.armed && r.stopped == s.stopped && r.inFlight == s.inFlight - {run}
            && (run in s.inFlight ==> run < |s.starts| && !InFlight(r, s.starts[run].name))
    ensures var s, r := Run(IDLE, es), Run(IDLE, es + [At(now, Stop)]);
            r.starts == s.starts && r.inFlight == s.inFlight && r.armed == map[] && r.stopped
  {
    NeverOverlaps(es);
    RunMore(IDLE, es, At(now, Settle(run)));
    RunMore(IDLE, es, At(now, Stop));
    hide Run;
  }

  /** Whatever happens after a stop, nothing is started any more. */
  lemma StopIsFinal(es: seq<Timed>, now: int, later: seq<Timed>)
    ensures Run(IDLE, es + [At(now, Stop)] + later).starts == Run(IDLE, es).starts
  {
    SettleAndStop(es, 0, now);
    RunAppend(IDLE, es + [At(now, Stop)], later);
    NothingStartsAfterStop(Run(IDLE, es + [At(now, Stop)]), later);
  }

  /** Once a run has settled, the next tick of its task starts it again. */
  lemma SettledStartsAgain(es: seq<Timed>, run: nat, id: TimerId, now: int, later: int)
    requires var s := Run(IDLE, es);
             && !s.stopped && run in s.inFlight && run < |s.starts| && id in s.armed
             && s.armed[id].task.name == s.starts[run].name
    ensures var settled := es + [At(now, Settle(run))];
            Run(IDLE, settled + [At(later, Fire(id))]).starts ==
            Run(IDLE, es).starts + [Start(Run(IDLE, es).starts[run].name, later)]
  {
    SettleAndStop(es, run, now);
    hide Run, InFlight;
    FireStarts(es + [At(now, Settle(run))], id, later);
  }

  // ---- Every task keeps ticking ----

  /** From its p-th event on, timers fire when they are due and nothing is left overdue. */
  ghost predicate Punctual(es: seq<Timed>, p: nat) {
    forall n :: p < n < |es| ==> OnTime(Run(IDLE, es[..n]), es[n])
  }

  ghost predicate OnTime(s: State, e: Timed) {
    && (e.event.Fire? ==> e.event.id in s.armed && e.now == s.armed[e.event.id].due)
    && NoneOverdue(s, e.now)
  }

  ghost predicate NoneOverdue(s: State, now: int) {
    forall id :: id in s.armed ==> now <= s.armed[id].due
  }

  /** The n-th event is at this time, and a run of that name begins then or is still in flight. */
  ghost predicate TicksAt(es: seq<Timed>, n: nat, name: string, time: int)
    requires n < |es|
  {
    var before, after := Run(IDLE, es[..n]), Run(IDLE, es[..n + 1]);
    && es[n].now == time
    && (InFlight(before, name) || after.starts == before.starts + [Start(name, time)])
  }

  ghost predicate TickedBy(es: seq<Timed>, p: nat, name: string, time: int) {
    exists n :: p <= n < |es| && TicksAt(es, n, name, time)
  }

  function TickTime(t0: int, task: Task, k: nat): int {
    t0 + (if task.delay > 0 then task.delay else 0) + k * task.interval
  }

  lemma NextTick(t0: int, task: Task, k: nat)
    ensures TickTime(t0, task, k + 1) == TickTime(t0, task, k) + task.interval
    ensures TickTime(t0, task, 0) == t0 + if task.delay > 0 then task.delay else 0
  {
    Distribute(k, 1, task.interval);
  }

  lemma TickedMore(init: seq<Timed>, e: Timed, p: nat, name: string, time: int)
    requires TickedBy(init, p, name, time)
    ensures TickedBy(init + [e], p, name, time)
  {
    hide InFlight, Run;
    var es := init + [e];
    var n :| p <= n < |init| && TicksAt(init, n, name, time);
    assert es[..n] == init[..n] && es[..n + 1] == init[..n + 1];
    assert TicksAt(es, n, name, time);
  }

  /** The next tick of the task is armed, and all earlier ones have taken place. */
  ghost predicate Pending(es: seq<Timed>, p: nat, task: Task, id: TimerId, next: nat)
    requires p < |es|
  {
    && id in Run(IDLE, es).armed && Run(IDLE, es).armed[id].task == task
    && Run(IDLE, es).armed[id].due == TickTime(es[p].now, task, next)
    && forall k: nat :: k < next ==> TickedBy(es, p, task.name, TickTime(es[p].now, task, k))
  }

  lemma PendingAdded(init: seq<Timed>, task: Task, t0: int) returns (id: TimerId, next: nat)
    requires !Run(IDLE, init).stopped
    ensures Pending(init + [At(t0, Add(task))], |init|, task, id, next)
  {
    var es := init + [At(t0, Add(task))];
    var s, r := Run(IDLE, init), Run(IDLE, es);
    AddStarts(init, task, t0);
    NextTick(t0, task, 0);
    id :| id !in s.armed &&
          r.armed == s.armed[id := if task.delay > 0 then Once(task, t0 + task.delay) else Every(task, t0 + task.interval)];
    next := if task.delay > 0 then 0 else 1;
    hide Run, InFlight, TickTime;
    assert es[..|init|] == init && es[..|init| + 1] == es;
    assert task.delay <= 0 ==> TicksAt(es, |init|, task.name, TickTime(t0, task, 0));
  }

  lemma PendingFired(init: seq<Timed>, p: nat, task: Task, id: TimerId, next: nat) returns (id': TimerId)
    requires p < |init| && Pending(init, p, task, id, next) && !Run(IDLE, init).stopped
    ensures Pending(init + [At(Run(IDLE, init).armed[id].due, Fire(id))], p, task, id', next + 1)
  {
    var now := Run(IDLE, init).armed[id].due;
    var es := init + [At(now, Fire(id))];
    var s, r := Run(IDLE, init), Run(IDLE, es);
    FireStarts(init, id, now);
    NextTick(init[p].now, task, next);
    if s.armed[id].Every? {
      id' := id;
    } else {
      id' :| id' !in s.armed && r.armed == (s.armed - {id})[id' := Every(task, now + task.interval)];
    }
    hide Run, InFlight, TickTime;
    assert es[..|init|] == init && es[..|init| + 1] == es;
    assert TicksAt(es, |init|, task.name, now);
    hide TicksAt;
    forall k: nat | k < next + 1
      ensures TickedBy(es, p, task.name, TickTime(es[p].now, task, k))
    {
      if k < next {
        TickedMore(init, es[|init|], p, task.name, TickTime(init[p].now, task, k));
      }
    }
  }

  lemma PendingKept(init: seq<Timed>, e: Timed, p: nat, task: Task, id: TimerId, next: nat)
    requires p < |init| && Pending(init, p, task, id, next) && !Run(IDLE, init + [e]).stopped
    requires e.event.Fire? ==> e.event.id in Run(IDLE, init).armed && e.event.id != id
    ensures Pending(init + [e], p, task, id, next)
  {
    match e.event {
      case Add(added) => AddStarts(init, added, e.now);
      case Fire(other) => FireStarts(init, other, e.now);
      case Settle(run) => SettleAndStop(init, run, e.now);
      case Stop => SettleAndStop(init, 0, e.now);
    }
    assert e == At(e.now, e.event);
    hide Run, InFlight, TickTime, TickedBy, StartsOne;
    forall k: nat | k < next
      ensures TickedBy(init + [e], p, task.name, TickTime((init + [e])[p].now, task, k))
    {
      TickedMore(init, e, p, task.name, TickTime(init[p].now, task, k));
    }
  }

  lemma StoppedStays(init: seq<Timed>, e: Timed)
    requires !Run(IDLE, init + [e]).stopped
    ensures !Run(IDLE, init).stopped
  {
    RunMore(IDLE, init, e);
    hide Run;
  }

  lemma {:induction false} AlwaysPending(es: seq<Timed>, p: nat, task: Task) returns (id: TimerId, next: nat)
    requires p < |es| && es[p].event == Add(task) && Punctual(es, p) && !Run(IDLE, es).stopped
    ensures Pending(es, p, task, id, next)
    decreases |es|
  {
    hide Run, Pending, OnTime;
    var init, e := es[..|es| - 1], es[|es| - 1];
    assert es == init + [e];
    StoppedStays(init, e);
    if p == |init| {
      assert e == At(e.now, Add(task));
      id, next := PendingAdded(init, task, e.now);
    } else {
      assert forall n :: p < n < |init| ==> init[..n] == es[..n];
      assert OnTime(Run(IDLE, init), e);
      id, next := AlwaysPending(init, p, task);
      id, next := PendingStep(init, e, p, task, id, next);
    }
  }

  lemma PendingStep(init: seq<Timed>, e: Timed, p: nat, task: Task, id: TimerId, next: nat) returns (id': TimerId, next': nat)
    requires p < |init| && Pending(init, p, task, id, next)
    requires !Run(IDLE, init).stopped && !Run(IDLE, init + [e]).stopped && OnTime(Run(IDLE, init), e)
    ensures Pending(init + [e], p, task, id', next')
  {
    if e.event == Fire(id) {
      assert e == At(Run(IDLE, init).armed[id].due, Fire(id));
      hide Run, Pending;
      id' := PendingFired(init, p, task, id, next);
      next' := next + 1;
    } else {
      hide Run, Pending;
      PendingKept(init, e, p, task, id, next);
      id', next' := id, next;
    }
  }

  /** On every punctual run that is not stopped: a task added at t0 with delay d and interval I ticks at
      t0 + d + k * I for every k up to now; each time a run of it begins then, unless its earlier run is
      still in flight. */
  lemma TaskKeepsTicking(es: seq<Timed>, p: nat, task: Task, now: int, k: nat)
    requires p < |es| && es[p].event == Add(task) && Punctual(es, p) && !Run(IDLE, es).stopped && task.interval > 0
    requires NoneOverdue(Run(IDLE, es), now) && TickTime(es[p].now, task, k) < now
    ensures TickedBy(es, p, task.name, TickTime(es[p].now, task, k))
  {
    var id, next := AlwaysPending(es, p, task);
    hide Run, TickedBy, Punctual;
    assert TickTime(es[p].now, task, k) < TickTime(es[p].now, task, next);
    if k >= next {
      MulMonotone(next, k, task.interval);
    }
  }

  lemma {:induction false} StartsGrow(s: State, es: seq<Timed>)
    ensures s.starts <= Run(s, es).starts
  {
    if es != [] {
      StartsGrow(s, es[..|es| - 1]);
    }
  }

  /** What began stays in the log: so each of those times is in it, or a run was in flight then. */
  lemma StartLogged(es: seq<Timed>, n: nat, name: string, time: int)
    requires n < |es| && TicksAt(es, n, name, time) && !InFlight(Run(IDLE, es[..n]), name)
    ensures Start(name, time) in Run(IDLE, es).starts
  {
    assert es == es[..n + 1] + es[n + 1..];
    RunAppend(IDLE, es[..n + 1], es[n + 1..]);
    StartsGrow(Run(IDLE, es[..n + 1]), es[n + 1..]);
    hide Run, InFlight;
    var before := Run(IDLE, es[..n]).starts;
    assert Run(IDLE, es).starts[|before|] == Start(name, time);
  }
}
