/** The worker's tasks on ideal timers: three that sign with one key, a third of the interval apart. */
module WorkerSchedule {
  import opened Arithmetic
  import opened Scheduler
  import opened SchedulerStarts

  const REBALANCE := "agent-rebalance"
  const PAYROLL := "scheduled-payroll"
  const MARKET := "refresh-market-data"
  const DEFINDEX := "defindex-yield"
  const BLEND := "blend-yield"

  const SIGNING: set<string> := {REBALANCE, DEFINDEX, BLEND}

  function MaxOf(a: int, b: int): int { if a < b then b else a }

  /** What `main` adds, in order; `interval` is a positive number of whole seconds. */
  function Tasks(interval: int, dryRun: bool): seq<Task> {
    [Task(REBALANCE, interval, 0), Task(PAYROLL, interval, 0), Task(MARKET, MaxOf(60_000, interval / 2), 0)] +
    if dryRun then []
    else [Task(DEFINDEX, interval, interval / 3), Task(BLEND, interval, interval * 2 / 3)]
  }

  /** The position of each signing task within the interval. */
  function Offset(name: string, interval: int): int {
    if name == DEFINDEX then interval / 3
    else if name == BLEND then interval * 2 / 3
    else 0
  }

  function Started(tasks: seq<Task>, t0: int): State {
    if tasks == [] then IDLE else AfterAdd(Started(tasks[..|tasks| - 1], t0), tasks[|tasks| - 1], t0)
  }

  lemma StartedMore(tasks: seq<Task>, task: Task, t0: int)
    ensures Started(tasks + [task], t0) == AfterAdd(Started(tasks, t0), task, t0)
  {
    assert (tasks + [task])[..|tasks|] == tasks;
  }

  lemma StartedSteps(interval: int, t0: int)
    ensures var s := AfterAdd(AfterAdd(AfterAdd(IDLE, Task(REBALANCE, interval, 0), t0), Task(PAYROLL, interval, 0), t0),
                              Task(MARKET, MaxOf(60_000, interval / 2), 0), t0);
            && Started(Tasks(interval, true), t0) == s
            && Started(Tasks(interval, false), t0) ==
               AfterAdd(AfterAdd(s, Task(DEFINDEX, interval, interval / 3), t0), Task(BLEND, interval, interval * 2 / 3), t0)
  {
    var a, b, c := Task(REBALANCE, interval, 0), Task(PAYROLL, interval, 0), Task(MARKET, MaxOf(60_000, interval / 2), 0);
    var d, e := Task(DEFINDEX, interval, interval / 3), Task(BLEND, interval, interval * 2 / 3);
    assert Tasks(interval, true) == [] + [a] + [b] + [c];
    assert Tasks(interval, false) == [] + [a] + [b] + [c] + [d] + [e];
    assert Started([], t0) == IDLE;
    hide Started, AfterAdd, Tasks, MaxOf;
    StartedMore([], a, t0);
    StartedMore([] + [a], b, t0);
    StartedMore([] + [a] + [b], c, t0);
    StartedMore([] + [a] + [b] + [c], d, t0);
    StartedMore([] + [a] + [b] + [c] + [d], e, t0);
  }

  class Worker {
    const scheduler: Scheduler

    constructor (scheduler: Scheduler)
      ensures this.scheduler == scheduler
    {
      this.scheduler := scheduler;
    }

    /** The entry point, up to the registration of the tasks. */
    method Start(seconds: int, dryRun: bool, now: int)
      requires seconds > 0 && scheduler.View() == IDLE
      modifies scheduler
      ensures scheduler.View() == Started(Tasks(seconds * 1000, dryRun), now)
    {
      hide AfterAdd, Tasks, Started, MaxOf;
      var interval := seconds * 1000;
      StartedSteps(interval, now);
      scheduler.DoAdd(Task(REBALANCE, interval, 0), now);
      scheduler.DoAdd(Task(PAYROLL, interval, 0), now);
      scheduler.DoAdd(Task(MARKET, MaxOf(60_000, interval / 2), 0), now);
      if !dryRun {
        scheduler.DoAdd(Task(DEFINDEX, interval, interval / 3), now);
        scheduler.DoAdd(Task(BLEND, interval, interval * 2 / 3), now);
      }
    }
  }

  // ---- Phases ----

  function Phase(time: int, t0: int, interval: int): int
    requires interval > 0
  {
    (time - t0) % interval
  }

  lemma PhaseAfter(time: int, t0: int, interval: int)
    requires interval > 0
    ensures Phase(time + interval, t0, interval) == Phase(time, t0, interval)
  {
    var x := time - t0;
    var q, r := x / interval, x % interval;
    var q1, r1 := (x + interval) / interval, (x + interval) % interval;
    assert x == q * interval + r;
    assert x + interval == q1 * interval + r1;
    Distribute(q, 1, interval);
    EqualQuotients(q + 1, r, q1, r1, interval);
    assert time + interval - t0 == x + interval;
  }

  lemma PhaseFromStart(t0: int, delay: int, interval: int)
    requires 0 <= delay < interval
    ensures Phase(t0 + delay, t0, interval) == delay
  {
    assert t0 + delay - t0 == delay;
  }

  /** Two instants whose phases are at least `gap` apart around the circle are at least `gap` apart. */
  lemma PhasesApart(a: int, b: int, t0: int, interval: int, gap: nat)
    requires interval > 0
    requires var d := Phase(a, t0, interval) - Phase(b, t0, interval);
             gap <= (if d < 0 then -d else d) <= interval - gap
    ensures a - b >= gap || b - a >= gap
  {
    var q, r := (a - t0) / interval, (b - t0) / interval;
    assert a - t0 == q * interval + Phase(a, t0, interval);
    assert b - t0 == r * interval + Phase(b, t0, interval);
    if q < r {
      MulStrict(q, r, interval);
    } else if r < q {
      MulStrict(r, q, interval);
    }
  }

  /** The offsets of two different signing tasks are at least a third of the interval apart, both
      ways around. */
  lemma OffsetsApart(x: string, y: string, interval: int)
    requires interval > 0 && x in SIGNING && y in SIGNING && x != y
    ensures 0 <= Offset(x, interval) < interval
    ensures var d := Offset(x, interval) - Offset(y, interval);
            interval / 3 <= (if d < 0 then -d else d) <= interval - interval / 3
  {
  }

  // ---- Ideal timers ----

  /** Every timer and every start of a signing task is at its task's phase. */
  ghost predicate OnPhase(s: State, t0: int, interval: int)
    requires interval > 0
  {
    && (forall id :: id in s.armed && s.armed[id].task.name in SIGNING ==>
          && s.armed[id].task.interval == interval
          && Phase(s.armed[id].due, t0, interval) == Offset(s.armed[id].task.name, interval))
    && (forall i :: 0 <= i < |s.starts| && s.starts[i].name in SIGNING ==>
          Phase(s.starts[i].at, t0, interval) == Offset(s.starts[i].name, interval))
  }

  /** The next event of an ideal run: timers fire when they are due, nothing more is added, and time
      does not run backwards. */
  ghost predicate Ideal(s: State, e: Timed) {
    && !e.event.Add?
    && (e.event.Fire? ==> e.event.id in s.armed && e.now == s.armed[e.event.id].due)
    && forall i :: 0 <= i < |s.starts| ==> s.starts[i].at <= e.now
  }

  /** No run is still in flight `limit` after it began. */
  ghost predicate Shorter(s: State, now: int, limit: int) {
    forall i :: i in s.inFlight && i < |s.starts| ==> now < s.starts[i].at + limit
  }

  ghost predicate IdealRun(s: State, es: seq<Timed>) {
    forall k :: 0 <= k < |es| ==> Ideal(Run(s, es[..k]), es[k])
  }

  ghost predicate ShortRuns(s: State, es: seq<Timed>, limit: int) {
    forall k :: 0 <= k < |es| ==> Shorter(Run(s, es[..k]), es[k].now, limit)
  }

  predicate Fits(task: Task, interval: int) {
    task.name in SIGNING ==>
      task.interval == interval && task.delay == Offset(task.name, interval) && 0 <= task.delay < interval
  }

  lemma TickedOnPhase(s: State, name: string, now: int, t0: int, interval: int)
    requires interval > 0 && OnPhase(s, t0, interval)
    requires name in SIGNING ==> Phase(now, t0, interval) == Offset(name, interval)
    ensures OnPhase(Ticked(s, name, now), t0, interval)
  {
    hide Phase, Offset;
  }

  lemma ArmOnPhase(s: State, a: Armed, t0: int, interval: int)
    requires interval > 0 && OnPhase(s, t0, interval)
    requires a.task.name in SIGNING ==>
               a.task.interval == interval && Phase(a.due, t0, interval) == Offset(a.task.name, interval)
    ensures OnPhase(Arm(s, a), t0, interval)
  {
    hide Phase, Offset;
  }

  lemma AddOnPhase(s: State, task: Task, t0: int, interval: int)
    requires interval > 0 && OnPhase(s, t0, interval) && Fits(task, interval)
    ensures OnPhase(AfterAdd(s, task, t0), t0, interval)
  {
    if task.delay > 0 {
      if task.name in SIGNING {
        PhaseFromStart(t0, task.delay, interval);
      }
      ArmOnPhase(s, Once(task, t0 + task.delay), t0, interval);
    } else {
      PhaseFromStart(t0, 0, interval);
      PhaseAfter(t0, t0, interval);
      TickedOnPhase(s, task.name, t0, t0, interval);
      ArmOnPhase(Ticked(s, task.name, t0), Every(task, t0 + task.interval), t0, interval);
    }
  }

  lemma {:induction false} StartedOnPhase(tasks: seq<Task>, interval: int, t0: int)
    requires interval > 0 && forall i :: 0 <= i < |tasks| ==> Fits(tasks[i], interval)
    ensures OnPhase(Started(tasks, t0), t0, interval)
  {
    if tasks != [] {
      StartedOnPhase(tasks[..|tasks| - 1], interval, t0);
      AddOnPhase(Started(tasks[..|tasks| - 1], t0), tasks[|tasks| - 1], t0, interval);
      hide OnPhase, AfterAdd;
    }
  }

  lemma TasksFit(interval: int, dryRun: bool)
    requires interval > 0
    ensures forall i :: 0 <= i < |Tasks(interval, dryRun)| ==> Fits(Tasks(interval, dryRun)[i], interval)
  {
  }

  lemma FireOnPhase(s: State, id: TimerId, t0: int, interval: int)
    requires interval > 0 && OnPhase(s, t0, interval) && id in s.armed
    ensures OnPhase(AfterFire(s, id, s.armed[id].due), t0, interval)
  {
    var task, now := s.armed[id].task, s.armed[id].due;
    if task.name in SIGNING {
      PhaseAfter(now, t0, interval);
    }
    hide Phase, Offset;
    if s.armed[id].Every? {
      var again := s.(armed := s.armed[id := Every(task, now + task.interval)]);
      assert OnPhase(again, t0, interval);
      TickedOnPhase(again, task.name, now, t0, interval);
    } else {
      var fired := s.(armed := s.armed - {id});
      assert OnPhase(fired, t0, interval);
      TickedOnPhase(fired, task.name, now, t0, interval);
      ArmOnPhase(Ticked(fired, task.name, now), Every(task, now + task.interval), t0, interval);
    }
    hide OnPhase, Ticked, Arm;
  }

  lemma StepOnPhase(s: State, e: Timed, t0: int, interval: int)
    requires interval > 0 && OnPhase(s, t0, interval) && Ideal(s, e)
    ensures OnPhase(After(s, e.event, e.now), t0, interval)
  {
    hide Phase, Offset, AfterFire;
    match e.event
    case Fire(id) => FireOnPhase(s, id, t0, interval);
    case Settle(run) =>
    case Stop =>
  }

  lemma RunIdeal(s: State, es: seq<Timed>)
    requires es != [] && IdealRun(s, es)
    ensures IdealRun(s, es[..|es| - 1]) && Ideal(Run(s, es[..|es| - 1]), es[|es| - 1])
  {
    var init := es[..|es| - 1];
    forall k | 0 <= k < |init|
      ensures Ideal(Run(s, init[..k]), init[k])
    {
      assert init[..k] == es[..k];
    }
  }

  lemma {:induction false} RunOnPhase(s: State, es: seq<Timed>, t0: int, interval: int)
    requires interval > 0 && OnPhase(s, t0, interval) && IdealRun(s, es)
    ensures OnPhase(Run(s, es), t0, interval)
  {
    if es != [] {
      RunIdeal(s, es);
      RunOnPhase(s, es[..|es| - 1], t0, interval);
      StepOnPhase(Run(s, es[..|es| - 1]), es[|es| - 1], t0, interval);
      hide OnPhase, IdealRun, Ideal, After;
    }
  }

  /** On ideal timers, any two starts of different signing tasks are at least a third of the
      interval apart, forever. */
  lemma StartsApart(interval: int, dryRun: bool, t0: int, es: seq<Timed>, i: nat, j: nat)
    requires interval > 0
    requires IdealRun(Started(Tasks(interval, dryRun), t0), es)
    requires var s := Run(Started(Tasks(interval, dryRun), t0), es);
             && i < |s.starts| && j < |s.starts|
             && s.starts[i].name in SIGNING && s.starts[j].name in SIGNING && s.starts[i].name != s.starts[j].name
    ensures var s := Run(Started(Tasks(interval, dryRun), t0), es);
            s.starts[i].at - s.starts[j].at >= interval / 3 || s.starts[j].at - s.starts[i].at >= interval / 3
  {
    var start := Started(Tasks(interval, dryRun), t0);
    var s := Run(start, es);
    TasksFit(interval, dryRun);
    StartedOnPhase(Tasks(interval, dryRun), interval, t0);
    RunOnPhase(start, es, t0, interval);
    OffsetsApart(s.starts[i].name, s.starts[j].name, interval);
    hide Offset, Phase, IdealRun, Tasks;
    PhasesApart(s.starts[i].at, s.starts[j].at, t0, interval, interval / 3);
  }

  // ---- One at a time ----

  ghost predicate SigningAlone(s: State) {
    forall i, j :: i in s.inFlight && j in s.inFlight && i < |s.starts| && j < |s.starts| && i != j ==>
      s.starts[i].name !in SIGNING || s.starts[j].name !in SIGNING
  }

  /** A step either begins no run or begins one, now, of a task that had none in flight. */
  lemma StepStarts(s: State, e: Timed)
    requires Exclusive(s) && !e.event.Add?
    ensures var r := After(s, e.event, e.now);
            || (r.starts == s.starts && r.inFlight <= s.inFlight)
            || (&& |r.starts| == |s.starts| + 1 && r.starts[..|s.starts|] == s.starts
                && r.starts[|s.starts|].at == e.now && r.starts[|s.starts|].name !in s.running
                && r.inFlight == s.inFlight + {|s.starts|})
  {
  }

  lemma StepAlone(s: State, e: Timed, t0: int, interval: int)
    requires interval > 0 && Exclusive(s) && SigningAlone(s)
    requires OnPhase(After(s, e.event, e.now), t0, interval)
    requires Ideal(s, e) && Shorter(s, e.now, interval / 3)
    ensures SigningAlone(After(s, e.event, e.now))
  {
    var r, n := After(s, e.event, e.now), |s.starts|;
    StepStarts(s, e);
    hide After, Offset, Phase;
    if |r.starts| > n && r.starts[n].name in SIGNING {
      forall j | j in s.inFlight
        ensures r.starts[j].name !in SIGNING
      {
        if r.starts[j].name in SIGNING {
          assert r.starts[j] == s.starts[j];
          OffsetsApart(r.starts[n].name, r.starts[j].name, interval);
          PhasesApart(r.starts[n].at, r.starts[j].at, t0, interval, interval / 3);
          assert false;
        }
      }
    }
  }

  lemma {:induction false} StartedExclusive(tasks: seq<Task>, t0: int)
    ensures Exclusive(Started(tasks, t0))
  {
    if tasks != [] {
      var init, last := tasks[..|tasks| - 1], tasks[|tasks| - 1];
      StartedExclusive(init, t0);
      StepExclusive(Started(init, t0), Add(last), t0);
      hide Exclusive, AfterAdd;
    }
  }

  lemma {:induction false} RunAlone(s: State, es: seq<Timed>, t0: int, interval: int)
    requires interval > 0 && OnPhase(s, t0, interval) && Exclusive(s) && SigningAlone(s)
    requires IdealRun(s, es) && ShortRuns(s, es, interval / 3)
    ensures SigningAlone(Run(s, es)) && Exclusive(Run(s, es))
  {
    if es != [] {
      var init, e := es[..|es| - 1], es[|es| - 1];
      RunIdeal(s, es);
      RunShort(s, es, interval / 3);
      RunAlone(s, init, t0, interval);
      RunOnPhase(s, es, t0, interval);
      hide OnPhase, Exclusive, SigningAlone, IdealRun, Ideal, Shorter, ShortRuns, After;
      StepExclusive(Run(s, init), e.event, e.now);
      StepAlone(Run(s, init), e, t0, interval);
    }
  }

  lemma RunShort(s: State, es: seq<Timed>, limit: int)
    requires es != [] && ShortRuns(s, es, limit)
    ensures ShortRuns(s, es[..|es| - 1], limit)
    ensures Shorter(Run(s, es[..|es| - 1]), es[|es| - 1].now, limit)
  {
    var init := es[..|es| - 1];
    forall k | 0 <= k < |init|
      ensures Shorter(Run(s, init[..k]), init[k].now, limit)
    {
      assert init[..k] == es[..k];
    }
  }

  /** At once, the three undelayed tasks begin. */
  lemma StartedStarts(interval: int, dryRun: bool, t0: int)
    requires interval >= 3
    ensures var s := Started(Tasks(interval, dryRun), t0);
            s.starts == [Start(REBALANCE, t0), Start(PAYROLL, t0), Start(MARKET, t0)] && s.inFlight == {0, 1, 2}
  {
    StartedSteps(interval, t0);
    hide Tasks, Started, MaxOf;
  }

  lemma StartedAlone(interval: int, dryRun: bool, t0: int)
    requires interval >= 3
    ensures SigningAlone(Started(Tasks(interval, dryRun), t0))
  {
    StartedStarts(interval, dryRun, t0);
    hide Tasks, Started;
  }

  /** On ideal timers, if no run is still in flight a third of the interval after it began, then at
      most one of the three signing tasks is ever in flight. */
  lemma OneSignerAtATime(seconds: int, dryRun: bool, t0: int, es: seq<Timed>)
    requires seconds > 0
    requires var start := Started(Tasks(seconds * 1000, dryRun), t0);
             IdealRun(start, es) && ShortRuns(start, es, seconds * 1000 / 3)
    ensures SigningAlone(Run(Started(Tasks(seconds * 1000, dryRun), t0), es))
  {
    var interval := seconds * 1000;
    var tasks := Tasks(interval, dryRun);
    TasksFit(interval, dryRun);
    StartedOnPhase(tasks, interval, t0);
    StartedExclusive(tasks, t0);
    StartedAlone(interval, dryRun, t0);
    assert interval >= 3;
    hide Tasks, Started, OnPhase, Exclusive, SigningAlone, IdealRun, ShortRuns;
    RunAlone(Started(tasks, t0), es, t0, interval);
  }

  /** The rotation covers three tasks only: the payroll run, which signs as well, begins at the very
      instant the rebalance does and is in flight beside it. */
  lemma PayrollStartsWithRebalance(interval: int, dryRun: bool, t0: int)
    requires interval >= 3
    ensures var s := Started(Tasks(interval, dryRun), t0);
            && 0 in s.inFlight && 1 in s.inFlight && 1 < |s.starts|
            && s.starts[0] == Start(REBALANCE, t0) && s.starts[1] == Start(PAYROLL, t0)
  {
    StartedStarts(interval, dryRun, t0);
    hide Tasks, Started;
  }

  // ---- The worker keeps working ----

  /** What the worker adds at t0, with an interval of I milliseconds. */
  function Registered(I: int, dryRun: bool, t0: int): seq<Timed> {
    [At(t0, Add(Task("agent-rebalance", I, 0))), At(t0, Add(Task("scheduled-payroll", I, 0))),
     At(t0, Add(Task("refresh-market-data", if I / 2 < 60_000 then 60_000 else I / 2, 0)))] +
    if dryRun then []
    else [At(t0, Add(Task("defindex-yield", I, I / 3))), At(t0, Add(Task("blend-yield", I, I * 2 / 3)))]
  }

  lemma StartedIsRun(I: int, dryRun: bool, t0: int)
    ensures Started(Tasks(I, dryRun), t0) == Run(IDLE, Registered(I, dryRun, t0))
  {
    StartedSteps(I, t0);
    var es := Registered(I, dryRun, t0);
    assert es[..1] == [] + [es[0]] && es[..2] == es[..1] + [es[1]] && es[..3] == es[..2] + [es[2]];
    RunMore(IDLE, [], es[0]);
    RunMore(IDLE, es[..1], es[1]);
    RunMore(IDLE, es[..2], es[2]);
    assert dryRun ==> es == es[..3];
    if !dryRun {
      assert es[..4] == es[..3] + [es[3]] && es == es[..4] + [es[4]];
      RunMore(IDLE, es[..3], es[3]);
      RunMore(IDLE, es[..4], es[4]);
    }
    hide Started, Tasks, AfterAdd, Run;
    assert Run(IDLE, []) == IDLE by {
      RunNothing();
    }
  }

  lemma RunNothing()
    ensures Run(IDLE, []) == IDLE
  {
  }

  /** The task ticks at first + k * every, for every k up to now. */
  ghost predicate Rhythm(es: seq<Timed>, name: string, first: int, every: int, now: int) {
    forall k: nat :: first + k * every < now ==> TickedBy(es, 0, name, first + k * every)
  }

  lemma TaskRhythm(es: seq<Timed>, p: nat, task: Task, now: int)
    requires p < |es| && es[p].event == Add(task) && task.interval > 0 && task.delay >= 0
    requires Punctual(es, 0) && !Run(IDLE, es).stopped && NoneOverdue(Run(IDLE, es), now)
    ensures Rhythm(es, task.name, es[p].now + task.delay, task.interval, now)
  {
    hide Run, TicksAt, NoneOverdue, OnTime;
    assert Punctual(es, p);
    forall k: nat | es[p].now + task.delay + k * task.interval < now
      ensures TickedBy(es, 0, task.name, es[p].now + task.delay + k * task.interval)
    {
      TaskKeepsTicking(es, p, task, now, k);
    }
  }

  /** On every punctual run of the worker that is not stopped, each of its tasks ticks in its own rhythm
      for as long as it runs. */
  lemma WorkerKeepsTicking(seconds: int, dryRun: bool, t0: int, later: seq<Timed>, now: int)
    requires seconds > 0
    requires var es := Registered(seconds * 1000, dryRun, t0) + later;
             Punctual(es, 0) && !Run(IDLE, es).stopped && NoneOverdue(Run(IDLE, es), now)
    ensures var I, es := seconds * 1000, Registered(seconds * 1000, dryRun, t0) + later;
            && Rhythm(es, "agent-rebalance", t0, I, now)
            && Rhythm(es, "scheduled-payroll", t0, I, now)
            && Rhythm(es, "refresh-market-data", t0, if I / 2 < 60_000 then 60_000 else I / 2, now)
            && (!dryRun ==> Rhythm(es, "defindex-yield", t0 + I / 3, I, now) && Rhythm(es, "blend-yield", t0 + I * 2 / 3, I, now))
  {
    hide Run, Punctual, NoneOverdue, Rhythm;
    var I := seconds * 1000;
    var es := Registered(I, dryRun, t0) + later;
    TaskRhythm(es, 0, Task("agent-rebalance", I, 0), now);
    TaskRhythm(es, 1, Task("scheduled-payroll", I, 0), now);
    TaskRhythm(es, 2, Task("refresh-market-data", if I / 2 < 60_000 then 60_000 else I / 2, 0), now);
    if !dryRun {
      TaskRhythm(es, 3, Task("defindex-yield", I, I / 3), now);
      TaskRhythm(es, 4, Task("blend-yield", I, I * 2 / 3), now);
    }
  }
}
