/** The worker's in-process scheduler, with the part of the runtime it stands on: the armed timers
    and the runs in flight. */
module Scheduler {

  datatype Task = Task(name: string, interval: int, delay: int)

  type TimerId = nat

  /** An armed timer and when it is due. */
  datatype Armed = Once(task: Task, due: int) | Every(task: Task, due: int)

  datatype Start = Start(name: string, at: int)

  /** `starts` is the log of all runs begun; `inFlight` are the positions in it of those that have
      not settled. */
  datatype State = State(timers: seq<TimerId>, running: set<string>, stopped: bool,
                         armed: map<TimerId, Armed>, nextId: TimerId,
                         starts: seq<Start>, inFlight: set<nat>)

  const IDLE := State([], {}, false, map[], 0, [], {})

  /** What can happen: a task is added, an armed timer fires, a run settles (returning or
      throwing), the scheduler is stopped. */
  datatype Event = Add(task: Task) | Fire(id: TimerId) | Settle(run: nat) | Stop

  function Ticked(s: State, name: string, now: int): State {
    if s.stopped || name in s.running then s
    else
      s.(running := s.running + {name},
         starts := s.starts + [Start(name, now)],
         inFlight := s.inFlight + {|s.starts|})
  }

  function Arm(s: State, a: Armed): State {
    s.(armed := s.armed[s.nextId := a], timers := s.timers + [s.nextId], nextId := s.nextId + 1)
  }

  function AfterAdd(s: State, task: Task, now: int): State {
    if task.delay > 0 then Arm(s, Once(task, now + task.delay))
    else Arm(Ticked(s, task.name, now), Every(task, now + task.interval))
  }

  function AfterFire(s: State, id: TimerId, now: int): State {
    if id !in s.armed then s
    else
      var task := s.armed[id].task;
      if s.armed[id].Every? then
        Ticked(s.(armed := s.armed[id := Every(task, now + task.interval)]), task.name, now)
      else
        var fired := s.(armed := s.armed - {id});
        if s.stopped then fired
        else Arm(Ticked(fired, task.name, now), Every(task, now + task.interval))
  }

  function AfterSettle(s: State, run: nat): State {
    if run !in s.inFlight || run >= |s.starts| then s
    else s.(inFlight := s.inFlight - {run}, running := s.running - {s.starts[run].name})
  }

  function Ids(timers: seq<TimerId>): set<TimerId> { set id | id in timers }

  function AfterStop(s: State): State {
    s.(stopped := true, armed := s.armed - Ids(s.timers), timers := [])
  }

  function After(s: State, e: Event, now: int): State {
    match e
    case Add(task) => AfterAdd(s, task, now)
    case Fire(id) => AfterFire(s, id, now)
    case Settle(run) => AfterSettle(s, run)
    case Stop => AfterStop(s)
  }

  class Scheduler {
    var timers: seq<TimerId>
    var running: set<string>
    var stopped: bool
    var armed: map<TimerId, Armed>
    var nextId: TimerId
    var starts: seq<Start>
    var inFlight: set<nat>

    function View(): State
      reads this
    {
      State(timers, running, stopped, armed, nextId, starts, inFlight)
    }

    constructor ()
      ensures View() == IDLE
    {
      timers, running, stopped := [], {}, false;
      armed, nextId, starts, inFlight := map[], 0, [], {};
    }

    method SetTimer(a: Armed)
      modifies this
      ensures View() == Arm(old(View()), a)
    {
      armed := armed[nextId := a];
      timers := timers + [nextId];
      nextId := nextId + 1;
    }

    /** Up to the point where the run's promise is pending. */
    method Tick(name: string, now: int)
      modifies this
      ensures View() == Ticked(old(View()), name, now)
    {
      if stopped || name in running {
        return;
      }
      running := running + {name};
      inFlight := inFlight + {|starts|};
      starts := starts + [Start(name, now)];
    }

    method DoAdd(task: Task, now: int)
      modifies this
      ensures View() == AfterAdd(old(View()), task, now)
    {
      if task.delay > 0 {
        SetTimer(Once(task, now + task.delay));
      } else {
        Tick(task.name, now);
        SetTimer(Every(task, now + task.interval));
      }
    }

    method DoFire(id: TimerId, now: int)
      modifies this
      ensures View() == AfterFire(old(View()), id, now)
    {
      if id !in armed {
        return;
      }
      var task := armed[id].task;
      if armed[id].Every? {
        armed := armed[id := Every(task, now + task.interval)];
        Tick(task.name, now);
      } else {
        armed := armed - {id};
        if stopped {
          return;
        }
        Tick(task.name, now);
        SetTimer(Every(task, now + task.interval));
      }
    }

    /** The `finally` of a run. */
    method DoSettle(run: nat)
      modifies this
      ensures View() == AfterSettle(old(View()), run)
    {
      if run in inFlight && run < |starts| {
        inFlight := inFlight - {run};
        running := running - {starts[run].name};
      }
    }

    method DoStop()
      modifies this
      ensures View() == AfterStop(old(View()))
    {
      stopped := true;
      ghost var was := armed;
      for i := 0 to |timers|
        invariant timers == old(timers) && stopped
        invariant armed == was - Ids(timers[..i])
        invariant running == old(running) && nextId == old(nextId) && starts == old(starts) && inFlight == old(inFlight)
      {
        assert timers[..i + 1] == timers[..i] + [timers[i]];
        assert Ids(timers[..i + 1]) == Ids(timers[..i]) + {timers[i]};
        armed := armed - {timers[i]};
      }
      assert timers[..|timers|] == timers;
      timers := [];
    }
  }

  // ---- Any run whatever ----

  datatype Timed = At(now: int, event: Event)

  function Run(s: State, es: seq<Timed>): State {
    if es == [] then s
    else After(Run(s, es[..|es| - 1]), es[|es| - 1].event, es[|es| - 1].now)
  }

  /** Runs in flight have different names, and those names are the ones marked as running; armed
      timers are on the list that `stop` clears. */
  ghost predicate Exclusive(s: State) {
    && (forall i :: i in s.inFlight ==> i < |s.starts| && s.starts[i].name in s.running)
    && (forall i, j :: i in s.inFlight && j in s.inFlight && i != j ==> s.starts[i].name != s.starts[j].name)
    && (forall name :: name in s.running ==> exists i :: i in s.inFlight && s.starts[i].name == name)
    && (forall id :: id in s.armed ==> id in s.timers && id < s.nextId)
  }

  lemma TickedExclusive(s: State, name: string, now: int)
    requires Exclusive(s)
    ensures Exclusive(Ticked(s, name, now))
  {
    var r := Ticked(s, name, now);
    if r != s {
      forall n | n in r.running
        ensures exists i :: i in r.inFlight && r.starts[i].name == n
      {
        if n in s.running {
          var i :| i in s.inFlight && s.starts[i].name == n;
          assert i in r.inFlight && r.starts[i].name == n;
        } else {
          assert |s.starts| in r.inFlight && r.starts[|s.starts|].name == n;
        }
      }
    }
  }

  lemma SettleExclusive(s: State, run: nat)
    requires Exclusive(s)
    ensures Exclusive(AfterSettle(s, run))
  {
    var r := AfterSettle(s, run);
    if r != s {
      forall n | n in r.running
        ensures exists i :: i in r.inFlight && r.starts[i].name == n
      {
        var i :| i in s.inFlight && s.starts[i].name == n;
        assert i in r.inFlight;
      }
    }
  }

  lemma ArmExclusive(s: State, a: Armed)
    requires Exclusive(s)
    ensures Exclusive(Arm(s, a))
  {
  }

  lemma AddExclusive(s: State, task: Task, now: int)
    requires Exclusive(s)
    ensures Exclusive(AfterAdd(s, task, now))
  {
    hide Exclusive, Ticked, Arm;
    TickedExclusive(s, task.name, now);
    ArmExclusive(s, Once(task, now + task.delay));
    ArmExclusive(Ticked(s, task.name, now), Every(task, now + task.interval));
  }

  lemma FireExclusive(s: State, id: TimerId, now: int)
    requires Exclusive(s) && id in s.armed
    ensures Exclusive(AfterFire(s, id, now))
  {
    var task := s.armed[id].task;
    var again := Every(task, now + task.interval);
    if s.armed[id].Every? {
      assert Exclusive(s.(armed := s.armed[id := again]));
      TickedExclusive(s.(armed := s.armed[id := again]), task.name, now);
    } else {
      var fired := s.(armed := s.armed - {id});
      assert Exclusive(fired);
      TickedExclusive(fired, task.name, now);
      ArmExclusive(Ticked(fired, task.name, now), again);
    }
    hide Ticked, Arm, Exclusive;
  }

  lemma StepExclusive(s: State, e: Event, now: int)
    requires Exclusive(s)
    ensures Exclusive(After(s, e, now))
  {
    hide Exclusive, AfterAdd, AfterSettle, AfterStop;
    match e
    case Add(task) => AddExclusive(s, task, now);
    case Fire(id) =>
      if id in s.armed {
        FireExclusive(s, id, now);
      }
    case Settle(run) => SettleExclusive(s, run);
    case Stop =>
      StopExclusive(s);
  }

  lemma StopExclusive(s: State)
    requires Exclusive(s)
    ensures Exclusive(AfterStop(s))
  {
    assert s.armed.Keys <= Ids(s.timers);
  }

  /** In every state of every run, at most one run of each name is in flight, and `stop` would leave
      no timer armed. */
  lemma {:induction false} NeverOverlaps(es: seq<Timed>)
    ensures Exclusive(Run(IDLE, es))
    ensures AfterStop(Run(IDLE, es)).armed == map[]
  {
    if es != [] {
      var e := es[|es| - 1];
      NeverOverlaps(es[..|es| - 1]);
      StepExclusive(Run(IDLE, es[..|es| - 1]), e.event, e.now);
      hide After, Exclusive;
    }
    var s := Run(IDLE, es);
    assert Exclusive(s);
    assert s.armed.Keys <= Ids(s.timers);
    assert s.armed - Ids(s.timers) == map[];
  }

  /** Once stopped, nothing is ever started again, whatever fires or is added later. */
  lemma {:induction false} NothingStartsAfterStop(s: State, es: seq<Timed>)
    requires s.stopped
    ensures Run(s, es).stopped && Run(s, es).starts == s.starts
    ensures Run(s, es).inFlight <= s.inFlight
  {
    if es != [] {
      NothingStartsAfterStop(s, es[..|es| - 1]);
    }
  }

  /** A tick is dropped only because the previous run of that name is still in flight, or after a stop. */
  lemma TickDroppedIff(es: seq<Timed>, name: string, now: int)
    ensures var s := Run(IDLE, es);
            Ticked(s, name, now).starts == s.starts <==>
            s.stopped || exists i :: i in s.inFlight && i < |s.starts| && s.starts[i].name == name
  {
    NeverOverlaps(es);
    hide Run;
  }
}
