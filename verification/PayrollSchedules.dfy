/** The worker's payroll loop over a tenant's schedules: each tick triggers the due ones in order
    of their next run and stops at the first that throws. */
module PayrollSchedules {
  import opened Cadence

  type Id = string

  const HOUR: int := 3_600_000
  const FAILURE_BACKOFF: int := HOUR

  function Hours(n: int): int { n * 3_600_000 }

  datatype Schedule = Schedule(cadence: Cadence, nextRunAt: int, active: bool)
  type Schedules = map<Id, Schedule>

  /** How one execution ends, as far as the schedule row and the caller can tell. `Unsaved` is any
      throw that leaves the row as it was: before the chain (no binding, malformed salary), or in a
      database write after it. `Unaudited` is the throw of the audit write, which comes after the row
      was moved on. `Simulated` is a dry run. */
  datatype Attempt =
    | Settled
    | Unaudited
    | ChainFailed(at: int)
    | Unsaved
    | Simulated

  /** The execution returns to the worker, which goes on to the next schedule. */
  predicate Returns(a: Attempt) { a.Settled? || a.Simulated? }

  /** The execution moves its row on. */
  predicate Advances(a: Attempt) { a.Settled? || a.Unaudited? }

  function MovedOn(row: Schedule): Schedule {
    if row.cadence.OneOff? then row.(active := false) else row.(nextRunAt := Advance(row.nextRunAt, row.cadence))
  }

  /** What an execution leaves in the row of its schedule. */
  function RowAfter(row: Schedule, a: Attempt): Schedule {
    match a
    case Settled => MovedOn(row)
    case Unaudited => MovedOn(row)
    case ChainFailed(at) => row.(nextRunAt := at + FAILURE_BACKOFF)
    case Unsaved => row
    case Simulated => row
  }

  /** PayrollService.executeRun on the schedules; the flag says whether it returned. */
  function AfterExecute(s: Schedules, id: Id, a: Attempt): (Schedules, bool) {
    if id !in s then (s, false) else (s[id := RowAfter(s[id], a)], Returns(a))
  }

  /** The row that is stored after the chain call: backed off, ended, or moved on by its cadence. */
  method SavedRow(row: Schedule, a: Attempt) returns (r: Schedule)
    requires a.ChainFailed? || Advances(a)
    ensures r == RowAfter(row, a)
  {
    if a.ChainFailed? {
      return row.(nextRunAt := a.at + FAILURE_BACKOFF);
    }
    if row.cadence.OneOff? {
      return row.(active := false);
    }
    var next := AdvanceCadence(row.nextRunAt, row.cadence);
    r := row.(nextRunAt := next);
  }

  datatype Entry = Entry(id: Id, attempt: Attempt)

  /** Executes `due` in order up to the first throw; returns the entries of what was tried. */
  function AfterDue(s: Schedules, due: seq<Id>, env: Id -> Attempt): (Schedules, seq<Entry>) {
    if due == [] then (s, [])
    else
      var (s1, returned) := AfterExecute(s, due[0], env(due[0]));
      var first := Entry(due[0], env(due[0]));
      if !returned then (s1, [first])
      else
        var (s2, others) := AfterDue(s1, due[1..], env);
        (s2, [first] + others)
  }

  /** A listing of the obligations: every active schedule once, sorted by next run. */
  ghost predicate Listing(s: Schedules, order: seq<Id>) {
    && (forall i :: 0 <= i < |order| ==> order[i] in s && s[order[i]].active)
    && (forall id :: id in s && s[id].active ==> id in order)
    && (forall i, j :: 0 <= i < j < |order| ==>
          order[i] != order[j] && s[order[i]].nextRunAt <= s[order[j]].nextRunAt)
  }

  function Due(s: Schedules, order: seq<Id>, now: int): (due: seq<Id>)
    ensures forall id :: id in due <==> id in order && id in s && s[id].nextRunAt <= now
  {
    if order == [] then []
    else
      assert order == [order[0]] + order[1..];
      (if order[0] in s && s[order[0]].nextRunAt <= now then [order[0]] else []) + Due(s, order[1..], now)
  }

  datatype Tick = Tick(now: int, order: seq<Id>, env: Id -> Attempt)

  /** The clock does not run backwards, and the listing is one the database may give. */
  ghost predicate ValidTick(s: Schedules, t: Tick) {
    && Listing(s, t.order)
    && forall id :: t.env(id).ChainFailed? ==> t.env(id).at >= t.now
  }

  function AfterTick(s: Schedules, t: Tick): (Schedules, seq<Entry>)
  {
    AfterDue(s, Due(s, t.order, t.now), t.env)
  }

  // ---- One tick ----

  ghost predicate Tried(log: seq<Entry>, id: Id) {
    exists i :: 0 <= i < |log| && log[i].id == id
  }

  /** A listed order of due schedules: a sorted list without repeats. */
  ghost predicate DueList(s: Schedules, due: seq<Id>, now: int) {
    && (forall i :: 0 <= i < |due| ==> due[i] in s && s[due[i]].active && s[due[i]].nextRunAt <= now)
    && (forall i, j :: 0 <= i < j < |due| ==>
          due[i] != due[j] && s[due[i]].nextRunAt <= s[due[j]].nextRunAt)
  }

  lemma {:induction false} DueIsSorted(s: Schedules, order: seq<Id>, now: int)
    requires forall i :: 0 <= i < |order| ==> order[i] in s && s[order[i]].active
    requires forall i, j :: 0 <= i < j < |order| ==>
               order[i] != order[j] && s[order[i]].nextRunAt <= s[order[j]].nextRunAt
    ensures DueList(s, Due(s, order, now), now)
  {
    if order != [] {
      DueIsSorted(s, order[1..], now);
      var rest := Due(s, order[1..], now);
      forall j | 0 <= j < |rest|
        ensures rest[j] != order[0] && s[order[0]].nextRunAt <= s[rest[j]].nextRunAt
      {
        assert rest[j] in order[1..];
        var k :| 0 <= k < |order[1..]| && order[1..][k] == rest[j];
        assert order[k + 1] == rest[j];
      }
    }
  }

  lemma ExecuteOther(s: Schedules, id: Id, a: Attempt)
    ensures var (r, _) := AfterExecute(s, id, a);
            r.Keys == s.Keys && forall y :: y in s && y != id ==> r[y] == s[y]
  {
  }

  lemma DueListTail(s: Schedules, due: seq<Id>, now: int, r: Schedules)
    requires due != [] && DueList(s, due, now)
    requires r.Keys == s.Keys && forall y :: y in s && y != due[0] ==> r[y] == s[y]
    ensures DueList(r, due[1..], now)
  {
    assert forall i :: 0 <= i < |due[1..]| ==> due[1..][i] == due[i + 1];
  }

  /** What an execution may do to its row: never earlier, never reactivated. */
  lemma ExecuteForward(s: Schedules, id: Id, a: Attempt, now: int)
    requires id in s && s[id].nextRunAt <= now && (a.ChainFailed? ==> a.at >= now)
    ensures var (r, _) := AfterExecute(s, id, a);
            && s[id].nextRunAt <= r[id].nextRunAt && (r[id].active ==> s[id].active)
            && r[id].cadence == s[id].cadence
  {
    if !s[id].cadence.OneOff? {
      AdvanceForward(s[id].nextRunAt, s[id].cadence);
    }
    hide Advance;
  }

  ghost predicate Forward(s: Schedules, r: Schedules) {
    && r.Keys == s.Keys
    && forall y :: y in s ==>
         && s[y].nextRunAt <= r[y].nextRunAt && (r[y].active ==> s[y].active)
         && r[y].cadence == s[y].cadence
  }

  lemma TriedCons(first: Entry, others: seq<Entry>, y: Id)
    ensures Tried([first] + others, y) <==> first.id == y || Tried(others, y)
  {
    if Tried([first] + others, y) {
      var i :| 0 <= i < |[first] + others| && ([first] + others)[i].id == y;
      assert i > 0 ==> others[i - 1].id == y;
    }
    if first.id == y {
      assert ([first] + others)[0].id == y;
    }
    if Tried(others, y) {
      var i :| 0 <= i < |others| && others[i].id == y;
      assert ([first] + others)[i + 1].id == y;
    }
  }

  lemma ForwardStep(s: Schedules, id: Id, a: Attempt, now: int)
    requires id in s && s[id].nextRunAt <= now && (a.ChainFailed? ==> a.at >= now)
    ensures Forward(s, AfterExecute(s, id, a).0)
  {
    hide AfterExecute;
    ExecuteOther(s, id, a);
    ExecuteForward(s, id, a, now);
    var r := AfterExecute(s, id, a).0;
    assert forall y :: y in s && y != id ==> r[y] == s[y];
  }

  lemma ForwardTwice(a: Schedules, b: Schedules, c: Schedules)
    requires Forward(a, b) && Forward(b, c)
    ensures Forward(a, c)
  {
  }

  /** A tick only moves rows forward, leaves untried rows alone, and tries the due schedules in
      order, each at most once. */
  lemma {:induction false} DueForward(s: Schedules, due: seq<Id>, env: Id -> Attempt, now: int)
    requires DueList(s, due, now)
    requires forall id :: env(id).ChainFailed? ==> env(id).at >= now
    ensures var (r, log) := AfterDue(s, due, env);
            && Forward(s, r)
            && |log| <= |due| && (forall i :: 0 <= i < |log| ==> log[i] == Entry(due[i], env(due[i])))
            && (forall y :: y in s && !Tried(log, y) ==> r[y] == s[y])
  {
    if due != [] {
      var (s1, returned) := AfterExecute(s, due[0], env(due[0]));
      var first := Entry(due[0], env(due[0]));
      ExecuteOther(s, due[0], env(due[0]));
      ForwardStep(s, due[0], env(due[0]), now);
      DueListTail(s, due, now, s1);
      LogHead(s, due, env);
      hide AfterExecute, Tried, DueList;
      var others := if returned then AfterDue(s1, due[1..], env).1 else [];
      if returned {
        DueForward(s1, due[1..], env, now);
        ForwardTwice(s, s1, AfterDue(s1, due[1..], env).0);
      }
      forall y | y in s && !Tried([first] + others, y)
        ensures AfterDue(s, due, env).0[y] == s[y]
      {
        TriedCons(first, others, y);
      }
    }
  }

  lemma TickForward(s: Schedules, t: Tick)
    requires ValidTick(s, t)
    ensures var (r, log) := AfterTick(s, t);
            && Forward(s, r)
            && |log| <= |Due(s, t.order, t.now)|
            && (forall i :: 0 <= i < |log| ==>
                  log[i] == Entry(Due(s, t.order, t.now)[i], t.env(Due(s, t.order, t.now)[i])))
            && (forall y :: y in s && !Tried(log, y) ==> r[y] == s[y])
    ensures DueList(s, Due(s, t.order, t.now), t.now)
  {
    DueIsSorted(s, t.order, t.now);
    DueForward(s, Due(s, t.order, t.now), t.env, t.now);
  }

  // ---- Who is tried ----

  lemma ExecuteReturns(s: Schedules, id: Id, a: Attempt)
    requires id in s
    ensures AfterExecute(s, id, a).1 <==> Returns(a)
  {
  }

  lemma LogHead(s: Schedules, due: seq<Id>, env: Id -> Attempt)
    requires due != []
    ensures var (s1, returned) := AfterExecute(s, due[0], env(due[0]));
            AfterDue(s, due, env).1 ==
            [Entry(due[0], env(due[0]))] + (if returned then AfterDue(s1, due[1..], env).1 else [])
  {
    hide AfterExecute;
  }

  /** The k-th due schedule is tried exactly when every one before it returns. */
  lemma {:induction false} DueTriedIff(s: Schedules, due: seq<Id>, env: Id -> Attempt, now: int, k: nat)
    requires DueList(s, due, now) && k < |due|
    ensures Tried(AfterDue(s, due, env).1, due[k]) <==> forall j :: 0 <= j < k ==> Returns(env(due[j]))
  {
    var first := Entry(due[0], env(due[0]));
    var (s1, returned) := AfterExecute(s, due[0], env(due[0]));
    ExecuteReturns(s, due[0], env(due[0]));
    ExecuteOther(s, due[0], env(due[0]));
    DueListTail(s, due, now, s1);
    assert k > 0 ==> due[k] != due[0];
    LogHead(s, due, env);
    hide AfterExecute, AfterDue, DueList, Tried, Returns;
    TriedCons(first, if returned then AfterDue(s1, due[1..], env).1 else [], due[k]);
    if k > 0 {
      if returned {
        DueTriedIff(s1, due[1..], env, now, k - 1);
        ShiftReturns(due, env, k);
      } else {
        NothingTried(due[k]);
      }
    }
  }

  lemma NothingTried(x: Id)
    ensures !Tried([], x)
  {
  }

  lemma ShiftReturns(due: seq<Id>, env: Id -> Attempt, k: nat)
    requires 0 < k < |due| && Returns(env(due[0]))
    ensures (forall j :: 0 <= j < k - 1 ==> Returns(env(due[1..][j]))) <==> (forall j :: 0 <= j < k ==> Returns(env(due[j])))
  {
    assert forall j :: 0 <= j < k - 1 ==> due[1..][j] == due[j + 1];
    assert forall j :: 0 < j < k ==> due[j] == due[1..][j - 1];
  }

  ghost predicate InOrder(s: Schedules, order: seq<Id>) {
    && (forall i :: 0 <= i < |order| ==> order[i] in s)
    && (forall i, j :: 0 <= i < j < |order| ==> s[order[i]].nextRunAt <= s[order[j]].nextRunAt)
  }

  lemma InOrderTail(s: Schedules, order: seq<Id>)
    requires order != [] && InOrder(s, order)
    ensures InOrder(s, order[1..])
    ensures order[0] in s && forall k :: 0 <= k < |order| ==> order[k] in s && s[order[0]].nextRunAt <= s[order[k]].nextRunAt
  {
    assert forall i :: 0 <= i < |order[1..]| ==> order[1..][i] == order[i + 1];
  }

  lemma DueHead(s: Schedules, order: seq<Id>, now: int)
    requires order != [] && order[0] in s && s[order[0]].nextRunAt <= now
    ensures Due(s, order, now) == [order[0]] + Due(s, order[1..], now)
  {
  }

  /** What is due is a prefix of the listing. */
  lemma {:induction false} DueIsPrefix(s: Schedules, order: seq<Id>, now: int, k: nat)
    requires InOrder(s, order) && k < |order| && order[k] in s && s[order[k]].nextRunAt <= now
    ensures order[..k + 1] <= Due(s, order, now)
  {
    hide Due, InOrder;
    InOrderTail(s, order);
    DueHead(s, order, now);
    if k > 0 {
      DueIsPrefix(s, order[1..], now, k - 1);
      assert order[..k + 1] == [order[0]] + order[1..][..k];
    }
  }

  lemma LaterNotTried(s: Schedules, t: Tick, x: Id)
    requires ValidTick(s, t) && x in s && s[x].nextRunAt > t.now
    ensures !Tried(AfterTick(s, t).1, x)
  {
    TickForward(s, t);
    hide AfterTick, Due, ValidTick;
    var log, due := AfterTick(s, t).1, Due(s, t.order, t.now);
    assert forall i :: 0 <= i < |log| ==> log[i].id == due[i] && s[due[i]].nextRunAt <= t.now;
  }

  /** In one tick, exactly: the k-th listed schedule is tried if and only if it is due and every
      schedule listed before it, due as well, returns. */
  lemma TriedIff(s: Schedules, t: Tick, k: nat)
    requires ValidTick(s, t) && k < |t.order|
    ensures Tried(AfterTick(s, t).1, t.order[k]) <==>
            s[t.order[k]].nextRunAt <= t.now && forall j :: 0 <= j < k ==> Returns(t.env(t.order[j]))
  {
    if s[t.order[k]].nextRunAt > t.now {
      LaterNotTried(s, t, t.order[k]);
    } else {
      var due := Due(s, t.order, t.now);
      DueIsSorted(s, t.order, t.now);
      DueIsPrefix(s, t.order, t.now, k);
      hide Due, AfterDue, ValidTick, DueList, Tried, Returns;
      assert forall j :: 0 <= j <= k ==> due[j] == t.order[..k + 1][j] == t.order[j];
      DueTriedIff(s, due, t.env, t.now, k);
    }
  }
}
