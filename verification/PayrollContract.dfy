/** The on-chain payroll contract: an admin, an allowlist of operators, the runs already executed
    and the events they left. */
module PayrollContract {
  import opened Wrappers

  type Address = string

  const I128_MAX: int := 0x7FFF_FFFF_FFFF_FFFF_FFFF_FFFF_FFFF_FFFF
  type I128 = x: int | -I128_MAX - 1 <= x <= I128_MAX
  type U32 = x: int | 0 <= x < 0x1_0000_0000

  const AGENT := "agent"
  const OPERATOR := "operator"

  /** The terms of a run as submitted. */
  datatype Terms = Terms(tenant: string, runId: string, total: I128, asset: string, employeeCount: U32, lcpHash: string)

  datatype RunEvent = RunEvent(terms: Terms, trigger: string)

  datatype Error =
    | NotInitialized | AlreadyInitialized | NotAuthorized | AlreadyExecuted | InvalidAmount | InvalidEmployeeCount

  /** A call returns, or traps in the host for want of an authorization. */
  datatype Call = Returned(result: Result<(), Error>) | Trapped {
    predicate Succeeded() { Returned? && result.Ok? }
  }

  datatype Store = Store(admin: Option<Address>, operators: set<Address>, runs: set<string>, events: seq<RunEvent>)

  const EMPTY := Store(None, {}, {}, [])
  const DONE: Call := Returned(Ok(()))

  /** A call with the addresses that authorized the transaction. */
  datatype Command =
    | Initialize(admin: Address)
    | AddOperator(signers: set<Address>, operator: Address)
    | RemoveOperator(signers: set<Address>, operator: Address)
    | ExecuteRun(signers: set<Address>, caller: Address, terms: Terms)

  /** The label a caller is entitled to. */
  function Trigger(s: Store, caller: Address): Option<string> {
    if s.admin == Some(caller) then Some(AGENT)
    else if caller in s.operators then Some(OPERATOR)
    else None
  }

  function AfterExecute(s: Store, signers: set<Address>, caller: Address, t: Terms): (Store, Call) {
    if caller !in signers then (s, Trapped)
    else if s.admin.None? then (s, Returned(Err(NotInitialized)))
    else if Trigger(s, caller).None? then (s, Returned(Err(NotAuthorized)))
    else if t.total <= 0 then (s, Returned(Err(InvalidAmount)))
    else if t.employeeCount == 0 then (s, Returned(Err(InvalidEmployeeCount)))
    else if t.runId in s.runs then (s, Returned(Err(AlreadyExecuted)))
    else
      (s.(runs := s.runs + {t.runId}, events := s.events + [RunEvent(t, Trigger(s, caller).value)]), DONE)
  }

  function After(s: Store, c: Command): (Store, Call) {
    match c
    case Initialize(admin) =>
      if s.admin.Some? then (s, Returned(Err(AlreadyInitialized))) else (s.(admin := Some(admin)), DONE)
    case AddOperator(signers, operator) =>
      if s.admin.None? then (s, Returned(Err(NotInitialized)))
      else if s.admin.value !in signers then (s, Trapped)
      else (s.(operators := s.operators + {operator}), DONE)
    case RemoveOperator(signers, operator) =>
      if s.admin.None? then (s, Returned(Err(NotInitialized)))
      else if s.admin.value !in signers then (s, Trapped)
      else (s.(operators := s.operators - {operator}), DONE)
    case ExecuteRun(signers, caller, terms) => AfterExecute(s, signers, caller, terms)
  }

  class Contract {
    var admin: Option<Address>
    var operators: map<Address, bool>
    var runs: map<string, bool>
    var events: seq<RunEvent>

    ghost function View(): Store
      reads this
    {
      Store(admin, (set a | a in operators && operators[a]), runs.Keys, events)
    }

    constructor ()
      ensures View() == EMPTY
    {
      admin, operators, runs, events := None, map[], map[], [];
    }

    method DoInitialize(newAdmin: Address) returns (r: Call)
      modifies this
      ensures (View(), r) == After(old(View()), Initialize(newAdmin))
    {
      if admin.Some? {
        return Returned(Err(AlreadyInitialized));
      }
      admin := Some(newAdmin);
      r := DONE;
    }

    method DoAddOperator(signers: set<Address>, operator: Address) returns (r: Call)
      modifies this
      ensures (View(), r) == After(old(View()), AddOperator(signers, operator))
    {
      if admin.None? {
        return Returned(Err(NotInitialized));
      }
      if admin.value !in signers {
        return Trapped;
      }
      operators := operators[operator := true];
      assert View().operators == old(View().operators) + {operator};
      r := DONE;
    }

    method DoRemoveOperator(signers: set<Address>, operator: Address) returns (r: Call)
      modifies this
      ensures (View(), r) == After(old(View()), RemoveOperator(signers, operator))
    {
      if admin.None? {
        return Returned(Err(NotInitialized));
      }
      if admin.value !in signers {
        return Trapped;
      }
      operators := operators - {operator};
      assert View().operators == old(View().operators) - {operator};
      r := DONE;
    }

    method DoExecuteRun(signers: set<Address>, caller: Address, t: Terms) returns (r: Call)
      modifies this
      ensures (View(), r) == After(old(View()), ExecuteRun(signers, caller, t))
    {
      if caller !in signers {
        return Trapped;
      }
      if admin.None? {
        return Returned(Err(NotInitialized));
      }
      var trigger;
      if caller == admin.value {
        trigger := AGENT;
      } else if caller in operators && operators[caller] {
        trigger := OPERATOR;
      } else {
        return Returned(Err(NotAuthorized));
      }
      if t.total <= 0 {
        return Returned(Err(InvalidAmount));
      }
      if t.employeeCount == 0 {
        return Returned(Err(InvalidEmployeeCount));
      }
      if t.runId in runs {
        return Returned(Err(AlreadyExecuted));
      }
      runs := runs[t.runId := true];
      events := events + [RunEvent(t, trigger)];
      assert View().runs == old(View().runs) + {t.runId};
      r := DONE;
    }

    function RunExecuted(runId: string): (b: bool)
      reads this
      ensures b <==> runId in View().runs
    {
      runId in runs
    }

    function IsOperator(who: Address): (b: bool)
      reads this
      ensures b <==> who in View().operators
    {
      who in operators && operators[who]
    }
  }

  // ---- Whole histories ----

  function Run(cs: seq<Command>): Store {
    if cs == [] then EMPTY else After(Run(cs[..|cs| - 1]), cs[|cs| - 1]).0
  }

  /** The run ids with an event are pairwise different and are exactly the executed ones. */
  ghost predicate OncePerRun(s: Store) {
    && (forall i, j :: 0 <= i < j < |s.events| ==> s.events[i].terms.runId != s.events[j].terms.runId)
    && (forall id :: id in s.runs <==> exists i :: 0 <= i < |s.events| && s.events[i].terms.runId == id)
  }

  lemma StepOncePerRun(s: Store, c: Command)
    requires OncePerRun(s)
    ensures OncePerRun(After(s, c).0)
  {
    var r := After(s, c).0;
    if r.events != s.events {
      forall id
        ensures id in r.runs <==> exists i :: 0 <= i < |r.events| && r.events[i].terms.runId == id
      {
        if id in s.runs {
          var i :| 0 <= i < |s.events| && s.events[i].terms.runId == id;
          assert r.events[i].terms.runId == id;
        } else if id in r.runs {
          assert r.events[|s.events|].terms.runId == id;
        }
      }
    }
  }

  lemma {:induction false} NoRunTwice(cs: seq<Command>)
    ensures OncePerRun(Run(cs))
  {
    if cs != [] {
      NoRunTwice(cs[..|cs| - 1]);
      StepOncePerRun(Run(cs[..|cs| - 1]), cs[|cs| - 1]);
    }
  }

  /** The j-th command of a history left its i-th event: it was signed by its caller, who was the
      admin or on the allowlist just then, and its terms are positive. */
  ghost predicate Caused(cs: seq<Command>, j: int, i: int) {
    && 0 <= j < |cs| && cs[j].ExecuteRun? && cs[j].caller in cs[j].signers
    && var before := Run(cs[..j]);
       && i == |before.events| < |Run(cs).events|
       && before.admin.Some?
       && cs[j].terms.total > 0 && cs[j].terms.employeeCount > 0
       && cs[j].terms.runId !in before.runs
       && Run(cs).events[i].terms == cs[j].terms
       && Run(cs).events[i].trigger ==
          (if cs[j].caller == before.admin.value then AGENT else OPERATOR)
       && (cs[j].caller == before.admin.value || cs[j].caller in before.operators)
  }

  lemma EventsGrow(s: Store, c: Command)
    ensures var r := After(s, c).0;
            s.events <= r.events && |r.events| <= |s.events| + 1
  {
  }

  lemma CauseKept(cs: seq<Command>, j: int, i: int)
    requires cs != [] && Caused(cs[..|cs| - 1], j, i)
    ensures Caused(cs, j, i)
  {
    var init := cs[..|cs| - 1];
    assert init[..j] == cs[..j];
    EventsGrow(Run(init), cs[|cs| - 1]);
    hide After;
  }

  /** Every event of every history was caused by one command of it. */
  lemma {:induction false} EveryEventCaused(cs: seq<Command>, i: nat) returns (j: nat)
    requires i < |Run(cs).events|
    ensures Caused(cs, j, i)
  {
    var init, last := cs[..|cs| - 1], cs[|cs| - 1];
    EventsGrow(Run(init), last);
    if i < |Run(init).events| {
      j := EveryEventCaused(init, i);
      CauseKept(cs, j, i);
    } else {
      j := |cs| - 1;
    }
  }

  /** When a run is accepted, and what acceptance changes. */
  lemma ExecuteSucceedsIff(cs: seq<Command>, c: Command)
    requires c.ExecuteRun?
    ensures var s := Run(cs);
            After(s, c).1.Succeeded() <==>
            && c.caller in c.signers && s.admin.Some?
            && (c.caller == s.admin.value || c.caller in s.operators)
            && c.terms.total > 0 && c.terms.employeeCount > 0
            && forall i :: 0 <= i < |s.events| ==> s.events[i].terms.runId != c.terms.runId
    ensures var (r, call) := After(Run(cs), c);
            && (!call.Succeeded() ==> r == Run(cs))
            && (call.Succeeded() ==> r.admin == Run(cs).admin && r.operators == Run(cs).operators)
  {
    NoRunTwice(cs);
  }

  /** The admin is whoever the first initialization named. */
  lemma {:induction false} AdminIsFirst(cs: seq<Command>, a: Address)
    ensures Run(cs).admin == Some(a) <==>
            exists j :: 0 <= j < |cs| && cs[j] == Initialize(a) && forall k :: 0 <= k < j ==> !cs[k].Initialize?
    ensures Run(cs).admin.None? <==> forall k :: 0 <= k < |cs| ==> !cs[k].Initialize?
  {
    if cs != [] {
      var init := cs[..|cs| - 1];
      AdminIsFirst(init, a);
      assert forall k :: 0 <= k < |init| ==> init[k] == cs[k];
    }
  }

  /** The j-th command put `who` on the allowlist, with the admin's authorization. */
  ghost predicate Added(cs: seq<Command>, j: int, who: Address) {
    && 0 <= j < |cs| && cs[j].AddOperator? && cs[j].operator == who
    && Run(cs[..j]).admin.Some? && Run(cs[..j]).admin.value in cs[j].signers
  }

  ghost predicate Removed(cs: seq<Command>, j: int, who: Address) {
    && 0 <= j < |cs| && cs[j].RemoveOperator? && cs[j].operator == who
    && Run(cs[..j]).admin.Some? && Run(cs[..j]).admin.value in cs[j].signers
  }

  lemma MembershipKept(cs: seq<Command>, j: int, who: Address)
    requires 0 <= j < |cs| - 1
    ensures Added(cs[..|cs| - 1], j, who) <==> Added(cs, j, who)
    ensures Removed(cs[..|cs| - 1], j, who) <==> Removed(cs, j, who)
  {
    assert cs[..|cs| - 1][..j] == cs[..j];
  }

  /** The operators are those the admin added and has not removed since. */
  lemma {:induction false} OperatorIff(cs: seq<Command>, who: Address)
    ensures who in Run(cs).operators <==>
            exists j :: Added(cs, j, who) && forall k :: j < k ==> !Removed(cs, k, who)
  {
    if cs != [] {
      var init, n := cs[..|cs| - 1], |cs| - 1;
      OperatorIff(init, who);
      forall j | 0 <= j < n
        ensures Added(init, j, who) <==> Added(cs, j, who)
        ensures Removed(init, j, who) <==> Removed(cs, j, who)
      {
        MembershipKept(cs, j, who);
      }
      if who in Run(cs).operators {
        if Added(cs, n, who) {
          assert forall k :: n < k ==> !Removed(cs, k, who);
        } else {
          assert who in Run(init).operators;
          assert !Removed(cs, n, who);
          var j :| Added(init, j, who) && forall k :: j < k ==> !Removed(init, k, who);
          forall k | j < k
            ensures !Removed(cs, k, who)
          {
            assert k < n ==> !Removed(init, k, who);
          }
          assert Added(cs, j, who);
        }
      }
      if j :| Added(cs, j, who) && forall k :: j < k ==> !Removed(cs, k, who) {
        if j < n {
          assert Added(init, j, who);
          assert forall k :: j < k && Removed(init, k, who) ==> Removed(cs, k, who);
          assert !Removed(cs, n, who);
        }
      }
    }
  }

  /** Which answer a refused run gets: the first that applies, in this order. */
  lemma RefusalSays(s: Store, c: Command)
    requires c.ExecuteRun?
    ensures var call := After(s, c).1;
            var operator := s.admin == Some(c.caller) || c.caller in s.operators;
            && (call.Trapped? <==> c.caller !in c.signers)
            && (c.caller in c.signers ==>
                  call.result == if s.admin.None? then Err(NotInitialized)
                                 else if !operator then Err(NotAuthorized)
                                 else if c.terms.total <= 0 then Err(InvalidAmount)
                                 else if c.terms.employeeCount == 0 then Err(InvalidEmployeeCount)
                                 else if c.terms.runId in s.runs then Err(AlreadyExecuted)
                                 else Ok(()))
  {
  }
}
