/** The on-chain treasury ledger: balances per tenant, asset and strategy symbol, and an event
    for every flow. */
module TreasuryContract {
  import opened Wrappers

  type Address = string
  type Symbol = string

  datatype BalanceKey = BalanceKey(tenant: string, asset: Symbol, strategy: Symbol)

  /** The published event; `direction` is its second topic. */
  datatype FlowEvent = FlowEvent(direction: Symbol, key: BalanceKey, amount: int, lcpHash: string)

  datatype Error = NotInitialized | AlreadyInitialized | InvalidDirection | InsufficientBalance | InvalidAmount

  /** A call returns, with a value or a contract error, or traps in the host: a missing
      authorization or an i128 overflow (the release profile keeps overflow checks on). */
  datatype Call<T> = Returned(result: Result<T, Error>) | Trapped {
    predicate Succeeded() { Returned? && result.Ok? }
  }

  datatype Ledger = Ledger(admin: Option<Address>, balances: map<BalanceKey, int>, events: seq<FlowEvent>)

  const I128_MAX: int := 0x7FFF_FFFF_FFFF_FFFF_FFFF_FFFF_FFFF_FFFF
  type I128 = x: int | -I128_MAX - 1 <= x <= I128_MAX

  const EMPTY := Ledger(None, map[], [])

  function Balance(l: Ledger, key: BalanceKey): int {
    if key in l.balances then l.balances[key] else 0
  }

  function AfterInitialize(l: Ledger, admin: Address): (Ledger, Call<()>) {
    if l.admin.Some? then (l, Returned(Err(AlreadyInitialized)))
    else (l.(admin := Some(admin)), Returned(Ok(())))
  }

  /** `signers` are the addresses that authorized the transaction. */
  function AfterRecordFlow(l: Ledger, signers: set<Address>, direction: Symbol, key: BalanceKey, amount: I128,
                      lcpHash: string): (Ledger, Call<int>)
  {
    if l.admin.None? then (l, Returned(Err(NotInitialized)))
    else if l.admin.value !in signers then (l, Trapped)
    else if amount <= 0 then (l, Returned(Err(InvalidAmount)))
    else if direction != "deposit" && direction != "withdraw" then (l, Returned(Err(InvalidDirection)))
    else
      var current := Balance(l, key);
      if direction == "withdraw" && current < amount then (l, Returned(Err(InsufficientBalance)))
      else
        var next := if direction == "deposit" then current + amount else current - amount;
        if next > I128_MAX then (l, Trapped)
        else
          (Ledger(l.admin, l.balances[key := next], l.events + [FlowEvent(direction, key, amount, lcpHash)]),
           Returned(Ok(next)))
  }

  class Contract {
    var admin: Option<Address>
    var balances: map<BalanceKey, int>
    var events: seq<FlowEvent>

    function View(): Ledger
      reads this
    {
      Ledger(admin, balances, events)
    }

    constructor ()
      ensures View() == EMPTY
    {
      admin, balances, events := None, map[], [];
    }

    method Initialize(newAdmin: Address) returns (r: Call<()>)
      modifies this
      ensures (View(), r) == AfterInitialize(old(View()), newAdmin)
    {
      if admin.Some? {
        return Returned(Err(AlreadyInitialized));
      }
      admin := Some(newAdmin);
      r := Returned(Ok(()));
    }

    method RecordFlow(signers: set<Address>, direction: Symbol, key: BalanceKey, amount: I128, lcpHash: string)
      returns (r: Call<int>)
      modifies this
      ensures (View(), r) == AfterRecordFlow(old(View()), signers, direction, key, amount, lcpHash)
    {
      if admin.None? {
        return Returned(Err(NotInitialized));
      }
      if admin.value !in signers {
        return Trapped;
      }
      if amount <= 0 {
        return Returned(Err(InvalidAmount));
      }
      var isDeposit, isWithdraw := direction == "deposit", direction == "withdraw";
      if !isDeposit && !isWithdraw {
        return Returned(Err(InvalidDirection));
      }
      var current := if key in balances then balances[key] else 0;
      var next;
      if isDeposit {
        next := current + amount;
      } else {
        if current < amount {
          return Returned(Err(InsufficientBalance));
        }
        next := current - amount;
      }
      if next > I128_MAX {
        return Trapped;
      }
      balances := balances[key := next];
      events := events + [FlowEvent(direction, key, amount, lcpHash)];
      r := Returned(Ok(next));
    }
  }

  // ---- Whole histories ----

  datatype Command =
    | DoInitialize(admin: Address)
    | DoRecord(signers: set<Address>, direction: Symbol, key: BalanceKey, amount: I128, lcpHash: string)

  function Step(l: Ledger, c: Command): Ledger {
    match c
    case DoInitialize(admin) => AfterInitialize(l, admin).0
    case DoRecord(signers, direction, key, amount, lcpHash) =>
      AfterRecordFlow(l, signers, direction, key, amount, lcpHash).0
  }

  function Run(l: Ledger, cs: seq<Command>): Ledger {
    if cs == [] then l else Step(Run(l, cs[..|cs| - 1]), cs[|cs| - 1])
  }

  /** What the events say the balance is: deposits minus withdrawals. */
  function Replayed(events: seq<FlowEvent>, key: BalanceKey): int {
    if events == [] then 0
    else
      var e := events[|events| - 1];
      Replayed(events[..|events| - 1], key) +
      (if e.key != key then 0 else if e.direction == "deposit" then e.amount else -e.amount)
  }

  ghost predicate Audited(l: Ledger) {
    && (forall key :: Balance(l, key) == Replayed(l.events, key))
    && (forall key :: 0 <= Balance(l, key) <= I128_MAX)
    && (forall i :: 0 <= i < |l.events| ==>
          l.events[i].amount > 0 && (l.events[i].direction == "deposit" || l.events[i].direction == "withdraw"))
    && (l.admin.None? ==> l.events == [])
  }

  lemma StepKeepsAudited(l: Ledger, c: Command)
    requires Audited(l)
    ensures Audited(Step(l, c))
  {
    var r := Step(l, c);
    if r.events != l.events {
      var e := r.events[|r.events| - 1];
      assert r.events[..|r.events| - 1] == l.events;
      forall key
        ensures Balance(r, key) == Replayed(r.events, key) && 0 <= Balance(r, key) <= I128_MAX
      {
        assert Balance(l, key) == Replayed(l.events, key);
      }
    }
  }

  /** After any calls whatever, every balance is the replay of the event log, lies in
      [0, I128_MAX], and the log holds only positive deposits and withdrawals. */
  lemma {:induction false} LedgerIsItsEventLog(cs: seq<Command>)
    ensures Audited(Run(EMPTY, cs))
  {
    if cs != [] {
      LedgerIsItsEventLog(cs[..|cs| - 1]);
      StepKeepsAudited(Run(EMPTY, cs[..|cs| - 1]), cs[|cs| - 1]);
    }
  }

  /** A call that does not succeed changes nothing; one that does changes one balance by exactly
      its amount and appends one event. */
  lemma RecordFlowEffect(l: Ledger, signers: set<Address>, direction: Symbol, key: BalanceKey, amount: I128, lcpHash: string)
    ensures var (r, call) := AfterRecordFlow(l, signers, direction, key, amount, lcpHash);
            && (!call.Succeeded() ==> r == l)
            && (call.Succeeded() ==>
                  && call.result.value == Balance(r, key)
                  && Balance(r, key) == Balance(l, key) + (if direction == "deposit" then amount else -amount)
                  && (forall k :: k != key ==> Balance(r, k) == Balance(l, k))
                  && r.events == l.events + [FlowEvent(direction, key, amount, lcpHash)])
    ensures AfterRecordFlow(l, signers, direction, key, amount, lcpHash).1.Succeeded() <==>
            && l.admin.Some? && l.admin.value in signers && amount > 0
            && ((direction == "deposit" && Balance(l, key) + amount <= I128_MAX) ||
                (direction == "withdraw" && amount <= Balance(l, key) <= I128_MAX + amount))
  {
  }

  /** The admin is whoever the first initialization named. */
  lemma {:induction false} AdminIsFirst(cs: seq<Command>, a: Address)
    ensures Run(EMPTY, cs).admin == Some(a) <==>
            exists j :: 0 <= j < |cs| && cs[j] == DoInitialize(a) && forall k :: 0 <= k < j ==> !cs[k].DoInitialize?
    ensures Run(EMPTY, cs).admin.None? <==> forall k :: 0 <= k < |cs| ==> !cs[k].DoInitialize?
  {
    if cs != [] {
      var init := cs[..|cs| - 1];
      AdminIsFirst(init, a);
      assert forall k :: 0 <= k < |init| ==> init[k] == cs[k];
    }
  }
}
