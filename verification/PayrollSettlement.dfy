/** One payroll execution on the network: the payout first, then the record in the payroll contract,
    each with its own way to fail, and what the API makes of the outcome. */
module PayrollSettlement {
  import opened Wrappers
  import opened PayrollSchedules
  import PC = PayrollContract
  import PF = PayrollForecast

  /** `^G[A-Z2-7]{55}$`. */
  predicate IsStellar(destination: string) {
    && |destination| == 56 && destination[0] == 'G'
    && forall i :: 0 < i < 56 ==> 'A' <= destination[i] <= 'Z' || '2' <= destination[i] <= '7'
  }

  /** The lines that are paid out on the network. */
  function Payees(lines: seq<PF.Line>): seq<string> {
    if lines == [] then []
    else
      var last := lines[|lines| - 1].destination;
      Payees(lines[..|lines| - 1]) + if IsStellar(last) then [last] else []
  }

  /** `enabled`: the contract is configured; `paysOut`: so are the payout key and the issuer. The
      service account signs the record and is its caller. */
  datatype Config = Config(tenant: string, enabled: bool, paysOut: bool, service: PC.Address)

  /** One payout transaction: all payees of a run or none. */
  datatype Payment = Payment(runId: string, payees: seq<string>)

  datatype Chain = Chain(payments: seq<Payment>, contract: PC.Store)

  /** A transaction can fail, or land although its reply is lost; the caller sees an error either way. */
  datatype Fault = NoFault | PayoutFails | PayoutReplyLost | RecordFails | RecordReplyLost

  datatype Database = Stored | RunUpdateFails | ScheduleUpdateFails | AuditFails

  /** Everything that decides one execution. `refused` is any throw before the run is built or its row
      is stored (mainnet guard, no binding, database); `run` is missing when a salary is malformed;
      `runId` is drawn anew every time. */
  datatype Conditions = Conditions(refused: bool, run: Option<PF.Run>, dryRun: bool, runId: string, asset: string,
                                   lcpHash: string, fault: Fault, database: Database, at: int)

  predicate Pays(cfg: Config, run: PF.Run) { cfg.paysOut && Payees(run.lines) != [] }

  predicate Encodable(run: PF.Run) {
    -PC.I128_MAX - 1 <= run.totalBaseUnits <= PC.I128_MAX && |run.lines| < 0x1_0000_0000
  }

  function TermsOf(cfg: Config, run: PF.Run, x: Conditions): PC.Terms
    requires Encodable(run)
  {
    PC.Terms(cfg.tenant, x.runId, run.totalBaseUnits, x.asset, |run.lines|, x.lcpHash)
  }

  /** The second effect: execute_run. */
  function AfterRecord(c: Chain, cfg: Config, run: PF.Run, x: Conditions): (Chain, bool) {
    if x.fault.RecordFails? || !Encodable(run) then (c, false)
    else
      var (store, call) := PC.AfterExecute(c.contract, {cfg.service}, cfg.service, TermsOf(cfg, run, x));
      (c.(contract := store), call.Succeeded() && !x.fault.RecordReplyLost?)
  }

  /** SorobanGateway.executePayrollRun: the payout, if anyone is to be paid, and then the record. */
  function AfterPayrollRun(c: Chain, cfg: Config, run: PF.Run, x: Conditions): (Chain, bool) {
    if !cfg.enabled then (c, true)
    else if !Pays(cfg, run) then AfterRecord(c, cfg, run, x)
    else if x.fault.PayoutFails? then (c, false)
    else
      var paid := c.(payments := c.payments + [Payment(x.runId, Payees(run.lines))]);
      if x.fault.PayoutReplyLost? then (paid, false) else AfterRecord(paid, cfg, run, x)
  }

  /** PayrollService.executeRun: what it leaves on the chain, and how it ends. */
  function Executed(c: Chain, cfg: Config, x: Conditions): (Chain, Attempt) {
    if x.refused || x.run.None? then (c, Unsaved)
    else if x.dryRun then (c, Simulated)
    else
      var (after, ok) := AfterPayrollRun(c, cfg, x.run.value, x);
      (after,
       if x.database.RunUpdateFails? || x.database.ScheduleUpdateFails? then Unsaved
       else if !ok then ChainFailed(x.at)
       else if x.database.AuditFails? then Unaudited
       else Settled)
  }

  class Gateway {
    const cfg: Config
    const contract: PC.Contract
    var payments: seq<Payment>

    constructor (cfg: Config, contract: PC.Contract)
      ensures this.cfg == cfg && this.contract == contract && payments == []
    {
      this.cfg, this.contract, payments := cfg, contract, [];
    }

    ghost function View(): Chain
      reads this, contract
    {
      Chain(payments, contract.View())
    }

    /** The two effects in order; an error in either ends the call. */
    method ExecutePayrollRun(run: PF.Run, x: Conditions) returns (ok: bool)
      modifies this, contract
      ensures (View(), ok) == AfterPayrollRun(old(View()), cfg, run, x)
    {
      if !cfg.enabled {
        return true;
      }
      var payees := Payees(run.lines);
      if payees != [] && cfg.paysOut {
        if x.fault.PayoutFails? {
          return false;
        }
        payments := payments + [Payment(x.runId, payees)];
        if x.fault.PayoutReplyLost? {
          return false;
        }
      }
      if x.fault.RecordFails? || !Encodable(run) {
        return false;
      }
      var call := contract.DoExecuteRun({cfg.service}, cfg.service, TermsOf(cfg, run, x));
      ok := call.Succeeded() && !x.fault.RecordReplyLost?;
    }
  }

  class Service {
    const gateway: Gateway
    var schedules: Schedules

    constructor (gateway: Gateway, schedules: Schedules)
      ensures this.gateway == gateway && this.schedules == schedules
    {
      this.gateway, this.schedules := gateway, schedules;
    }

    /** executeRun: nothing happens for a schedule that does not exist; otherwise chain, run row,
        schedule row and audit, in that order, up to the first throw. */
    method ExecuteRun(id: Id, x: Conditions) returns (ok: bool)
      modifies this, gateway, gateway.contract
      ensures id !in old(schedules) ==>
                !ok && schedules == old(schedules) && gateway.View() == old(gateway.View())
      ensures id in old(schedules) ==>
                var (chain, attempt) := Executed(old(gateway.View()), gateway.cfg, x);
                gateway.View() == chain && (schedules, ok) == AfterExecute(old(schedules), id, attempt)
    {
      hide AfterPayrollRun;
      assert id in schedules ==> schedules[id := schedules[id]] == schedules;
      if id !in schedules || x.refused || x.run.None? {
        return false;
      }
      if x.dryRun {
        return true;
      }
      var row := schedules[id];
      var settled := gateway.ExecutePayrollRun(x.run.value, x);
      if x.database.RunUpdateFails? || x.database.ScheduleUpdateFails? {
        return false;
      }
      if !settled {
        var later := SavedRow(row, ChainFailed(x.at));
        schedules := schedules[id := later];
        return false;
      }
      var next := SavedRow(row, Settled);
      schedules := schedules[id := next];
      ok := !x.database.AuditFails?;
    }
  }
}
