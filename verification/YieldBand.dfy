/** The yield cycles of the agent: each moves a position by one step toward its ceiling, or back. */
module YieldBand {
  import opened Wrappers

  const STEP: int := 10_000_000
  const CEILING: int := 500_000_000

  /** What the position read gives: nothing, an empty amount, or an amount. */
  datatype Reading = Failed | Empty | Amount(value: int)

  /** The two writes after the venue moved; the first that fails throws. */
  datatype Database = Stored | InsertFails | AuditFails

  /** One cycle: what was read, whether the legal binding was found, whether the venue moved (it does
      not when it is not live or when it refuses), and what became of the writes. */
  datatype Cycle = Cycle(reading: Reading, bound: bool, moved: bool, database: Database)

  datatype Decision = Deposited | Withdrew

  datatype Outcome = Decided(decision: Decision) | Deferred | Threw

  /** A failed read and an empty amount both count as 0. */
  function Seen(r: Reading): int { if r.Amount? then r.value else 0 }

  /** What a cycle does, if it does anything. */
  function Action(c: Cycle): Option<Decision> {
    if !c.bound || !c.moved then None
    else if Seen(c.reading) < CEILING then Some(Deposited)
    else Some(Withdrew)
  }

  /** What it records of that. */
  function Recorded(c: Cycle): seq<Decision> {
    if Action(c).Some? && !c.database.InsertFails? then [Action(c).value] else []
  }

  function OutcomeOf(c: Cycle): Outcome {
    if !c.bound then Threw
    else if !c.moved then Deferred
    else if !c.database.Stored? then Threw
    else Decided(Action(c).value)
  }

  function Moved(position: int, d: Option<Decision>): int {
    match d
    case None => position
    case Some(Deposited) => position + STEP
    case Some(Withdrew) => position - STEP
  }

  function Run(position: int, cs: seq<Cycle>): int {
    if cs == [] then position
    else Moved(Run(position, cs[..|cs| - 1]), Action(cs[|cs| - 1]))
  }

  function Decisions(cs: seq<Cycle>): seq<Decision> {
    if cs == [] then [] else Decisions(cs[..|cs| - 1]) + Recorded(cs[|cs| - 1])
  }

  class Agent {
    var position: int
    var decisions: seq<Decision>

    constructor (position: int)
      ensures this.position == position && decisions == []
    {
      this.position := position;
      decisions := [];
    }

    /** runYieldCycle and runBlendCycle alike: the venue moves first, the decision is recorded after. */
    method RunCycle(c: Cycle) returns (r: Outcome)
      modifies this
      ensures r == OutcomeOf(c)
      ensures position == Moved(old(position), Action(c))
      ensures decisions == old(decisions) + Recorded(c)
    {
      var seen := match c.reading { case Failed => 0 case Empty => 0 case Amount(n) => n };
      var deposit := seen < CEILING;
      if !c.bound {
        return Threw;
      }
      if !c.moved {
        return Deferred;
      }
      var decision := if deposit then Deposited else Withdrew;
      position := if deposit then position + STEP else position - STEP;
      if c.database.InsertFails? {
        return Threw;
      }
      decisions := decisions + [decision];
      if c.database.AuditFails? {
        return Threw;
      }
      r := Decided(decision);
    }
  }

  // ---- Cycles that read and move ----

  predicate InBand(position: int) { CEILING - STEP <= position < CEILING + STEP }

  /** One cycle that reads the true position and succeeds. */
  function Next(position: int): int { if position < CEILING then position + STEP else position - STEP }

  function After(position: int, n: nat): int {
    if n == 0 then position else Next(After(position, n - 1))
  }

  /** The number of cycles from a position to the band, computed from the distance. */
  function Distance(position: int): nat {
    if position < CEILING - STEP then (CEILING - STEP - position + STEP - 1) / STEP
    else if position >= CEILING + STEP then (position - (CEILING + STEP)) / STEP + 1
    else 0
  }

  lemma NextDistance(position: int)
    ensures Distance(position) == 0 <==> InBand(position)
    ensures Distance(position) > 0 ==> Distance(Next(position)) == Distance(position) - 1
    ensures InBand(position) ==> InBand(Next(position)) && Next(Next(position)) == position
  {
  }

  lemma {:induction false} DistanceAfter(position: int, n: nat)
    ensures Distance(After(position, n)) == if n >= Distance(position) then 0 else Distance(position) - n
  {
    if n > 0 {
      DistanceAfter(position, n - 1);
      NextDistance(After(position, n - 1));
    }
  }

  /** From any position the band is reached after exactly Distance cycles and never left. */
  lemma ReachesBandIff(position: int, n: nat)
    ensures InBand(After(position, n)) <==> n >= Distance(position)
  {
    DistanceAfter(position, n);
    NextDistance(After(position, n));
  }

  /** Inside the band the position alternates between two values. */
  lemma {:induction false} AlternatesInBand(position: int, n: nat)
    requires InBand(position)
    ensures After(position, n) == if n % 2 == 0 then position else Next(position)
  {
    if n > 0 {
      AlternatesInBand(position, n - 1);
      NextDistance(position);
    }
  }

  // ---- Cycles that fail ----

  /** The cycle read the position it found. */
  predicate Truthful(c: Cycle, position: int) { Seen(c.reading) == position }

  predicate Acts(c: Cycle) { c.bound && c.moved }

  ghost predicate AllTruthful(position: int, cs: seq<Cycle>) {
    forall k :: 0 <= k < |cs| && Acts(cs[k]) ==> Truthful(cs[k], Run(position, cs[..k]))
  }

  function Successes(cs: seq<Cycle>): nat {
    if cs == [] then 0 else Successes(cs[..|cs| - 1]) + if Acts(cs[|cs| - 1]) then 1 else 0
  }

  /** Cycles that fail to bind or to move change nothing: only the successful ones count. */
  lemma {:induction false} OnlySuccessesCount(position: int, cs: seq<Cycle>)
    requires AllTruthful(position, cs)
    ensures Run(position, cs) == After(position, Successes(cs))
  {
    if cs != [] {
      var init := cs[..|cs| - 1];
      assert forall k :: 0 <= k <= |init| ==> init[..k] == cs[..k];
      assert AllTruthful(position, init);
      OnlySuccessesCount(position, init);
      assert cs[..|cs| - 1] == init;
    }
  }

  /** The main result over whole runs with failures: a run of truthful cycles ends in the band
      exactly when enough of them succeeded. */
  lemma RunReachesBandIff(position: int, cs: seq<Cycle>)
    requires AllTruthful(position, cs)
    ensures InBand(Run(position, cs)) <==> Successes(cs) >= Distance(position)
  {
    OnlySuccessesCount(position, cs);
    ReachesBandIff(position, Successes(cs));
  }

  // ---- Reads that fail ----

  /** A read gave nothing although there is a position to see. */
  predicate Blind(c: Cycle, position: int) { Acts(c) && !c.reading.Amount? && position != 0 }

  /** A cycle that starts in the band leaves it exactly when the read failed at or above the ceiling. */
  lemma LeavesBandIff(position: int, c: Cycle)
    requires InBand(position) && Acts(c)
    requires c.reading.Amount? ==> c.reading.value == position
    ensures !InBand(Moved(position, Action(c))) <==> !c.reading.Amount? && position >= CEILING
  {
  }

  function Blindness(position: int, cs: seq<Cycle>): nat {
    if cs == [] then 0
    else
      var init := cs[..|cs| - 1];
      Blindness(position, init) + if Blind(cs[|cs| - 1], Run(position, init)) then 1 else 0
  }

  /** Reads either succeed truthfully or fail. */
  ghost predicate HonestOrNothing(position: int, cs: seq<Cycle>) {
    forall k :: 0 <= k < |cs| ==> cs[k].reading.Amount? ==> cs[k].reading.value == Run(position, cs[..k])
  }

  /** The acting cycle k saw nothing although the position stood at or above the ceiling. */
  predicate Overshoots(position: int, cs: seq<Cycle>, k: nat)
    requires k < |cs|
  {
    Acts(cs[k]) && !cs[k].reading.Amount? && Run(position, cs[..k]) >= CEILING
  }

  ghost predicate StaysInBand(position: int, cs: seq<Cycle>) {
    forall k :: 0 <= k <= |cs| ==> InBand(Run(position, cs[..k]))
  }

  ghost predicate NeverOvershoots(position: int, cs: seq<Cycle>) {
    forall k :: 0 <= k < |cs| ==> !Overshoots(position, cs, k)
  }

  lemma OneMore(position: int, init: seq<Cycle>, c: Cycle)
    ensures StaysInBand(position, init + [c]) <==> StaysInBand(position, init) && InBand(Run(position, init + [c]))
    ensures NeverOvershoots(position, init + [c]) <==>
            NeverOvershoots(position, init) && !Overshoots(position, init + [c], |init|)
    ensures HonestOrNothing(position, init + [c]) ==> HonestOrNothing(position, init)
    ensures (init + [c])[..|init|] == init
  {
    hide InBand, Run, Acts;
    var cs := init + [c];
    assert forall k :: 0 <= k <= |init| ==> init[..k] == cs[..k];
    assert cs[..|cs|] == cs;
    assert StaysInBand(position, cs) ==> forall k :: 0 <= k <= |init| ==> InBand(Run(position, cs[..k]));
    assert NeverOvershoots(position, cs) ==> forall k :: 0 <= k < |init| ==> !Overshoots(position, cs, k);
    assert forall k :: 0 <= k < |init| ==> (Overshoots(position, cs, k) <==> Overshoots(position, init, k));
  }

  /** Over a whole run from inside the band: it stays in the band throughout exactly when no cycle
      overshoots. */
  lemma {:induction false} BandKeptIff(position: int, cs: seq<Cycle>)
    requires InBand(position) && HonestOrNothing(position, cs)
    ensures StaysInBand(position, cs) <==> NeverOvershoots(position, cs)
  {
    hide InBand;
    if cs != [] {
      var init, c := cs[..|cs| - 1], cs[|cs| - 1];
      assert cs == init + [c];
      OneMore(position, init, c);
      BandKeptIff(position, init);
      if StaysInBand(position, init) {
        assert init[..|init|] == init;
        StepStays(position, init, c);
      }
    }
  }

  lemma StepStays(position: int, init: seq<Cycle>, c: Cycle)
    requires InBand(Run(position, init)) && (c.reading.Amount? ==> c.reading.value == Run(position, init))
    ensures InBand(Run(position, init + [c])) <==> !(Acts(c) && !c.reading.Amount? && Run(position, init) >= CEILING)
  {
    assert (init + [c])[..|init|] == init;
    if Acts(c) {
      LeavesBandIff(Run(position, init), c);
    }
  }

  /** From inside the band, each failed read costs at most one step above it, and none below. */
  lemma {:induction false} DriftBounded(position: int, cs: seq<Cycle>)
    requires InBand(position) && HonestOrNothing(position, cs)
    ensures CEILING - STEP <= Run(position, cs) < CEILING + STEP + Blindness(position, cs) * STEP
  {
    if cs != [] {
      var init := cs[..|cs| - 1];
      assert forall k :: 0 <= k <= |init| ==> init[..k] == cs[..k];
      assert HonestOrNothing(position, init);
      DriftBounded(position, init);
    }
  }

  /** The bound is met: while every read fails, every cycle deposits and no ceiling holds. */
  lemma {:induction false} BlindRunsClimb(position: int, cs: seq<Cycle>)
    requires forall k :: 0 <= k < |cs| ==> Acts(cs[k]) && !cs[k].reading.Amount?
    ensures Run(position, cs) == position + |cs| * STEP
  {
    if cs != [] {
      BlindRunsClimb(position, cs[..|cs| - 1]);
    }
  }

  // ---- The record against the venue ----

  function Net(ds: seq<Decision>): int {
    if ds == [] then 0
    else Net(ds[..|ds| - 1]) + if ds[|ds| - 1].Deposited? then STEP else -STEP
  }

  lemma NetOne(ds: seq<Decision>, d: Decision)
    ensures Net(ds + [d]) == Net(ds) + if d.Deposited? then STEP else -STEP
  {
    assert (ds + [d])[..|ds|] == ds;
  }

  /** The recorded decisions account for every move, and then for the position, exactly when no insert
      failed after the venue had moved. */
  lemma {:induction false} RecordIsCompleteIff(position: int, cs: seq<Cycle>)
    ensures |Decisions(cs)| <= Successes(cs)
    ensures |Decisions(cs)| == Successes(cs) <==> forall k :: 0 <= k < |cs| && Acts(cs[k]) ==> !cs[k].database.InsertFails?
    ensures |Decisions(cs)| == Successes(cs) ==> Run(position, cs) == position + Net(Decisions(cs))
  {
    if cs != [] {
      var init, last := cs[..|cs| - 1], cs[|cs| - 1];
      assert cs == init + [last];
      RecordIsCompleteIff(position, init);
      if Recorded(last) != [] {
        NetOne(Decisions(init), Action(last).value);
      } else {
        assert Decisions(cs) == Decisions(init);
      }
    }
  }
}
