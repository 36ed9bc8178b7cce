/** The agent's smart account: the context rules its constructor adds, and the list of rule ids
    that a call's authorization tree is flattened to. */
module SmartAccount {
  import opened Wrappers

  type Address = string

  // ---- The constructor ----

  /** A rule for calls to one target; `capped` says whether the spending policy is attached. Its id
      is its position. */
  datatype Rule = Rule(target: Address, name: string, capped: bool)

  function RuleName(index: nat): string {
    if index == 0 then "agent-limit-0"
    else if index == 1 then "agent-limit-1"
    else if index == 2 then "agent-limit-2"
    else if index == 3 then "agent-limit-3"
    else "agent-limit-x"
  }

  method Construct(capped: seq<Address>, gateways: seq<Address>) returns (rules: seq<Rule>)
    ensures |rules| == |capped| + |gateways|
    ensures forall i :: 0 <= i < |rules| ==> rules[i] == Rule((capped + gateways)[i], RuleName(i), i < |capped|)
  {
    rules := [];
    var ruleIndex := 0;
    for i := 0 to |capped|
      invariant ruleIndex == |rules| == i
      invariant forall k :: 0 <= k < i ==> rules[k] == Rule(capped[k], RuleName(k), true)
    {
      rules := rules + [Rule(capped[i], RuleName(ruleIndex), true)];
      ruleIndex := ruleIndex + 1;
    }
    for i := 0 to |gateways|
      invariant ruleIndex == |rules| == |capped| + i
      invariant forall k :: 0 <= k < |rules| ==> rules[k] == Rule((capped + gateways)[k], RuleName(k), k < |capped|)
    {
      rules := rules + [Rule(gateways[i], RuleName(ruleIndex), false)];
      ruleIndex := ruleIndex + 1;
    }
  }

  // ---- The authorization tree ----

  /** A node either calls a contract or does something else (it creates one). */
  datatype Invocation = Invocation(call: Option<Address>, subs: seq<Invocation>)

  /** The called contracts, parents before their children, children in order. */
  function Targets(inv: Invocation): seq<Address>
    decreases inv, 1
  {
    (if inv.call.Some? then [inv.call.value] else []) + TargetsOf(inv, |inv.subs|)
  }

  /** ... below the first n children. */
  function TargetsOf(inv: Invocation, n: nat): seq<Address>
    requires n <= |inv.subs|
    decreases inv, 0, n
  {
    if n == 0 then [] else TargetsOf(inv, n - 1) + Targets(inv.subs[n - 1])
  }

  predicate Mapped(targets: seq<Address>, ruleIds: map<Address, nat>) {
    forall k :: 0 <= k < |targets| ==> targets[k] in ruleIds
  }

  /** The ids of a list of targets that are all mapped. */
  predicate IdsOf(ids: seq<nat>, targets: seq<Address>, ruleIds: map<Address, nat>) {
    |ids| == |targets| && forall k :: 0 <= k < |ids| ==> targets[k] in ruleIds && ids[k] == ruleIds[targets[k]]
  }

  /** What the list holds before the n-th child's subtree. */
  function Before(inv: Invocation, n: nat): seq<Address>
    requires n <= |inv.subs|
  {
    (if inv.call.Some? then [inv.call.value] else []) + TargetsOf(inv, n)
  }

  lemma BeforeStep(inv: Invocation, n: nat)
    requires n < |inv.subs|
    ensures Before(inv, n + 1) == Before(inv, n) + Targets(inv.subs[n])
  {
    assert TargetsOf(inv, n + 1) == TargetsOf(inv, n) + Targets(inv.subs[n]);
    hide Targets, TargetsOf;
  }

  lemma BeforeEnds(inv: Invocation)
    ensures Before(inv, 0) == if inv.call.Some? then [inv.call.value] else []
    ensures Before(inv, |inv.subs|) == Targets(inv)
  {
    assert TargetsOf(inv, 0) == [];
    assert Targets(inv) == (if inv.call.Some? then [inv.call.value] else []) + TargetsOf(inv, |inv.subs|);
    hide Targets, TargetsOf;
  }

  lemma IdsAppend(ids: seq<nat>, targets: seq<Address>, more: seq<nat>, others: seq<Address>, ruleIds: map<Address, nat>)
    requires IdsOf(ids, targets, ruleIds) && IdsOf(more, others, ruleIds)
    ensures IdsOf(ids + more, targets + others, ruleIds)
  {
  }

  class Flattening {
    const ruleIds: map<Address, nat>
    var contextRuleIds: seq<nat>

    constructor (ruleIds: map<Address, nat>)
      ensures this.ruleIds == ruleIds && contextRuleIds == []
    {
      this.ruleIds := ruleIds;
      contextRuleIds := [];
    }

    /** Pushes the ids of the whole tree in preorder; throws (false) exactly when the tree calls a
        contract without a rule. */
    method Walk(inv: Invocation) returns (ok: bool)
      modifies this
      ensures ok <==> Mapped(Targets(inv), ruleIds)
      ensures ok ==> exists ids :: IdsOf(ids, Targets(inv), ruleIds) && contextRuleIds == old(contextRuleIds) + ids
      decreases inv
    {
      hide Targets, TargetsOf, Before, Mapped, IdsOf;
      BeforeEnds(inv);
      ghost var before := contextRuleIds;
      ghost var ids: seq<nat> := [];
      if inv.call.Some? {
        if inv.call.value !in ruleIds {
          UnmappedHere(inv, ruleIds);
          return false;
        }
        contextRuleIds := contextRuleIds + [ruleIds[inv.call.value]];
        ids := [ruleIds[inv.call.value]];
      }
      OwnId(inv, ruleIds, ids);
      for n := 0 to |inv.subs|
        invariant IdsOf(ids, Before(inv, n), ruleIds)
        invariant contextRuleIds == before + ids
      {
        ghost var sofar := contextRuleIds;
        var below := Walk(inv.subs[n]);
        if !below {
          UnmappedBelow(inv, n, ruleIds);
          return false;
        }
        ghost var more :| IdsOf(more, Targets(inv.subs[n]), ruleIds) && contextRuleIds == sofar + more;
        BeforeStep(inv, n);
        IdsAppend(ids, Before(inv, n), more, Targets(inv.subs[n]), ruleIds);
        ids := ids + more;
      }
      IdsMapped(ids, Targets(inv), ruleIds);
      ok := true;
    }
  }

  lemma OwnId(inv: Invocation, ruleIds: map<Address, nat>, ids: seq<nat>)
    requires inv.call.Some? ==> inv.call.value in ruleIds
    requires ids == if inv.call.Some? then [ruleIds[inv.call.value]] else []
    ensures IdsOf(ids, Before(inv, 0), ruleIds)
  {
  }

  lemma IdsMapped(ids: seq<nat>, targets: seq<Address>, ruleIds: map<Address, nat>)
    requires IdsOf(ids, targets, ruleIds)
    ensures Mapped(targets, ruleIds)
  {
    assert forall k :: 0 <= k < |targets| ==> ids[k] == ruleIds[targets[k]];
  }

  lemma UnmappedHere(inv: Invocation, ruleIds: map<Address, nat>)
    requires inv.call.Some? && inv.call.value !in ruleIds
    ensures !Mapped(Targets(inv), ruleIds)
  {
    assert Targets(inv)[0] == inv.call.value;
  }

  lemma {:induction false} BeforeGrows(inv: Invocation, n: nat, m: nat)
    requires n <= m <= |inv.subs|
    ensures Before(inv, n) <= Before(inv, m)
    decreases m
  {
    hide Targets, TargetsOf, Before;
    if n < m {
      BeforeGrows(inv, n, m - 1);
      BeforeStep(inv, m - 1);
    }
  }

  lemma ChildIsStretch(inv: Invocation, n: nat)
    requires n < |inv.subs|
    ensures Before(inv, n) + Targets(inv.subs[n]) <= Targets(inv)
  {
    hide Targets, TargetsOf, Before;
    BeforeGrows(inv, n + 1, |inv.subs|);
    BeforeStep(inv, n);
    BeforeEnds(inv);
  }

  lemma UnmappedBelow(inv: Invocation, n: nat, ruleIds: map<Address, nat>)
    requires n < |inv.subs| && !Mapped(Targets(inv.subs[n]), ruleIds)
    ensures !Mapped(Targets(inv), ruleIds)
  {
    hide Targets, TargetsOf, Before;
    ChildIsStretch(inv, n);
    var left, below := Before(inv, n), Targets(inv.subs[n]);
    var k :| 0 <= k < |below| && below[k] !in ruleIds;
    assert (left + below)[|left| + k] == below[k];
    assert Targets(inv)[|left| + k] == below[k];
  }

  // ---- Which ids carry the cap ----

  /** A configured map that follows the constructor's numbering. */
  ghost predicate Follows(ruleIds: map<Address, nat>, capped: seq<Address>, gateways: seq<Address>) {
    forall t :: t in ruleIds ==> ruleIds[t] < |capped + gateways| && (capped + gateways)[ruleIds[t]] == t
  }

  ghost predicate Disjoint(capped: seq<Address>, gateways: seq<Address>) {
    forall i, j :: 0 <= i < |capped| && 0 <= j < |gateways| ==> capped[i] != gateways[j]
  }

  /** Whatever map follows the numbering, its ids below the capped count are those of capped targets. */
  ghost predicate LowIdsAreCapped(ruleIds: map<Address, nat>, capped: seq<Address>) {
    forall t :: t in ruleIds ==> (ruleIds[t] < |capped| <==> t in capped)
  }

  /** That holds of every such map exactly when no target is listed both as capped and as a gateway. */
  lemma LowIdsAreCappedIff(capped: seq<Address>, gateways: seq<Address>)
    ensures Disjoint(capped, gateways) <==>
            forall ruleIds :: Follows(ruleIds, capped, gateways) ==> LowIdsAreCapped(ruleIds, capped)
  {
    if Disjoint(capped, gateways) {
      forall ruleIds, t | Follows(ruleIds, capped, gateways) && t in ruleIds
        ensures ruleIds[t] < |capped| <==> t in capped
      {
        var j := ruleIds[t] - |capped|;
        assert j >= 0 ==> gateways[j] == t;
      }
    } else {
      var i, j :| 0 <= i < |capped| && 0 <= j < |gateways| && capped[i] == gateways[j];
      var t := capped[i];
      var ruleIds := map[t := |capped| + j];
      assert Follows(ruleIds, capped, gateways);
      assert t in ruleIds && t in capped && ruleIds[t] >= |capped|;
      assert !LowIdsAreCapped(ruleIds, capped);
    }
  }

  /** In the flattened list of a tree, a node's id is below the capped count exactly when the node
      calls a capped target. */
  lemma CappedNodesMarked(inv: Invocation, ids: seq<nat>, ruleIds: map<Address, nat>, capped: seq<Address>, gateways: seq<Address>)
    requires Follows(ruleIds, capped, gateways) && Disjoint(capped, gateways)
    requires IdsOf(ids, Targets(inv), ruleIds)
    ensures forall k :: 0 <= k < |ids| ==> (ids[k] < |capped| <==> Targets(inv)[k] in capped)
  {
    LowIdsAreCappedIff(capped, gateways);
    hide Follows, Disjoint, Targets;
    assert LowIdsAreCapped(ruleIds, capped);
  }

  // ---- Preorder ----

  /** A node of the tree, by the child to take at each level. */
  function At(inv: Invocation, path: seq<nat>): Option<Invocation>
    decreases |path|
  {
    if path == [] then Some(inv)
    else if path[0] >= |inv.subs| then None
    else At(inv.subs[path[0]], path[1..])
  }

  /** The position in the flattened list at which a node's own subtree begins. */
  function Position(inv: Invocation, path: seq<nat>): nat
    requires At(inv, path).Some?
    decreases |path|
  {
    if path == [] then 0
    else
      |Before(inv, path[0])| + Position(inv.subs[path[0]], path[1..])
  }

  lemma StretchOfStretch(all: seq<Address>, left: seq<Address>, mid: seq<Address>, q: nat, below: seq<Address>)
    requires left + mid <= all && q + |below| <= |mid| && mid[q..q + |below|] == below
    ensures |left| + q + |below| <= |all| && all[|left| + q..|left| + q + |below|] == below
  {
    assert all[|left|..|left| + |mid|] == mid;
  }

  /** The subtree of every node, wherever it sits, is one uninterrupted stretch of the list that
      begins with the node's own target. */
  lemma {:induction false} SubtreeIsStretch(inv: Invocation, path: seq<nat>)
    requires At(inv, path).Some?
    ensures var p, below := Position(inv, path), Targets(At(inv, path).value);
            p + |below| <= |Targets(inv)| && Targets(inv)[p..p + |below|] == below
    decreases |path|
  {
    hide Targets, TargetsOf;
    if path != [] {
      var child, rest := inv.subs[path[0]], path[1..];
      SubtreeIsStretch(child, rest);
      ChildIsStretch(inv, path[0]);
      StretchOfStretch(Targets(inv), Before(inv, path[0]), Targets(child), Position(child, rest), Targets(At(inv, path).value));
    }
  }

  /** The names: the index for the first four rules, one name for all others. */
  lemma RuleNames(index: nat)
    ensures index < 4 ==> RuleName(index) == "agent-limit-" + ["0123"[index]]
    ensures index >= 4 ==> RuleName(index) == "agent-limit-x"
  {
    assert "agent-limit-" + ['0'] == "agent-limit-0" && "agent-limit-" + ['1'] == "agent-limit-1";
    assert "agent-limit-" + ['2'] == "agent-limit-2" && "agent-limit-" + ['3'] == "agent-limit-3";
  }
}
