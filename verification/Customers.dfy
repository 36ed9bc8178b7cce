/** The anchor's KYC store: customers by id, and ids by account. */
module Customers {
  import opened Wrappers
  import opened Sequences

  /** The parameters that identify a customer. */
  datatype Identity = Identity(account: Option<string>, memo: Option<string>, kind: Option<string>)

  datatype Customer = Customer(id: string, identity: Identity, fields: string)

  datatype State = State(byId: map<string, Customer>, byAccount: map<string, string>)

  const EMPTY := State(map[], map[])

  function OrEmpty(s: Option<string>): string { if s.Some? then s.value else "" }

  function AccountKey(x: Identity): string {
    OrEmpty(x.account) + ":" + OrEmpty(x.memo) + ":" + OrEmpty(x.kind)
  }

  datatype Answer = NeedsInfo | Accepted(id: string)

  /** A missing id is looked up by account. */
  function Resolve(s: State, id: Option<string>, x: Identity): Option<string> {
    if id.Some? then id
    else if AccountKey(x) in s.byAccount then Some(s.byAccount[AccountKey(x)])
    else None
  }

  /** The empty id counts as no id at all. */
  function Get(s: State, id: Option<string>, x: Identity): Answer {
    var resolved := Resolve(s, id, x);
    if resolved.Some? && resolved.value != "" && resolved.value in s.byId
    then Accepted(s.byId[resolved.value].id)
    else NeedsInfo
  }

  /** The id a PUT writes under; `drawn` is the random id it would draw. */
  function Target(s: State, id: Option<string>, x: Identity, drawn: string): string {
    var existing := Resolve(s, id, x);
    if existing.Some? then existing.value else drawn
  }

  function AfterPut(s: State, id: Option<string>, x: Identity, fields: string, drawn: string): State {
    var target := Target(s, id, x, drawn);
    State(s.byId[target := Customer(target, x, fields)], s.byAccount[AccountKey(x) := target])
  }

  function AfterDelete(s: State, id: Option<string>, x: Identity): State {
    var resolved := Resolve(s, id, x);
    if resolved.None? || resolved.value == "" || resolved.value !in s.byId then s
    else
      var rec := s.byId[resolved.value];
      State(s.byId - {resolved.value}, s.byAccount - {AccountKey(rec.identity)})
  }

  class Store {
    var byId: map<string, Customer>
    var byAccount: map<string, string>

    function View(): State
      reads this
    {
      State(byId, byAccount)
    }

    constructor ()
      ensures View() == EMPTY
    {
      byId, byAccount := map[], map[];
    }

    method DoGet(id: Option<string>, x: Identity) returns (r: Answer)
      ensures r == Get(View(), id, x)
    {
      var resolved := Resolve(View(), id, x);
      if resolved.None? || resolved.value == "" || resolved.value !in byId {
        return NeedsInfo;
      }
      r := Accepted(byId[resolved.value].id);
    }

    method DoPut(id: Option<string>, x: Identity, fields: string, drawn: string) returns (r: string)
      modifies this
      ensures View() == AfterPut(old(View()), id, x, fields, drawn)
      ensures r == Target(old(View()), id, x, drawn)
    {
      var existing := Resolve(View(), id, x);
      r := if existing.Some? then existing.value else drawn;
      byId := byId[r := Customer(r, x, fields)];
      byAccount := byAccount[AccountKey(x) := r];
    }

    method DoDelete(id: Option<string>, x: Identity)
      modifies this
      ensures View() == AfterDelete(old(View()), id, x)
    {
      var resolved := Resolve(View(), id, x);
      if resolved.Some? && resolved.value != "" {
        var known := resolved.value in byId;
        var key := if known then AccountKey(byId[resolved.value].identity) else "";
        byId := byId - {resolved.value};
        if known {
          byAccount := byAccount - {key};
        }
      }
    }
  }

  // ---- The two maps ----

  /** Each map is the exact inverse of the other, and records carry the id they are stored under. */
  ghost predicate Inverse(s: State) {
    && (forall id :: id in s.byId ==>
          s.byId[id].id == id && AccountKey(s.byId[id].identity) in s.byAccount
          && s.byAccount[AccountKey(s.byId[id].identity)] == id)
    && (forall key :: key in s.byAccount ==>
          s.byAccount[key] in s.byId && AccountKey(s.byId[s.byAccount[key]].identity) == key)
  }

  /** The id and the account key belong together already, or neither is in use. */
  predicate Matches(s: State, id: string, key: string) {
    if key in s.byAccount then s.byAccount[key] == id else id !in s.byId
  }

  /** A PUT keeps the maps inverse exactly when its id and its account key match. */
  lemma PutKeepsInverseIff(s: State, id: Option<string>, x: Identity, fields: string, drawn: string)
    requires Inverse(s)
    ensures Inverse(AfterPut(s, id, x, fields, drawn)) <==> Matches(s, Target(s, id, x, drawn), AccountKey(x))
  {
    var target, key, r := Target(s, id, x, drawn), AccountKey(x), AfterPut(s, id, x, fields, drawn);
    hide AccountKey;
    if key in s.byAccount && s.byAccount[key] != target {
      var other := s.byAccount[key];
      assert r.byId[other] == s.byId[other];
      assert r.byAccount[key] == target != other;
    } else if key !in s.byAccount && target in s.byId {
      var oldKey := AccountKey(s.byId[target].identity);
      assert oldKey in r.byAccount && r.byAccount[oldKey] == target;
      assert AccountKey(r.byId[target].identity) == key != oldKey;
    }
  }

  /** A PUT that names no id always matches, as long as the random id is new. */
  lemma UnnamedMatches(s: State, x: Identity, drawn: string)
    requires Inverse(s) && drawn !in s.byId
    ensures Matches(s, Target(s, None, x, drawn), AccountKey(x))
  {
  }

  lemma DeleteKeepsInverse(s: State, id: Option<string>, x: Identity)
    requires Inverse(s)
    ensures Inverse(AfterDelete(s, id, x))
  {
    hide AccountKey;
  }

  datatype Request =
    | Put(id: Option<string>, x: Identity, fields: string, drawn: string)
    | Delete(id: Option<string>, x: Identity)

  function After(s: State, r: Request): State {
    match r
    case Put(id, x, fields, drawn) => AfterPut(s, id, x, fields, drawn)
    case Delete(id, x) => AfterDelete(s, id, x)
  }

  function Run(rs: seq<Request>): State {
    if rs == [] then EMPTY else After(Run(rs[..|rs| - 1]), rs[|rs| - 1])
  }

  ghost predicate WellFormed(s: State, r: Request) {
    r.Put? ==> Matches(s, Target(s, r.id, r.x, r.drawn), AccountKey(r.x))
  }

  ghost predicate AllWellFormed(rs: seq<Request>) {
    forall k :: 0 <= k < |rs| ==> WellFormed(Run(rs[..k]), rs[k])
  }

  ghost predicate AlwaysInverse(rs: seq<Request>) {
    forall k :: 0 <= k <= |rs| ==> Inverse(Run(rs[..k]))
  }

  lemma Prefixes(rs: seq<Request>)
    requires rs != []
    ensures AllWellFormed(rs) <==> AllWellFormed(rs[..|rs| - 1]) && WellFormed(Run(rs[..|rs| - 1]), rs[|rs| - 1])
    ensures AlwaysInverse(rs) <==> AlwaysInverse(rs[..|rs| - 1]) && Inverse(Run(rs))
    ensures AlwaysInverse(rs[..|rs| - 1]) ==> Inverse(Run(rs[..|rs| - 1]))
  {
    hide WellFormed, Inverse, Run;
    var init := rs[..|rs| - 1];
    assert forall k :: 0 <= k <= |init| ==> init[..k] == rs[..k];
    assert rs[..|rs|] == rs && init[..|init|] == init;
    if AllWellFormed(rs) {
      assert forall k :: 0 <= k < |init| ==> WellFormed(Run(rs[..k]), rs[k]);
    }
  }

  /** The maps stay inverse through a history exactly as long as every PUT in it matches. */
  lemma {:induction false} RunKeepsInverseIff(rs: seq<Request>)
    ensures AllWellFormed(rs) <==> AlwaysInverse(rs)
  {
    if rs != [] {
      var init, last := rs[..|rs| - 1], rs[|rs| - 1];
      RunKeepsInverseIff(init);
      Prefixes(rs);
      hide AllWellFormed, AlwaysInverse, WellFormed, Inverse, After;
      if Inverse(Run(init)) {
        StepKeepsInverseIff(Run(init), last);
      }
    }
  }

  lemma StepKeepsInverseIff(s: State, r: Request)
    requires Inverse(s)
    ensures Inverse(After(s, r)) <==> WellFormed(s, r)
  {
    hide Inverse, Matches, AccountKey;
    match r
    case Put(id, x, fields, drawn) => PutKeepsInverseIff(s, id, x, fields, drawn);
    case Delete(id, x) => DeleteKeepsInverse(s, id, x);
  }

  // ---- Lookups ----

  /** Looking a stored customer up by id and by its account gives the same answer: its id, unless
      that is empty. */
  lemma LookupsAgree(s: State, id: string, any: Identity)
    requires Inverse(s) && id in s.byId
    ensures Get(s, Some(id), any) == Get(s, None, s.byId[id].identity)
    ensures Get(s, Some(id), any) == if id == "" then NeedsInfo else Accepted(id)
  {
    hide AccountKey;
  }

  /** What was PUT is found under its id and under its account. */
  lemma PutThenGet(s: State, id: Option<string>, x: Identity, fields: string, drawn: string, any: Identity)
    requires Target(s, id, x, drawn) != ""
    ensures var r, target := AfterPut(s, id, x, fields, drawn), Target(s, id, x, drawn);
            Get(r, Some(target), any) == Accepted(target) && Get(r, None, x) == Accepted(target)
  {
  }

  /** After a DELETE by id the customer is found neither by id nor by account, and nobody else is
      touched. */
  lemma DeleteThenGet(s: State, id: string, any: Identity)
    requires Inverse(s) && id in s.byId && id != ""
    ensures var r := AfterDelete(s, Some(id), any);
            && Get(r, Some(id), any) == NeedsInfo && Get(r, None, s.byId[id].identity) == NeedsInfo
            && (forall other :: other in s.byId && other != id ==>
                  other in r.byId && r.byId[other] == s.byId[other]
                  && Get(r, None, s.byId[other].identity) == Get(s, None, s.byId[other].identity))
  {
    hide AccountKey;
  }

  /** Deleting a customer that a PUT created restores both maps. */
  lemma DeleteUndoesPut(s: State, x: Identity, fields: string, drawn: string, any: Identity)
    requires AccountKey(x) !in s.byAccount && drawn !in s.byId && drawn != ""
    ensures AfterDelete(AfterPut(s, None, x, fields, drawn), Some(drawn), any) == s
  {
    hide AccountKey;
    var put := AfterPut(s, None, x, fields, drawn);
    assert put.byId - {drawn} == s.byId;
    assert put.byAccount - {AccountKey(x)} == s.byAccount;
  }

  // ---- Account keys ----

  predicate NoColons(x: Identity) { ':' !in OrEmpty(x.account) && ':' !in OrEmpty(x.memo) }

  predicate SameParameters(x: Identity, y: Identity) {
    OrEmpty(x.account) == OrEmpty(y.account) && OrEmpty(x.memo) == OrEmpty(y.memo) && OrEmpty(x.kind) == OrEmpty(y.kind)
  }

  /** Without colons in account and memo, equal keys mean equal parameters; a missing one and an
      empty one are not told apart. */
  lemma AccountKeyInjective(x: Identity, y: Identity)
    requires NoColons(x) && NoColons(y)
    ensures AccountKey(x) == AccountKey(y) <==> SameParameters(x, y)
  {
    KeySplits(x);
    KeySplits(y);
  }

  lemma KeySplits(x: Identity)
    requires NoColons(x)
    ensures var rest := OrEmpty(x.memo) + [':'] + OrEmpty(x.kind);
            && SplitAt(AccountKey(x), ':') == (OrEmpty(x.account), Some(rest))
            && SplitAt(rest, ':') == (OrEmpty(x.memo), Some(OrEmpty(x.kind)))
  {
    var a, m, t := OrEmpty(x.account), OrEmpty(x.memo), OrEmpty(x.kind);
    assert AccountKey(x) == a + [':'] + (m + [':'] + t);
    SplitAtFirst(a, ':', m + [':'] + t);
    SplitAtFirst(m, ':', t);
  }

  /** Another customer, without colons itself, that has the same key. */
  predicate Collides(x: Identity, y: Identity) {
    NoColons(x) && !SameParameters(x, y) && AccountKey(x) == AccountKey(y)
  }

  lemma KeyParts(x: Identity)
    ensures AccountKey(x) == OrEmpty(x.account) + [':'] + (OrEmpty(x.memo) + [':'] + OrEmpty(x.kind))
  {
  }

  /** The parameters that a key seems to have been made of. */
  lemma KeyReadAgain(y: Identity) returns (x: Identity)
    ensures NoColons(x) && AccountKey(x) == AccountKey(y)
  {
    hide SplitAt, AccountKey;
    var key := AccountKey(y);
    KeyParts(y);
    TwoColons(OrEmpty(y.account), OrEmpty(y.memo) + [':'] + OrEmpty(y.kind));
    var (account, rest) := SplitAt(key, ':');
    SplitAtParts(key, ':');
    SplitAtRejoins(key, ':');
    var (memo, kind) := SplitAt(rest.value, ':');
    SplitAtParts(rest.value, ':');
    SplitAtRejoins(rest.value, ':');
    x := Identity(Some(account), Some(memo), Some(kind.value));
    KeyParts(x);
    JoinParts(account, memo, kind.value, rest.value);
  }

  lemma JoinParts(account: string, memo: string, kind: string, rest: string)
    requires rest == memo + ([':'] + kind)
    ensures account + [':'] + (memo + [':'] + kind) == account + ([':'] + rest)
  {
  }

  lemma TwoColons(a: string, b: string)
    requires ':' in b
    ensures var rest := SplitAt(a + [':'] + b, ':').1;
            rest.Some? && ':' in rest.value
  {
    if ':' in a {
      var (before, after) := SplitAt(a, ':');
      SplitAtParts(a, ':');
      SplitAtRejoins(a, ':');
      assert a + [':'] + b == before + [':'] + (after.value + [':'] + b);
      SplitAtFirst(before, ':', after.value + [':'] + b);
    } else {
      SplitAtFirst(a, ':', b);
    }
  }

  /** A customer shares its key with another one that has no colons exactly when it has a colon in its
      account or memo itself. */
  lemma CollidesIff(y: Identity)
    ensures (exists x :: Collides(x, y)) <==> !NoColons(y)
  {
    hide AccountKey;
    if NoColons(y) {
      forall x
        ensures !Collides(x, y)
      {
        if NoColons(x) {
          AccountKeyInjective(x, y);
        }
      }
    } else {
      var x := KeyReadAgain(y);
      assert Collides(x, y);
    }
  }

  // ---- What the handlers do, request by request ----

  /** The key of an account: account, memo and type with colons between, a missing one empty. */
  predicate KeyIs(x: Identity, key: string) {
    key == (match x.account case Some(a) => a case None => "") + ":" + (match x.memo case Some(m) => m case None => "")
           + ":" + (match x.kind case Some(k) => k case None => "")
  }

  /** The id a request is about: the one it gives, else the one on record for its account. */
  ghost predicate About(s: State, id: Option<string>, x: Identity, about: Option<string>) {
    match id
    case Some(given) => about == Some(given)
    case None => forall key :: KeyIs(x, key) ==> about == (if key in s.byAccount then Some(s.byAccount[key]) else None)
  }

  lemma AboutIff(s: State, id: Option<string>, x: Identity, about: Option<string>)
    ensures About(s, id, x, about) <==> about == Resolve(s, id, x)
  {
    assert KeyIs(x, AccountKey(x));
  }

  /** A PUT writes one record, with the request's identity and fields, under the id it is about or else the
      id drawn, and points the account at it; nothing else changes. */
  lemma PutSays(s: State, id: Option<string>, x: Identity, fields: string, drawn: string, key: string, about: Option<string>)
    requires KeyIs(x, key) && About(s, id, x, about)
    ensures var target := if about.Some? then about.value else drawn;
            var r := AfterPut(s, id, x, fields, drawn);
            && target in r.byId && r.byId[target] == Customer(target, x, fields) && r.byId - {target} == s.byId - {target}
            && key in r.byAccount && r.byAccount[key] == target && r.byAccount - {key} == s.byAccount - {key}
  {
    AboutIff(s, id, x, about);
    hide Resolve;
  }

  /** A GET answers with the record it is about, and asks for the fields when there is none. A DELETE removes
      that record and the account key it was put with; nothing else changes. */
  lemma GetAndDeleteSay(s: State, id: Option<string>, x: Identity, about: Option<string>)
    requires About(s, id, x, about)
    ensures var found := about.Some? && about.value != "" && about.value in s.byId;
            var r := AfterDelete(s, id, x);
            && Get(s, id, x) == (if found then Accepted(s.byId[about.value].id) else NeedsInfo)
            && (!found ==> r == s)
            && (found ==> r.byId == s.byId - {about.value})
            && (found ==> forall key :: KeyIs(s.byId[about.value].identity, key) ==> r.byAccount == s.byAccount - {key})
  {
    AboutIff(s, id, x, about);
    hide Resolve;
  }
}
