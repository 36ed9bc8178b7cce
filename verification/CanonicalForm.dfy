/** What the canonical text of a value determines: the value up to key order, undefined members
    and the sign of zero, at any depth. */
module CanonicalForm {
  import opened Wrappers
  import opened Texts
  import opened Json
  import opened CanonicalJson
  import opened JsonReader

  // ---- Sorted members ----

  ghost predicate Sorted(ms: seq<Member>) {
    forall i, j :: 0 <= i < j < |ms| ==> Less(ms[i].key, ms[j].key)
  }

  ghost predicate KeyIn(key: Text, ms: seq<Member>) {
    exists i :: 0 <= i < |ms| && ms[i].key == key
  }

  lemma {:induction false} DefinedDistinct(ms: seq<Member>)
    requires DistinctKeys(ms)
    ensures DistinctKeys(Defined(ms))
  {
    if ms != [] {
      DefinedDistinct(ms[1..]);
      var r := Defined(ms[1..]);
      forall j | 0 <= j < |r|
        ensures r[j].key != ms[0].key
      {
        assert r[j] in ms[1..];
        var k :| 0 <= k < |ms[1..]| && ms[1..][k] == r[j];
        assert ms[k + 1].key != ms[0].key;
      }
    }
  }

  lemma SortedTail(ms: seq<Member>)
    requires ms != [] && Sorted(ms)
    ensures Sorted(ms[1..])
    ensures forall m :: m in ms[1..] ==> Less(ms[0].key, m.key)
  {
    assert forall i :: 0 <= i < |ms[1..]| ==> ms[1..][i] == ms[i + 1];
  }

  lemma SortedCons(m: Member, ms: seq<Member>)
    requires Sorted(ms) && forall x :: x in ms ==> Less(m.key, x.key)
    ensures Sorted([m] + ms)
  {
  }

  lemma KeyInTail(key: Text, ms: seq<Member>)
    requires ms != [] && !KeyIn(key, ms)
    ensures ms[0].key != key && !KeyIn(key, ms[1..])
  {
    assert forall i :: 0 <= i < |ms[1..]| ==> ms[1..][i] == ms[i + 1];
  }

  lemma {:induction false} InsertSorted(m: Member, ms: seq<Member>)
    requires Sorted(ms) && !KeyIn(m.key, ms)
    ensures Sorted(Insert(m, ms))
  {
    if ms != [] {
      SortedTail(ms);
      KeyInTail(m.key, ms);
      LessTotal(m.key, ms[0].key);
      hide Sorted, KeyIn, Less;
      if Less(m.key, ms[0].key) {
        forall x | x in ms
          ensures Less(m.key, x.key)
        {
          if x != ms[0] {
            assert x in ms[1..];
            LessTransitive(m.key, ms[0].key, x.key);
          }
        }
        SortedCons(m, ms);
      } else {
        InsertSorted(m, ms[1..]);
        var r := Insert(m, ms[1..]);
        forall x | x in r
          ensures Less(ms[0].key, x.key)
        {
          assert x in multiset(r);
          assert x == m || x in ms[1..];
        }
        SortedCons(ms[0], r);
      }
    } else {
      assert Insert(m, ms) == [m];
    }
  }

  lemma {:induction false} SortMembersSorted(ms: seq<Member>)
    requires DistinctKeys(ms)
    ensures Sorted(SortMembers(ms))
  {
    if ms != [] {
      var init, last := ms[..|ms| - 1], ms[|ms| - 1];
      SortMembersSorted(init);
      var r := SortMembers(init);
      assert !KeyIn(last.key, r) by {
        forall i | 0 <= i < |r|
          ensures r[i].key != last.key
        {
          assert r[i] in multiset(r);
          assert r[i] in init;
          var k :| 0 <= k < |init| && init[k] == r[i];
          assert ms[k].key != ms[|ms| - 1].key;
        }
      }
      InsertSorted(last, r);
    }
  }

  lemma EntriesSorted(ms: seq<Member>)
    requires DistinctKeys(ms)
    ensures Sorted(Entries(ms))
  {
    DefinedDistinct(ms);
    SortMembersSorted(Defined(ms));
  }

  /** A sorted list of members is determined by its keys. */
  lemma {:induction false} SortedKeysUnique(a: seq<Member>, b: seq<Member>)
    requires Sorted(a) && Sorted(b)
    requires forall i :: 0 <= i < |a| ==> KeyIn(a[i].key, b)
    requires forall i :: 0 <= i < |b| ==> KeyIn(b[i].key, a)
    ensures |a| == |b|
    ensures forall i :: 0 <= i < |a| ==> a[i].key == b[i].key
  {
    if a == [] || b == [] {
      assert a != [] ==> KeyIn(a[0].key, b);
      assert b != [] ==> KeyIn(b[0].key, a);
    } else {
      HeadNotAfter(a, b);
      HeadNotAfter(b, a);
      LessTotal(a[0].key, b[0].key);
      TailKeys(a, b);
      TailKeys(b, a);
      SortedKeysUnique(a[1..], b[1..]);
    }
  }

  lemma HeadNotAfter(a: seq<Member>, b: seq<Member>)
    requires Sorted(b) && a != [] && b != []
    requires KeyIn(a[0].key, b)
    ensures !Less(a[0].key, b[0].key)
  {
    var j :| 0 <= j < |b| && b[j].key == a[0].key;
    LessTotal(a[0].key, b[0].key);
  }

  lemma TailKeys(a: seq<Member>, b: seq<Member>)
    requires Sorted(a) && a != [] && b != [] && a[0].key == b[0].key
    requires forall i :: 0 <= i < |a| ==> KeyIn(a[i].key, b)
    ensures forall i :: 0 <= i < |a[1..]| ==> KeyIn(a[1..][i].key, b[1..])
  {
    forall i | 0 <= i < |a[1..]|
      ensures KeyIn(a[1..][i].key, b[1..])
    {
      var key := a[i + 1].key;
      assert a[1..][i].key == key && KeyIn(key, b) && Less(a[0].key, key);
      LessTotal(a[0].key, key);
      var j :| 0 <= j < |b| && b[j].key == key;
      assert j > 0 && b[1..][j - 1].key == key;
    }
  }

  // ---- Normal forms and equivalence ----

  lemma {:induction false} DefinedPartner(a: Value, b: Value)
    requires Equivalent(a, b) && !a.Undefined?
    ensures !b.Undefined?
  {
  }

  /** Two values are the same document exactly when they have the same normal form. */
  lemma {:induction false} NormalIffEquivalent(a: Value, b: Value)
    requires Valid(a) && Valid(b)
    ensures Equivalent(a, b) <==> Normal(a) == Normal(b)
    decreases a
  {
    if a.Arr? && b.Arr? {
      ArraysAgree(a, b);
    } else if a.Obj? && b.Obj? {
      if Equivalent(a, b) {
        EquivalentObjects(a, b);
      }
      if Normal(a) == Normal(b) {
        NormalObjects(a, b);
      }
    }
  }

  lemma {:induction false} ArraysAgree(a: Value, b: Value)
    requires Valid(a) && Valid(b) && a.Arr? && b.Arr?
    ensures Equivalent(a, b) <==> Normal(a) == Normal(b)
    decreases a, 0
  {
    if |a.items| == |b.items| {
      forall i | 0 <= i < |a.items|
        ensures Equivalent(a.items[i], b.items[i]) <==> Normal(a.items[i]) == Normal(b.items[i])
      {
        NormalIffEquivalent(a.items[i], b.items[i]);
      }
      if Normal(a) == Normal(b) {
        forall i | 0 <= i < |a.items|
          ensures Normal(a.items[i]) == Normal(b.items[i])
        {
          assert Normal(a).items[i] == Normal(b).items[i];
        }
      }
    } else {
      assert |Normal(a).items| != |Normal(b).items|;
    }
  }

  /** Every defined member of one object has a defined partner in the other. */
  lemma EntryPartner(a: Value, b: Value, i: int) returns (k: int, j: int)
    requires Valid(a) && Valid(b) && a.Obj? && b.Obj? && Equivalent(a, b)
    requires 0 <= i < |Entries(a.members)|
    ensures 0 <= k < |a.members| && a.members[k] == Entries(a.members)[i]
    ensures 0 <= j < |b.members| && b.members[j].key == a.members[k].key
    ensures Equivalent(a.members[k].value, b.members[j].value)
    ensures b.members[j] in Entries(b.members)
  {
    k :| 0 <= k < |a.members| && a.members[k] == Entries(a.members)[i];
    j :| 0 <= j < |b.members| && b.members[j].key == a.members[k].key &&
         Equivalent(a.members[k].value, b.members[j].value);
    DefinedPartner(a.members[k].value, b.members[j].value);
  }

  lemma EntryFound(ms: seq<Member>, k: int)
    requires 0 <= k < |ms| && !ms[k].value.Undefined?
    ensures KeyIn(ms[k].key, Entries(ms))
  {
    assert ms[k] in Entries(ms);
  }

  lemma PartnerKey(a: Value, b: Value, i: int)
    requires Valid(a) && Valid(b) && a.Obj? && b.Obj? && Equivalent(a, b)
    requires 0 <= i < |Entries(a.members)|
    ensures KeyIn(Entries(a.members)[i].key, Entries(b.members))
  {
    var k, j := EntryPartner(a, b, i);
    EntryFound(b.members, j);
  }

  lemma PartnerKeyBack(a: Value, b: Value, i: int)
    requires a.Obj? && b.Obj? && Equivalent(a, b)
    requires 0 <= i < |Entries(b.members)|
    ensures KeyIn(Entries(b.members)[i].key, Entries(a.members))
  {
    var j :| 0 <= j < |b.members| && b.members[j] == Entries(b.members)[i];
    assert Has(a.members, b.members[j].key);
    var k :| 0 <= k < |a.members| && a.members[k].key == b.members[j].key && !a.members[k].value.Undefined?;
    EntryFound(a.members, k);
  }

  lemma EquivalentKeys(a: Value, b: Value)
    requires Valid(a) && Valid(b) && a.Obj? && b.Obj? && Equivalent(a, b)
    ensures |Entries(a.members)| == |Entries(b.members)|
    ensures forall i :: 0 <= i < |Entries(a.members)| ==> Entries(a.members)[i].key == Entries(b.members)[i].key
  {
    var ea, eb := Entries(a.members), Entries(b.members);
    forall i | 0 <= i < |ea|
      ensures KeyIn(ea[i].key, eb)
    {
      PartnerKey(a, b, i);
    }
    forall i | 0 <= i < |eb|
      ensures KeyIn(eb[i].key, ea)
    {
      PartnerKeyBack(a, b, i);
    }
    EntriesSorted(a.members);
    EntriesSorted(b.members);
    SortedKeysUnique(ea, eb);
  }

  lemma {:induction false} EquivalentEntry(a: Value, b: Value, i: int)
    requires Valid(a) && Valid(b) && a.Obj? && b.Obj? && Equivalent(a, b)
    requires 0 <= i < |Entries(a.members)| && |Entries(a.members)| == |Entries(b.members)|
    requires Entries(a.members)[i].key == Entries(b.members)[i].key
    ensures Normal(Entries(a.members)[i].value) == Normal(Entries(b.members)[i].value)
    decreases a, 0
  {
    var k, j := EntryPartner(a, b, i);
    var n :| 0 <= n < |b.members| && b.members[n] == Entries(b.members)[i];
    assert b.members[n].key == b.members[j].key;
    NormalIffEquivalent(a.members[k].value, b.members[j].value);
  }

  lemma {:induction false} EquivalentObjects(a: Value, b: Value)
    requires Valid(a) && Valid(b) && a.Obj? && b.Obj? && Equivalent(a, b)
    ensures Normal(a) == Normal(b)
    decreases a, 1
  {
    EquivalentKeys(a, b);
    forall i | 0 <= i < |Entries(a.members)|
      ensures Normal(Entries(a.members)[i].value) == Normal(Entries(b.members)[i].value)
    {
      EquivalentEntry(a, b, i);
    }
    assert Normal(a).members == Normal(b).members;
  }

  lemma NormalEntry(a: Value, b: Value, i: int)
    requires a.Obj? && b.Obj? && Normal(a) == Normal(b)
    requires 0 <= i < |Entries(a.members)|
    ensures |Entries(a.members)| == |Entries(b.members)|
    ensures Entries(a.members)[i].key == Entries(b.members)[i].key
    ensures Normal(Entries(a.members)[i].value) == Normal(Entries(b.members)[i].value)
  {
    assert |Normal(a).members| == |Entries(a.members)| && |Normal(b).members| == |Entries(b.members)|;
    assert Normal(a).members[i] == Normal(b).members[i];
  }

  lemma NormalHas(a: Value, b: Value, j: int)
    requires a.Obj? && b.Obj? && Normal(a) == Normal(b)
    requires 0 <= j < |b.members| && !b.members[j].value.Undefined?
    ensures Has(a.members, b.members[j].key)
  {
    var ea, eb := Entries(a.members), Entries(b.members);
    assert b.members[j] in eb;
    var n :| 0 <= n < |eb| && eb[n] == b.members[j];
    NormalEntry(b, a, n);
    assert ea[n] in a.members;
    var k :| 0 <= k < |a.members| && a.members[k] == ea[n];
  }

  lemma {:induction false} NormalPartner(a: Value, b: Value, i: int) returns (j: int)
    requires Valid(a) && Valid(b) && a.Obj? && b.Obj? && Normal(a) == Normal(b)
    requires 0 <= i < |a.members| && !a.members[i].value.Undefined?
    ensures 0 <= j < |b.members| && b.members[j].key == a.members[i].key
    ensures Equivalent(a.members[i].value, b.members[j].value)
    decreases a, 0
  {
    var ea, eb := Entries(a.members), Entries(b.members);
    assert a.members[i] in ea;
    var n :| 0 <= n < |ea| && ea[n] == a.members[i];
    NormalEntry(a, b, n);
    assert eb[n] in b.members;
    j :| 0 <= j < |b.members| && b.members[j] == eb[n];
    NormalIffEquivalent(a.members[i].value, b.members[j].value);
  }

  lemma {:induction false} NormalObjects(a: Value, b: Value)
    requires Valid(a) && Valid(b) && a.Obj? && b.Obj? && Normal(a) == Normal(b)
    ensures Equivalent(a, b)
    decreases a, 1
  {
    forall j | 0 <= j < |b.members| && !b.members[j].value.Undefined?
      ensures Has(a.members, b.members[j].key)
    {
      NormalHas(a, b, j);
    }
    forall i | 0 <= i < |a.members| && !a.members[i].value.Undefined?
      ensures exists j :: 0 <= j < |b.members| && b.members[j].key == a.members[i].key &&
                          Equivalent(a.members[i].value, b.members[j].value)
    {
      var j := NormalPartner(a, b, i);
    }
  }

  // ---- The printer succeeds exactly on printable values ----

  lemma PrintableEntries(ms: seq<Member>)
    ensures (forall i :: 0 <= i < |ms| ==> ms[i].value.Undefined? || Printable(ms[i].value)) <==>
            (forall i :: 0 <= i < |Entries(ms)| ==> Printable(Entries(ms)[i].value))
  {
    forall i | 0 <= i < |ms| && !ms[i].value.Undefined?
      ensures exists n :: 0 <= n < |Entries(ms)| && Entries(ms)[n].value == ms[i].value
    {
      assert ms[i] in Entries(ms);
    }
  }

  lemma {:induction false} PrintableIff(v: Value)
    requires Valid(v)
    ensures Serialize(v).Ok? <==> Printable(v)
    decreases v
  {
    if v.Arr? {
      PrintableItems(v, v.items);
    } else if v.Obj? {
      PrintableMembers(v, Entries(v.members));
      PrintableEntries(v.members);
    }
  }

  lemma {:induction false} PrintableItems(context: Value, items: seq<Value>)
    requires forall i :: 0 <= i < |items| ==> items[i] < context && Valid(items[i])
    ensures SerializeItems(context, items).Ok? <==> forall i :: 0 <= i < |items| ==> Printable(items[i])
    decreases context, 0, |items|
  {
    if items != [] {
      PrintableIff(items[0]);
      PrintableItems(context, items[1..]);
      assert items == [items[0]] + items[1..];
    }
  }

  lemma {:induction false} PrintableMembers(context: Value, ms: seq<Member>)
    requires forall i :: 0 <= i < |ms| ==> ms[i].value < context && Valid(ms[i].value)
    ensures SerializeMembers(context, ms).Ok? <==> forall i :: 0 <= i < |ms| ==> Printable(ms[i].value)
    decreases context, 0, |ms|
  {
    if ms != [] {
      PrintableIff(ms[0].value);
      PrintableMembers(context, ms[1..]);
      assert ms == [ms[0]] + ms[1..];
    }
  }

  // ---- Main results ----

  /** Every printable value prints to a text that reads back to its normal form, with nothing
      left over. */
  lemma CanonicalReadBack(v: Value)
    requires Valid(v) && Printable(v)
    ensures Serialize(v).Ok? && ReadValue(Serialize(v).value) == Some((Normal(v), []))
  {
    PrintableIff(v);
    ReadBack(v, []);
    assert Serialize(v).value + [] == Serialize(v).value;
  }

  lemma NormalItemsHead(xs: seq<Value>, ys: seq<Value>)
    requires NormalItems(xs) == NormalItems(ys)
    ensures |xs| == |ys|
    ensures xs != [] ==> Normal(xs[0]) == Normal(ys[0]) && NormalItems(xs[1..]) == NormalItems(ys[1..])
  {
    assert |NormalItems(xs)| == |xs| && |NormalItems(ys)| == |ys|;
    if xs != [] {
      NormalItemsCons(xs);
      NormalItemsCons(ys);
      assert NormalItems(xs)[0] == NormalItems(ys)[0];
      assert NormalItems(xs[1..]) == NormalItems(xs)[1..] == NormalItems(ys)[1..] == NormalItems(ys[1..]);
    }
  }

  lemma NormalMembersHead(xs: seq<Member>, ys: seq<Member>)
    requires NormalMembers(xs) == NormalMembers(ys)
    ensures |xs| == |ys|
    ensures xs != [] ==> xs[0].key == ys[0].key && Normal(xs[0].value) == Normal(ys[0].value)
    ensures xs != [] ==> NormalMembers(xs[1..]) == NormalMembers(ys[1..])
  {
    assert |NormalMembers(xs)| == |xs| && |NormalMembers(ys)| == |ys|;
    if xs != [] {
      NormalMembersCons(xs);
      NormalMembersCons(ys);
      assert NormalMembers(xs)[0] == NormalMembers(ys)[0];
      assert NormalMembers(xs[1..]) == NormalMembers(xs)[1..] == NormalMembers(ys)[1..] == NormalMembers(ys[1..]);
    }
  }

  lemma {:induction false} SameItems(c: Value, d: Value, xs: seq<Value>, ys: seq<Value>)
    requires forall i :: 0 <= i < |xs| ==> xs[i] < c && Valid(xs[i])
    requires forall i :: 0 <= i < |ys| ==> ys[i] < d && Valid(ys[i])
    requires NormalItems(xs) == NormalItems(ys)
    ensures SerializeItems(c, xs) == SerializeItems(d, ys)
    decreases c, 0, |xs|
  {
    hide Normal, NormalItems, Serialize;
    NormalItemsHead(xs, ys);
    if xs != [] {
      SameText(xs[0], ys[0]);
      SameItems(c, d, xs[1..], ys[1..]);
    }
  }

  lemma {:induction false} SameMembers(c: Value, d: Value, xs: seq<Member>, ys: seq<Member>)
    requires forall i :: 0 <= i < |xs| ==> xs[i].value < c && Valid(xs[i].value)
    requires forall i :: 0 <= i < |ys| ==> ys[i].value < d && Valid(ys[i].value)
    requires NormalMembers(xs) == NormalMembers(ys)
    ensures SerializeMembers(c, xs) == SerializeMembers(d, ys)
    decreases c, 0, |xs|
  {
    hide Normal, NormalMembers, Serialize;
    NormalMembersHead(xs, ys);
    if xs != [] {
      SameText(xs[0].value, ys[0].value);
      SameMembers(c, d, xs[1..], ys[1..]);
    }
  }

  /** The normal form decides the outcome of printing. */
  lemma {:induction false} SameText(a: Value, b: Value)
    requires Valid(a) && Valid(b) && Normal(a) == Normal(b)
    ensures Serialize(a) == Serialize(b)
    decreases a
  {
    if a.Arr? {
      assert Normal(a).items == NormalItems(a.items) && Normal(b).items == NormalItems(b.items);
      SameItems(a, b, a.items, b.items);
    } else if a.Obj? {
      var ea, eb := Entries(a.members), Entries(b.members);
      assert Normal(a).members == NormalMembers(ea) && Normal(b).members == NormalMembers(eb);
      SameMembers(a, b, ea, eb);
    }
  }

  /** Two printable values have the same canonical text exactly when they are the same
      document: key order, undefined members and the sign of zero are all that is lost. */
  lemma CanonicalIffEquivalent(a: Value, b: Value)
    requires Valid(a) && Valid(b) && Printable(a) && Printable(b)
    ensures Serialize(a) == Serialize(b) <==> Equivalent(a, b)
  {
    NormalIffEquivalent(a, b);
    CanonicalReadBack(a);
    CanonicalReadBack(b);
    if Equivalent(a, b) {
      SameText(a, b);
    }
  }

  // ---- The text handed to SHA-256 ----

  lemma {:induction false} QuotedWellFormed(s: Text)
    ensures WellFormed(QuoteBody(s))
  {
    if s == [] {
    } else if StartsWithPair(s) {
      QuotedWellFormed(s[2..]);
      assert WellFormed(s[..2]);
      WellFormedConcat(s[..2], QuoteBody(s[2..]));
    } else {
      QuotedWellFormed(s[1..]);
      WellFormedPlain(QuoteUnit(s[0]));
      WellFormedConcat(QuoteUnit(s[0]), QuoteBody(s[1..]));
    }
  }

  lemma QuoteWellFormed(s: Text)
    ensures WellFormed(Quote(s))
  {
    QuotedWellFormed(s);
    WellFormedConcat(QuoteBody(s), [QUOTE]);
    WellFormedConcat([QUOTE], QuoteBody(s) + [QUOTE]);
    assert Quote(s) == [QUOTE] + (QuoteBody(s) + [QUOTE]);
  }

  lemma {:induction false} JoinWellFormed(parts: seq<Text>)
    requires forall i :: 0 <= i < |parts| ==> WellFormed(parts[i])
    ensures WellFormed(Join(parts))
  {
    if |parts| > 1 {
      JoinWellFormed(parts[1..]);
      WellFormedConcat(parts[0], [COMMA]);
      WellFormedConcat(parts[0] + [COMMA], Join(parts[1..]));
    }
  }

  lemma Bracketed(open: Unit, body: Text, close: Unit)
    requires WellFormed(body) && !IsSurrogate(open) && !IsSurrogate(close)
    ensures WellFormed([open] + body + [close])
  {
    WellFormedConcat([open], body);
    WellFormedConcat([open] + body, [close]);
  }

  /** No canonical text holds a lone surrogate. */
  lemma {:induction false} CanonicalWellFormed(v: Value)
    requires Valid(v) && Serialize(v).Ok?
    ensures WellFormed(Serialize(v).value)
    decreases v
  {
    match v
    case Num(x) =>
      NumberReadBack(x);
      WellFormedPlain(PrintNumber(x));
    case Str(s) => QuoteWellFormed(s);
    case Arr(items) =>
      ItemsWellFormed(v, items);
      JoinWellFormed(SerializeItems(v, items).value);
      Bracketed(LBRACKET, Join(SerializeItems(v, items).value), RBRACKET);
    case Obj(ms) =>
      MembersWellFormed(v, Entries(ms));
      JoinWellFormed(SerializeMembers(v, Entries(ms)).value);
      Bracketed(LBRACE, Join(SerializeMembers(v, Entries(ms)).value), RBRACE);
    case Null => WellFormedPlain(NULL_TEXT);
    case Bool(b) => WellFormedPlain(if b then TRUE_TEXT else FALSE_TEXT);
    case Undefined =>
    case Opaque =>
  }

  lemma {:induction false} ItemsWellFormed(context: Value, items: seq<Value>)
    requires forall i :: 0 <= i < |items| ==> items[i] < context && Valid(items[i])
    requires SerializeItems(context, items).Ok?
    ensures var parts := SerializeItems(context, items).value;
            forall i :: 0 <= i < |parts| ==> WellFormed(parts[i])
    decreases context, 0, |items|
  {
    if items != [] {
      CanonicalWellFormed(items[0]);
      ItemsWellFormed(context, items[1..]);
    }
  }

  lemma MemberWellFormed(key: Text, text: Text)
    requires WellFormed(text)
    ensures WellFormed(Quote(key) + [COLON] + text)
  {
    QuoteWellFormed(key);
    WellFormedConcat(Quote(key), [COLON]);
    WellFormedConcat(Quote(key) + [COLON], text);
  }

  lemma {:induction false} MembersWellFormed(context: Value, ms: seq<Member>)
    requires forall i :: 0 <= i < |ms| ==> ms[i].value < context && Valid(ms[i].value)
    requires SerializeMembers(context, ms).Ok?
    ensures var parts := SerializeMembers(context, ms).value;
            forall i :: 0 <= i < |parts| ==> WellFormed(parts[i])
    decreases context, 0, |ms|
  {
    if ms != [] {
      CanonicalWellFormed(ms[0].value);
      MemberWellFormed(ms[0].key, Serialize(ms[0].value).value);
      MembersWellFormed(context, ms[1..]);
    }
  }

  /** The UTF-8 input of the hash, too, determines the document. */
  lemma HashInputIffEquivalent(a: Value, b: Value)
    requires Valid(a) && Valid(b) && Printable(a) && Printable(b)
    ensures Serialize(a).Ok? && Serialize(b).Ok?
    ensures Encode(Serialize(a).value) == Encode(Serialize(b).value) <==> Equivalent(a, b)
  {
    PrintableIff(a);
    PrintableIff(b);
    CanonicalIffEquivalent(a, b);
    CanonicalWellFormed(a);
    CanonicalWellFormed(b);
    if Encode(Serialize(a).value) == Encode(Serialize(b).value) {
      EncodeInjective(Serialize(a).value, Serialize(b).value);
    }
  }
}
