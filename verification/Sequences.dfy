/** Splitting a string at a separator. */
module Sequences {
  import opened Wrappers

  /** What stands before the first `u`, and what stands after it if there is one. */
  function SplitAt<T(==)>(t: seq<T>, u: T): (seq<T>, Option<seq<T>>) {
    if t == [] then ([], None)
    else if t[0] == u then ([], Some(t[1..]))
    else
      var (before, after) := SplitAt(t[1..], u);
      ([t[0]] + before, after)
  }

  lemma {:induction false} SplitAtFirst<T>(a: seq<T>, u: T, b: seq<T>)
    requires u !in a
    ensures SplitAt(a + [u] + b, u) == (a, Some(b))
  {
    if a == [] {
      assert a + [u] + b == [u] + b;
    } else {
      assert a == [a[0]] + a[1..];
      assert (a + [u] + b)[1..] == a[1..] + [u] + b;
      SplitAtFirst(a[1..], u, b);
    }
  }

  lemma {:induction false} SplitAtNone<T>(a: seq<T>, u: T)
    requires u !in a
    ensures SplitAt(a, u) == (a, None)
  {
    if a != [] {
      assert a == [a[0]] + a[1..];
      SplitAtNone(a[1..], u);
    }
  }

  /** Splitting loses nothing. */
  lemma {:induction false} SplitAtRejoins<T>(t: seq<T>, u: T)
    ensures var (before, after) := SplitAt(t, u);
            t == before + (if after.Some? then [u] + after.value else [])
  {
    if t != [] && t[0] != u {
      SplitAtRejoins(t[1..], u);
      assert t == [t[0]] + t[1..];
    }
  }

  /** What stands before the first `u` holds none, and there is an after exactly if there is a `u`. */
  lemma {:induction false} SplitAtParts<T>(t: seq<T>, u: T)
    ensures u !in SplitAt(t, u).0
    ensures SplitAt(t, u).1.Some? <==> u in t
  {
    if t != [] && t[0] != u {
      SplitAtParts(t[1..], u);
      assert t == [t[0]] + t[1..];
    }
  }
}
