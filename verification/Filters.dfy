/** List comprehensions that keep the elements satisfying a condition, and lists without repetition. */
module Filters {

  function Filter<T(!new)>(keep: T -> bool, s: seq<T>): (r: seq<T>)
    ensures forall x :: x in r <==> x in s && keep(x)
  {
    if s == [] then []
    else if keep(s[0]) then [s[0]] + Filter(keep, s[1..])
    else Filter(keep, s[1..])
  }

  function Not<T(!new)>(p: T -> bool): T -> bool {
    (x: T) => !p(x)
  }

  lemma {:induction false} FilterOneMore<T(!new)>(keep: T -> bool, s: seq<T>, x: T)
    ensures Filter(keep, s + [x]) == Filter(keep, s) + (if keep(x) then [x] else [])
  {
    if s == [] {
      assert [] + [x] == [x];
    } else {
      assert (s + [x])[1..] == s[1..] + [x];
      FilterOneMore(keep, s[1..], x);
    }
  }

  lemma {:induction false} FilterConcat<T(!new)>(keep: T -> bool, a: seq<T>, b: seq<T>)
    ensures Filter(keep, a + b) == Filter(keep, a) + Filter(keep, b)
  {
    if a == [] {
      assert a + b == b;
    } else {
      assert (a + b)[1..] == a[1..] + b;
      FilterConcat(keep, a[1..], b);
    }
  }

  /** The positions that a filter keeps: exactly those that satisfy the condition, in order. */
  ghost predicate KeptAt<T(!new)>(at: seq<nat>, r: seq<T>, keep: T -> bool, s: seq<T>) {
    && |at| == |r|
    && (forall i, j | 0 <= i < j < |at| :: at[i] < at[j])
    && (forall i | 0 <= i < |at| :: at[i] < |s| && r[i] == s[at[i]])
    && (forall k: nat | k < |s| :: k in at <==> keep(s[k]))
  }

  lemma KeptAtOneMore<T(!new)>(at: seq<nat>, r: seq<T>, keep: T -> bool, s: seq<T>, x: T)
    requires KeptAt(at, r, keep, s)
    ensures keep(x) ==> KeptAt(at + [|s|], r + [x], keep, s + [x])
    ensures !keep(x) ==> KeptAt(at, r, keep, s + [x])
  {
    forall k: nat | k < |s + [x]|
      ensures k in at + [|s|] <==> k in at || k == |s|
      ensures k < |s| ==> (k in at <==> keep((s + [x])[k]))
    {
      assert (at + [|s|])[|at|] == |s|;
    }
  }

  lemma {:induction false} FilterKeepsPositions<T(!new)>(keep: T -> bool, s: seq<T>) returns (at: seq<nat>)
    ensures KeptAt(at, Filter(keep, s), keep, s)
    decreases |s|
  {
    if s == [] {
      at := [];
    } else {
      var init, last := s[..|s| - 1], s[|s| - 1];
      var before := FilterKeepsPositions(keep, init);
      FilterOneMore(keep, init, last);
      KeptAtOneMore(before, Filter(keep, init), keep, init, last);
      assert s == init + [last];
      at := if keep(last) then before + [|init|] else before;
    }
  }

  /** Filtering twice is filtering once by both conditions. */
  lemma {:induction false} FiltersCompose<T(!new)>(p: T -> bool, q: T -> bool, both: T -> bool, s: seq<T>)
    requires forall x :: both(x) <==> p(x) && q(x)
    ensures Filter(p, Filter(q, s)) == Filter(both, s)
  {
    if s == [] {
    } else {
      FiltersCompose(p, q, both, s[1..]);
    }
  }

  lemma {:induction false} FiltersCommute<T(!new)>(p: T -> bool, q: T -> bool, s: seq<T>)
    ensures Filter(p, Filter(q, s)) == Filter(q, Filter(p, s))
  {
    if s == [] {
    } else {
      FiltersCommute(p, q, s[1..]);
    }
  }

  lemma {:induction false} FiltersAgree<T(!new)>(p: T -> bool, q: T -> bool, s: seq<T>)
    requires forall x :: x in s ==> p(x) == q(x)
    ensures Filter(p, s) == Filter(q, s)
  {
    if s == [] {
    } else {
      FiltersAgree(p, q, s[1..]);
    }
  }

  lemma {:induction false} FilterDropsOrKeeps<T(!new)>(p: T -> bool, s: seq<T>)
    ensures |Filter(p, s)| <= |s|
    ensures |s| - |Filter(p, s)| == |Filter(Not(p), s)|
  {
    if s == [] {
    } else {
      FilterDropsOrKeeps(p, s[1..]);
    }
  }

  /** No value occurs twice. */
  ghost predicate Distinct<T>(s: seq<T>) {
    forall i, j | 0 <= i < j < |s| :: s[i] != s[j]
  }

  /** No two elements share a key. */
  ghost predicate DistinctBy<T, K>(key: T -> K, s: seq<T>) {
    forall i, j | 0 <= i < j < |s| :: key(s[i]) != key(s[j])
  }

  lemma {:induction false} FilterKeepsDistinct<T(!new), K>(key: T -> K, keep: T -> bool, s: seq<T>)
    requires DistinctBy(key, s)
    ensures DistinctBy(key, Filter(keep, s))
  {
    if s == [] {
    } else {
      FilterKeepsDistinct(key, keep, s[1..]);
      var rest := Filter(keep, s[1..]);
      forall j | 0 <= j < |rest| ensures key(rest[j]) != key(s[0]) {
        assert rest[j] in rest;
      }
    }
  }
}
