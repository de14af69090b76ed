/**
A stable sort by an arbitrary ordering, as `list.sort(key=...)` performs it, Python's slice `[:n]`,
and loops that append at most one result per element.
*/
module Sorting {
  import opened Wrappers

  ghost predicate TotalPreorder<T(!new)>(le: (T, T) -> bool) {
    && (forall x, y :: le(x, y) || le(y, x))
    && (forall x, y, z :: le(x, y) && le(y, z) ==> le(x, z))
  }

  ghost predicate Sorted<T>(le: (T, T) -> bool, s: seq<T>) {
    forall i, j | 0 <= i < j < |s| :: le(s[i], s[j])
  }

  /** No two different elements of the sequence tie. */
  ghost predicate NoTies<T(!new)>(le: (T, T) -> bool, s: seq<T>) {
    forall x, y | x in s && y in s && le(x, y) && le(y, x) :: x == y
  }

  function Insert<T>(le: (T, T) -> bool, x: T, s: seq<T>): seq<T> {
    if s == [] then [x]
    else if le(x, s[0]) then [x] + s
    else [s[0]] + Insert(le, x, s[1..])
  }

  function Sort<T>(le: (T, T) -> bool, s: seq<T>): seq<T> {
    if s == [] then [] else Insert(le, s[0], Sort(le, s[1..]))
  }

  /** `s[:n]`: the first n elements, or all but the last -n. */
  function Take<T>(s: seq<T>, n: int): (r: seq<T>)
    ensures r <= s
  {
    if n >= |s| then s
    else if n >= 0 then s[..n]
    else if -n <= |s| then s[..|s| + n]
    else []
  }

  lemma {:induction false} InsertAddsOne<T(!new)>(le: (T, T) -> bool, x: T, s: seq<T>)
    ensures multiset(Insert(le, x, s)) == multiset(s) + multiset{x}
  {
    if s == [] {
    } else if !le(x, s[0]) {
      InsertAddsOne(le, x, s[1..]);
      BehindTheHead(s[0], s[1..], x, Insert(le, x, s[1..]));
      assert s == [s[0]] + s[1..];
    }
  }

  lemma BehindTheHead<T>(head: T, tail: seq<T>, x: T, longer: seq<T>)
    requires multiset(longer) == multiset(tail) + multiset{x}
    ensures multiset([head] + longer) == multiset([head] + tail) + multiset{x}
  {
  }

  lemma {:induction false} InsertBringsNothingElse<T(!new)>(le: (T, T) -> bool, x: T, s: seq<T>)
    ensures forall y | y in Insert(le, x, s) :: y == x || y in s
  {
    if s == [] {
    } else if !le(x, s[0]) {
      InsertBringsNothingElse(le, x, s[1..]);
    }
  }

  lemma {:induction false} InsertIsSorted<T(!new)>(le: (T, T) -> bool, x: T, s: seq<T>)
    requires TotalPreorder(le) && Sorted(le, s)
    ensures Sorted(le, Insert(le, x, s))
  {
    if s == [] {
    } else if le(x, s[0]) {
      forall j | 0 <= j < |s| ensures le(x, s[j]) {
        assert le(s[0], s[j]) || j == 0;
      }
    } else {
      var r := Insert(le, x, s[1..]);
      InsertIsSorted(le, x, s[1..]);
      InsertBringsNothingElse(le, x, s[1..]);
      forall j | 0 <= j < |r| ensures le(s[0], r[j]) {
        assert r[j] in r;
      }
    }
  }

  lemma {:induction false} SortKeepsTheElements<T(!new)>(le: (T, T) -> bool, s: seq<T>)
    ensures multiset(Sort(le, s)) == multiset(s)
  {
    if s == [] {
    } else {
      SortKeepsTheElements(le, s[1..]);
      InsertAddsOne(le, s[0], Sort(le, s[1..]));
      assert s == [s[0]] + s[1..];
    }
  }

  lemma {:induction false} SortIsSorted<T(!new)>(le: (T, T) -> bool, s: seq<T>)
    requires TotalPreorder(le)
    ensures Sorted(le, Sort(le, s))
    ensures multiset(Sort(le, s)) == multiset(s)
  {
    SortKeepsTheElements(le, s);
    if s == [] {
    } else {
      SortIsSorted(le, s[1..]);
      InsertIsSorted(le, s[0], Sort(le, s[1..]));
    }
  }

  lemma HeadsAgree<T(!new)>(le: (T, T) -> bool, a: seq<T>, b: seq<T>)
    requires multiset(a) == multiset(b) && Sorted(le, a) && Sorted(le, b) && NoTies(le, a)
    requires forall x :: le(x, x)
    requires a != [] && b != []
    ensures a[0] == b[0]
  {
    assert a[0] in multiset(b) && b[0] in multiset(a);
    var i :| 0 <= i < |b| && b[i] == a[0];
    var j :| 0 <= j < |a| && a[j] == b[0];
    assert le(b[0], a[0]) && le(a[0], b[0]);
  }

  lemma MultisetOfTail<T>(s: seq<T>)
    requires s != []
    ensures multiset(s[1..]) == multiset(s) - multiset{s[0]}
  {
    assert s == [s[0]] + s[1..];
  }

  /** Two sorted arrangements of the same elements are equal when no two of them tie. */
  lemma {:induction false} SortedIsUnique<T(!new)>(le: (T, T) -> bool, a: seq<T>, b: seq<T>)
    requires multiset(a) == multiset(b) && Sorted(le, a) && Sorted(le, b) && NoTies(le, a)
    requires forall x :: le(x, x)
    ensures a == b
  {
    assert |multiset(a)| == |a| && |multiset(b)| == |b|;
    if a == [] {
    } else {
      HeadsAgree(le, a, b);
      MultisetOfTail(a);
      MultisetOfTail(b);
      SortedIsUnique(le, a[1..], b[1..]);
      assert a == [a[0]] + a[1..] && b == [b[0]] + b[1..];
    }
  }

  /** Sorting forgets the original arrangement, as long as no two different elements tie. */
  lemma SortForgetsOrder<T(!new)>(le: (T, T) -> bool, a: seq<T>, b: seq<T>)
    requires TotalPreorder(le) && multiset(a) == multiset(b) && NoTies(le, a)
    ensures Sort(le, a) == Sort(le, b)
  {
    SortIsSorted(le, a);
    SortIsSorted(le, b);
    forall x | x in Sort(le, a) ensures x in a {
      assert x in multiset(Sort(le, a));
    }
    SortedIsUnique(le, Sort(le, a), Sort(le, b));
  }

  /** Whatever truncation drops does not rank above what it keeps. */
  lemma TakeKeepsTheBest<T(!new)>(le: (T, T) -> bool, s: seq<T>, n: int, kept: T, dropped: T)
    requires TotalPreorder(le)
    requires kept in Take(Sort(le, s), n)
    requires dropped in s && dropped !in Take(Sort(le, s), n)
    ensures le(kept, dropped)
  {
    SortIsSorted(le, s);
    var sorted := Sort(le, s);
    assert dropped in multiset(sorted);
    var i :| 0 <= i < |Take(sorted, n)| && Take(sorted, n)[i] == kept;
    var j :| 0 <= j < |sorted| && sorted[j] == dropped;
    assert forall k | 0 <= k < |Take(sorted, n)| :: sorted[k] == Take(sorted, n)[k] && sorted[k] in Take(sorted, n);
  }

  /** A slice is a prefix, of n elements or without the last -n, as far as there are that many. */
  lemma TakeIsASlice<T>(s: seq<T>, n: int)
    ensures Take(s, n) <= s
    ensures 0 <= n <= |s| ==> |Take(s, n)| == n
    ensures n > |s| ==> Take(s, n) == s
    ensures n < 0 ==> |Take(s, n)| == if |s| + n > 0 then |s| + n else 0
  {
  }

  /** Whatever is sorted and sliced comes from the list; what is missing was cut off, so the slice is full. */
  lemma TakeOfSorted<T(!new)>(le: (T, T) -> bool, s: seq<T>, n: int, x: T)
    requires TotalPreorder(le)
    ensures x in Take(Sort(le, s), n) ==> x in s
    ensures x in s && x !in Take(Sort(le, s), n) && n >= 0 ==> |Take(Sort(le, s), n)| == n < |s|
  {
    SortIsSorted(le, s);
    assert x in s <==> x in multiset(Sort(le, s));
    assert |Sort(le, s)| == |multiset(Sort(le, s))| == |multiset(s)| == |s|;
  }

  /** What a loop collects that appends `judge(x).value` for each `x`, or nothing. */
  function Collect<A, B>(judge: A -> Option<B>, s: seq<A>): seq<B> {
    if s == [] then []
    else Collect(judge, s[..|s| - 1]) + (if judge(s[|s| - 1]).Some? then [judge(s[|s| - 1]).value] else [])
  }

  lemma {:induction false} CollectSplits<A, B>(judge: A -> Option<B>, a: seq<A>, b: seq<A>)
    ensures Collect(judge, a + b) == Collect(judge, a) + Collect(judge, b)
    decreases |b|
  {
    if b == [] {
      assert a + b == a;
    } else {
      assert (a + b)[..|a + b| - 1] == a + b[..|b| - 1];
      CollectSplits(judge, a, b[..|b| - 1]);
    }
  }

  lemma {:induction false} CollectedComesFrom<A, B>(judge: A -> Option<B>, s: seq<A>, y: B)
    requires y in Collect(judge, s)
    ensures exists x | x in s :: judge(x) == Some(y)
  {
    var last := s[|s| - 1];
    if judge(last) != Some(y) {
      CollectedComesFrom(judge, s[..|s| - 1], y);
      var x :| x in s[..|s| - 1] && judge(x) == Some(y);
      assert x in s;
    }
  }

  lemma {:induction false} CollectMissesNone<A, B>(judge: A -> Option<B>, s: seq<A>, x: A)
    requires x in s && judge(x).Some?
    ensures judge(x).value in Collect(judge, s)
  {
    assert s == s[..|s| - 1] + [s[|s| - 1]];
    if x != s[|s| - 1] {
      CollectMissesNone(judge, s[..|s| - 1], x);
    }
  }

  lemma CollectMovesToFront<A, B>(judge: A -> Option<B>, before: seq<A>, x: A, after: seq<A>)
    ensures multiset(Collect(judge, before + ([x] + after))) == multiset(Collect(judge, [x] + (before + after)))
  {
    CollectSplits(judge, before, [x] + after);
    CollectSplits(judge, [x], after);
    CollectSplits(judge, [x], before + after);
    CollectSplits(judge, before, after);
  }

  lemma CollectBehind<A, B>(judge: A -> Option<B>, x: A, a: seq<A>, b: seq<A>)
    requires multiset(Collect(judge, a)) == multiset(Collect(judge, b))
    ensures multiset(Collect(judge, [x] + a)) == multiset(Collect(judge, [x] + b))
  {
    CollectSplits(judge, [x], a);
    CollectSplits(judge, [x], b);
  }

  lemma EmptyTogether<A>(a: seq<A>, b: seq<A>)
    requires multiset(a) == multiset(b)
    ensures a == [] <==> b == []
  {
    assert |multiset(a)| == |a| && |multiset(b)| == |b|;
  }

  lemma CollectAroundOne<A, B>(judge: A -> Option<B>, x: A, rest: seq<A>, before: seq<A>, after: seq<A>)
    requires multiset(Collect(judge, rest)) == multiset(Collect(judge, before + after))
    ensures multiset(Collect(judge, [x] + rest)) == multiset(Collect(judge, before + ([x] + after)))
  {
    CollectBehind(judge, x, rest, before + after);
    CollectMovesToFront(judge, before, x, after);
  }

  /** Collecting from a rearrangement collects a rearrangement. */
  lemma {:induction false} CollectForgetsOrder<A, B>(judge: A -> Option<B>, a: seq<A>, b: seq<A>)
    requires multiset(a) == multiset(b)
    ensures multiset(Collect(judge, a)) == multiset(Collect(judge, b))
    decreases |a|
  {
    EmptyTogether(a, b);
    if a == [] {
    } else {
      var before, after := SplitAt(b, a[0]);
      MultisetOfTail(a);
      CollectForgetsOrder(judge, a[1..], before + after);
      CollectAroundOne(judge, a[0], a[1..], before, after);
      assert a == [a[0]] + a[1..];
    }
  }

  lemma SplitAt<A>(s: seq<A>, x: A) returns (before: seq<A>, after: seq<A>)
    requires x in multiset(s)
    ensures s == before + ([x] + after)
    ensures multiset(s) == multiset(before + after) + multiset{x}
  {
    var i :| 0 <= i < |s| && s[i] == x;
    before, after := s[..i], s[i + 1..];
  }
}
