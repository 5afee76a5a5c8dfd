/** The collection operations the repositories are built from: Prisma's `where` (Filter),
    `orderBy` (SortBy), `skip`/`take` (Page), `findUnique`/`findFirst` (Find) and the
    `reduce`/`_sum` aggregations (SumBy). */
module Seqs {
  import opened Common

  /** The elements of `s` satisfying `p`, in their original order. */
  function Filter<T(!new)>(s: seq<T>, p: T -> bool): (r: seq<T>)
    ensures |r| <= |s|
    ensures forall x :: x in r <==> x in s && p(x)
    ensures forall k :: 0 <= k < |r| ==> p(r[k])
    ensures multiset(r) <= multiset(s)
  {
    if s == [] then []
    else
      assert s == [s[0]] + s[1..];
      (if p(s[0]) then [s[0]] else []) + Filter(s[1..], p)
  }

  /** Filtering keeps every element of a run that satisfies the predicate. */
  lemma {:induction false} FilterAll<T(!new)>(s: seq<T>, p: T -> bool)
    requires forall k :: 0 <= k < |s| ==> p(s[k])
    ensures Filter(s, p) == s
  {
    if s != [] {
      FilterAll(s[1..], p);
    }
  }

  /** Filtering distributes over concatenation. */
  lemma {:induction false} FilterConcat<T(!new)>(a: seq<T>, b: seq<T>, p: T -> bool)
    ensures Filter(a + b, p) == Filter(a, p) + Filter(b, p)
  {
    if a == [] {
      assert a + b == b;
    } else {
      assert (a + b)[1..] == a[1..] + b;
      FilterConcat(a[1..], b, p);
    }
  }

  /** Replacing one element changes the size of a filter by at most the two elements'
      membership: the old one leaves, the new one enters. */
  lemma FilterReplaceCount<T(!new)>(s: seq<T>, i: nat, x: T, p: T -> bool)
    requires i < |s|
    ensures |Filter(s[i := x], p)| == |Filter(s, p)| - (if p(s[i]) then 1 else 0) + (if p(x) then 1 else 0)
  {
    assert s == s[..i] + [s[i]] + s[i + 1..];
    assert s[i := x] == s[..i] + [x] + s[i + 1..];
    FilterConcat(s[..i] + [s[i]], s[i + 1..], p);
    FilterConcat(s[..i], [s[i]], p);
    FilterConcat(s[..i] + [x], s[i + 1..], p);
    FilterConcat(s[..i], [x], p);
  }

  /** The sum of `f` over `s` (`s.reduce((t, x) => t + f(x), 0)`). */
  function SumBy<T>(s: seq<T>, f: T -> int): int {
    if s == [] then 0 else f(s[0]) + SumBy(s[1..], f)
  }

  /** The sum of a concatenation is the sum of the sums. */
  lemma {:induction false} SumByConcat<T>(a: seq<T>, b: seq<T>, f: T -> int)
    ensures SumBy(a + b, f) == SumBy(a, f) + SumBy(b, f)
  {
    if a == [] {
      assert a + b == b;
    } else {
      assert (a + b)[1..] == a[1..] + b;
      SumByConcat(a[1..], b, f);
    }
  }

  /** The sum does not depend on the order of the elements. */
  lemma {:induction false} SumByPermutation<T>(a: seq<T>, b: seq<T>, f: T -> int)
    requires multiset(a) == multiset(b)
    ensures SumBy(a, f) == SumBy(b, f)
    decreases |a|
  {
    if a != [] {
      assert a[0] in multiset(b);
      var i :| 0 <= i < |b| && b[i] == a[0];
      RestPermutation(a, b, i);
      SumByPermutation(a[1..], b[..i] + b[i + 1..], f);
      SumByWithout(b, i, f);
    }
  }

  /** Taking the first element out of `a` and a copy of it out of `b` leaves two
      permutations of each other. */
  lemma RestPermutation<T>(a: seq<T>, b: seq<T>, i: nat)
    requires multiset(a) == multiset(b) && a != [] && i < |b| && b[i] == a[0]
    ensures multiset(a[1..]) == multiset(b[..i] + b[i + 1..])
  {
    assert a == [a[0]] + a[1..];
    assert b == b[..i] + [b[i]] + b[i + 1..];
    var rest := b[..i] + b[i + 1..];
    assert multiset(b) == multiset(rest) + multiset{a[0]};
    assert multiset(a) == multiset(a[1..]) + multiset{a[0]};
    forall y
      ensures multiset(a[1..])[y] == multiset(rest)[y]
    {
      assert multiset(a)[y] == multiset(b)[y];
    }
  }

  /** The sum is the element at `i` plus the sum of the others. */
  lemma SumByWithout<T>(b: seq<T>, i: nat, f: T -> int)
    requires i < |b|
    ensures SumBy(b, f) == f(b[i]) + SumBy(b[..i] + b[i + 1..], f)
  {
    assert b == b[..i] + ([b[i]] + b[i + 1..]);
    SumByConcat(b[..i], [b[i]] + b[i + 1..], f);
    SumByConcat([b[i]], b[i + 1..], f);
    SumByConcat(b[..i], b[i + 1..], f);
  }

  /** Summing a non-negative quantity over part of a list gives at most the whole sum. */
  lemma {:induction false} SumByFilterLe<T(!new)>(s: seq<T>, p: T -> bool, f: T -> int)
    requires forall k :: 0 <= k < |s| ==> f(s[k]) >= 0
    ensures 0 <= SumBy(Filter(s, p), f) <= SumBy(s, f)
  {
    if s != [] {
      SumByFilterLe(s[1..], p, f);
      SumByConcat(if p(s[0]) then [s[0]] else [], Filter(s[1..], p), f);
    }
  }

  /** A non-negative quantity sums to at least each of its terms. */
  lemma {:induction false} SumByBounds<T>(s: seq<T>, f: T -> int)
    requires forall k :: 0 <= k < |s| ==> f(s[k]) >= 0
    ensures SumBy(s, f) >= 0
    ensures forall k :: 0 <= k < |s| ==> f(s[k]) <= SumBy(s, f)
  {
    if s != [] {
      SumByBounds(s[1..], f);
      assert forall k :: 1 <= k < |s| ==> s[k] == s[1..][k - 1];
    }
  }

  /** `le` is a total preorder: what an `orderBy` comparison on one field is. */
  ghost predicate TotalPreorder<T(!new)>(le: (T, T) -> bool) {
    && (forall a, b :: le(a, b) || le(b, a))
    && (forall a, b, c :: le(a, b) && le(b, c) ==> le(a, c))
  }

  predicate Sorted<T>(s: seq<T>, le: (T, T) -> bool) {
    forall i, j :: 0 <= i < j < |s| ==> le(s[i], s[j])
  }

  /** Inserts `x` into a sorted list before the first element it does not follow. */
  function Insert<T(!new)>(x: T, s: seq<T>, le: (T, T) -> bool): (r: seq<T>)
    requires TotalPreorder(le) && Sorted(s, le)
    ensures Sorted(r, le)
    ensures multiset(r) == multiset(s) + multiset{x}
    ensures forall y :: y in r <==> y == x || y in s
    ensures |r| == |s| + 1
  {
    if s == [] then [x]
    else if le(x, s[0]) then [x] + s
    else
      var rest := Insert(x, s[1..], le);
      forall y | y in s[1..]
        ensures le(s[0], y)
      {
        var k :| 0 <= k < |s[1..]| && s[1..][k] == y;
        assert s[k + 1] == y;
      }
      assert forall j :: 0 <= j < |rest| ==> rest[j] in rest;
      assert s == [s[0]] + s[1..];
      [s[0]] + rest
  }

  /** Prisma's `orderBy`: the elements of `s` arranged so that `le` holds between every
      earlier and later element. */
  function SortBy<T(!new)>(s: seq<T>, le: (T, T) -> bool): (r: seq<T>)
    requires TotalPreorder(le)
    ensures Sorted(r, le)
    ensures multiset(r) == multiset(s)
    ensures forall y :: y in r <==> y in s
    ensures |r| == |s|
  {
    if s == [] then []
    else
      assert s == [s[0]] + s[1..];
      Insert(s[0], SortBy(s[1..], le), le)
  }

  /** `orderBy … take: n`: the first `n` elements of `s` in the order `le`, or all of them
      when there are fewer. */
  function TopBy<T(!new)>(s: seq<T>, le: (T, T) -> bool, n: nat): (r: seq<T>)
    requires TotalPreorder(le)
    ensures |r| <= n && (|r| == |s| || |r| == n)
    ensures Sorted(r, le)
    ensures forall x :: x in r ==> x in s
    ensures exists all :: multiset(all) == multiset(s) && Sorted(all, le) && r == all[..if n <= |all| then n else |all|]
  {
    var all := SortBy(s, le);
    var r := all[..if n <= |all| then n else |all|];
    assert forall x :: x in r ==> x in all;
    r
  }

  /** Filtering a sorted list leaves it sorted. */
  lemma {:induction false} FilterKeepsSorted<T(!new)>(s: seq<T>, p: T -> bool, le: (T, T) -> bool)
    requires Sorted(s, le)
    ensures Sorted(Filter(s, p), le)
  {
    if s != [] {
      FilterKeepsSorted(s[1..], p, le);
      var rest := Filter(s[1..], p);
      forall j | 0 <= j < |rest|
        ensures le(s[0], rest[j])
      {
        assert rest[j] in s[1..];
        var k :| 0 <= k < |s[1..]| && s[1..][k] == rest[j];
        assert s[k + 1] == rest[j];
      }
    }
  }

  /** `[...s].reverse()`. */
  function Reverse<T>(s: seq<T>): (r: seq<T>)
    ensures |r| == |s|
    ensures forall k :: 0 <= k < |s| ==> r[k] == s[|s| - 1 - k]
  {
    if s == [] then [] else Reverse(s[1..]) + [s[0]]
  }

  /** Prisma's `skip: offset, take: limit`: drop the first `offset` elements, then keep at
      most `limit`; an absent option does nothing. */
  function Page<T>(s: seq<T>, offset: Option<nat>, limit: Option<nat>): (r: seq<T>)
    ensures var skip := if offset.Some? && offset.value <= |s| then offset.value
                        else if offset.Some? then |s| else 0;
            && (limit.None? ==> r == s[skip..])
            && (limit.Some? ==> r == s[skip..][..if limit.value <= |s| - skip then limit.value else |s| - skip])
  {
    var rest := if offset.None? then s else if offset.value <= |s| then s[offset.value..] else [];
    if limit.Some? && limit.value < |rest| then rest[..limit.value] else rest
  }

  /** The position of the first element satisfying `p`, or -1 when there is none. */
  function IndexWhere<T>(s: seq<T>, p: T -> bool): (i: int)
    ensures -1 <= i < |s|
    ensures i >= 0 ==> p(s[i]) && forall k :: 0 <= k < i ==> !p(s[k])
    ensures i == -1 ==> forall k :: 0 <= k < |s| ==> !p(s[k])
  {
    if s == [] then -1
    else if p(s[0]) then 0
    else
      var j := IndexWhere(s[1..], p);
      if j == -1 then -1 else j + 1
  }

  /** Prisma's `findUnique` / `findFirst`: the first element satisfying `p`, if any. */
  function Find<T(!new)>(s: seq<T>, p: T -> bool): (r: Option<T>)
    ensures r.Some? ==> r.value in s && p(r.value)
    ensures r.None? ==> forall x :: x in s ==> !p(x)
  {
    var i := IndexWhere(s, p);
    if i == -1 then None else Some(s[i])
  }

  /** No two elements share a key (a primary key or a unique constraint). */
  predicate KeysUnique<T, K(==)>(s: seq<T>, key: T -> K) {
    forall i, j :: 0 <= i < j < |s| ==> key(s[i]) != key(s[j])
  }

  /** Every key is below `bound`, so `bound` is free for the next record. */
  predicate IdsBelow<T>(s: seq<T>, id: T -> Id, bound: Id) {
    forall k :: 0 <= k < |s| ==> id(s[k]) < bound
  }

  /** Overwriting the element just appended is appending the new one instead. */
  lemma SetAppended<T>(s: seq<T>, x: T, y: T)
    ensures (s + [x])[|s| := y] == s + [y]
  {
  }

  /** Removing the element at `i` (a `delete where id`). */
  function RemoveAt<T>(s: seq<T>, i: nat): (r: seq<T>)
    requires i < |s|
    ensures |r| == |s| - 1
    ensures forall k :: 0 <= k < i ==> r[k] == s[k]
    ensures forall k :: i <= k < |r| ==> r[k] == s[k + 1]
  {
    s[..i] + s[i + 1..]
  }
}
