/** Prisma's `groupBy` with a `_sum`: the distinct keys of a list, in order of first
    appearance, and the per-key totals, which add up to the total of the whole list. */
module Grouping {
  import opened Seqs

  /** The elements whose key is `k`. */
  function KeyIs<T, K(==)>(key: T -> K, k: K): T -> bool {
    (x: T) => key(x) == k
  }

  /** The keys occurring in `s`, each once, in order of first appearance. */
  function DistinctKeys<T, K(==)>(s: seq<T>, key: T -> K): (ks: seq<K>)
    ensures forall i, j :: 0 <= i < j < |ks| ==> ks[i] != ks[j]
    ensures forall i :: 0 <= i < |s| ==> key(s[i]) in ks
    ensures forall k :: k in ks ==> exists i :: 0 <= i < |s| && key(s[i]) == k
  {
    if s == [] then []
    else
      var front := s[..|s| - 1];
      var ks := DistinctKeys(front, key);
      assert forall i :: 0 <= i < |front| ==> front[i] == s[i];
      if key(s[|s| - 1]) in ks then ks else ks + [key(s[|s| - 1])]
  }

  /** The position of an element carrying the `j`-th distinct key. */
  lemma KeyWitness<T, K>(s: seq<T>, key: T -> K, j: nat) returns (i: nat)
    requires j < |DistinctKeys(s, key)|
    ensures i < |s| && key(s[i]) == DistinctKeys(s, key)[j]
  {
    var ks := DistinctKeys(s, key);
    assert ks[j] in ks;
    i :| 0 <= i < |s| && key(s[i]) == ks[j];
  }

  /** The total of `f` over the elements with key `k`. */
  function GroupTotal<T(!new), K(==)>(s: seq<T>, key: T -> K, f: T -> int, k: K): int {
    SumBy(Filter(s, KeyIs(key, k)), f)
  }

  /** The group totals of the keys `ks`, added up. */
  function SumGroups<T(!new), K(==)>(ks: seq<K>, s: seq<T>, key: T -> K, f: T -> int): int {
    if ks == [] then 0 else GroupTotal(s, key, f, ks[0]) + SumGroups(ks[1..], s, key, f)
  }

  /** Every group of the empty list is empty. */
  lemma {:induction false} SumGroupsEmpty<T(!new), K>(ks: seq<K>, key: T -> K, f: T -> int)
    ensures SumGroups(ks, [], key, f) == 0
  {
    if ks != [] {
      SumGroupsEmpty(ks[1..], key, f);
    }
  }

  /** Putting `x` in front of the list adds `f(x)` to exactly one group, if its key is
      listed. */
  lemma {:induction false} SumGroupsCons<T(!new), K>(ks: seq<K>, x: T, s: seq<T>, key: T -> K, f: T -> int)
    requires forall i, j :: 0 <= i < j < |ks| ==> ks[i] != ks[j]
    ensures SumGroups(ks, [x] + s, key, f) == SumGroups(ks, s, key, f) + (if key(x) in ks then f(x) else 0)
  {
    if ks != [] {
      var k := ks[0];
      assert ([x] + s)[1..] == s;
      var rest := Filter(s, KeyIs(key, k));
      assert Filter([x] + s, KeyIs(key, k)) == (if key(x) == k then [x] else []) + rest;
      SumByConcat(if key(x) == k then [x] else [], rest, f);
      SumGroupsCons(ks[1..], x, s, key, f);
      assert key(x) in ks <==> key(x) == k || key(x) in ks[1..];
      assert key(x) == k ==> key(x) !in ks[1..];
    }
  }

  /** Group totals over a key list that names every key once add up to the whole total. */
  lemma {:induction false} SumGroupsCovering<T(!new), K>(ks: seq<K>, s: seq<T>, key: T -> K, f: T -> int)
    requires forall i, j :: 0 <= i < j < |ks| ==> ks[i] != ks[j]
    requires forall i :: 0 <= i < |s| ==> key(s[i]) in ks
    ensures SumGroups(ks, s, key, f) == SumBy(s, f)
  {
    if s == [] {
      SumGroupsEmpty(ks, key, f);
    } else {
      assert s == [s[0]] + s[1..];
      SumGroupsCovering(ks, s[1..], key, f);
      SumGroupsCons(ks, s[0], s[1..], key, f);
    }
  }

  /** The per-key totals of a list add up to its total. */
  lemma GroupTotalsAddUp<T(!new), K>(s: seq<T>, key: T -> K, f: T -> int)
    ensures SumGroups(DistinctKeys(s, key), s, key, f) == SumBy(s, f)
  {
    SumGroupsCovering(DistinctKeys(s, key), s, key, f);
  }
}
