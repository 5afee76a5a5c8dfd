/** The priority table, with the partial update and the atomic re-ranking the priorities
    screen uses. */
module PriorityRepo {
  import opened Common
  import opened Seqs
  import opened PriorityEntity

  datatype CreatePriorityInput = CreatePriorityInput(
    userId: Id,
    name: string,
    description: Option<string>,
    order: Option<int>,
    allocatedMinutes: Option<int>)

  datatype UpdatePriorityInput = UpdatePriorityInput(
    name: Option<string>,
    description: Option<string>,
    order: Option<int>,
    allocatedMinutes: Option<int>,
    isActive: Option<bool>)

  function IdOf(p: Priority): Id { p.id }
  function HasId(id: Id): Priority -> bool { (p: Priority) => p.id == id }
  function OfUser(userId: Id): Priority -> bool { (p: Priority) => p.userId == userId }
  function ActiveOf(userId: Id): Priority -> bool { (p: Priority) => p.userId == userId && p.isActive }

  /** `orderBy: { order: 'asc' }`. */
  function OrderAsc(a: Priority, b: Priority): bool { a.order <= b.order }

  predicate TableValid(priorities: seq<Priority>, nextId: Id) {
    KeysUnique(priorities, IdOf) && IdsBelow(priorities, IdOf, nextId)
  }

  /** The priority `create` stores: order and allocated minutes default to 0, and a new
      priority is active. */
  function NewPriority(id: Id, data: CreatePriorityInput): (p: Priority)
    ensures p.id == id && p.userId == data.userId && p.name == data.name && p.isActive
    ensures p.description == data.description
    ensures p.order == (if data.order.Some? then data.order.value else 0)
    ensures p.allocatedMinutes == (if data.allocatedMinutes.Some? then data.allocatedMinutes.value else 0)
  {
    Priority(id, data.userId, data.name, data.description, data.order.GetOr(0),
             data.allocatedMinutes.GetOr(0), true)
  }

  /** The priority `update` writes: the provided fields and nothing else. */
  function ApplyUpdate(p: Priority, data: UpdatePriorityInput): (q: Priority)
    ensures q.id == p.id && q.userId == p.userId
    ensures q.name == (if data.name.Some? then data.name.value else p.name)
    ensures q.description == (if data.description.Some? then data.description else p.description)
    ensures q.order == (if data.order.Some? then data.order.value else p.order)
    ensures q.allocatedMinutes == (if data.allocatedMinutes.Some? then data.allocatedMinutes.value else p.allocatedMinutes)
    ensures q.isActive == (if data.isActive.Some? then data.isActive.value else p.isActive)
  {
    Priority(p.id, p.userId, data.name.GetOr(p.name),
             if data.description.Some? then data.description else p.description,
             data.order.GetOr(p.order), data.allocatedMinutes.GetOr(p.allocatedMinutes),
             data.isActive.GetOr(p.isActive))
  }

  /** A priority after the writes `order := index + 1` for the listed ids, applied in list
      order. */
  function Reordered(p: Priority, ids: seq<Id>): (q: Priority)
    ensures q.(order := p.order) == p
  {
    if ids == [] then p
    else
      var q := Reordered(p, ids[..|ids| - 1]);
      if ids[|ids| - 1] == p.id then q.(order := |ids|) else q
  }

  /** A priority that is not listed keeps its order. */
  lemma {:induction false} ReorderedUnlisted(p: Priority, ids: seq<Id>)
    requires p.id !in ids
    ensures Reordered(p, ids) == p
  {
    if ids != [] {
      ReorderedUnlisted(p, ids[..|ids| - 1]);
    }
  }

  /** In a list without repetitions, the priority listed at position k gets order k + 1. */
  lemma {:induction false} ReorderedListed(p: Priority, ids: seq<Id>, k: nat)
    requires k < |ids| && ids[k] == p.id
    requires forall i, j :: 0 <= i < j < |ids| ==> ids[i] != ids[j]
    ensures Reordered(p, ids).order == k + 1
  {
    var front := ids[..|ids| - 1];
    if k < |ids| - 1 {
      assert front[k] == p.id;
      ReorderedListed(p, front, k);
    }
  }

  /** One step of `reorder`: writing order n + 1 on the row holding the n-th listed id
      extends the writes already made for the ids before it. */
  lemma ReorderStep(original: seq<Priority>, current: seq<Priority>, ids: seq<Id>, n: nat, i: nat)
    requires n < |ids| && |current| == |original| && i < |current| && current[i].id == ids[n]
    requires KeysUnique(current, IdOf)
    requires forall k :: 0 <= k < |current| ==> current[k] == Reordered(original[k], ids[..n])
    ensures forall k :: 0 <= k < |current| ==>
              current[i := current[i].(order := n + 1)][k] == Reordered(original[k], ids[..n + 1])
  {
    assert ids[..n + 1][..n] == ids[..n];
    forall k | 0 <= k < |current|
      ensures current[i := current[i].(order := n + 1)][k] == Reordered(original[k], ids[..n + 1])
    {
      if k != i {
        assert IdOf(current[k]) != IdOf(current[i]);
      }
    }
  }

  /** Changing a row's order leaves its id, so the table stays valid. */
  lemma WithOrderKeepsTable(ps: seq<Priority>, i: nat, order: int, nextId: Id)
    requires i < |ps| && TableValid(ps, nextId)
    ensures TableValid(ps[i := ps[i].(order := order)], nextId)
  {
    var qs := ps[i := ps[i].(order := order)];
    assert forall k :: 0 <= k < |qs| ==> IdOf(qs[k]) == IdOf(ps[k]);
  }

  class PriorityRepository {
    var priorities: seq<Priority>
    var nextId: Id

    predicate Valid()
      reads this
    {
      TableValid(priorities, nextId)
    }

    constructor()
      ensures Valid() && priorities == []
    {
      priorities := [];
      nextId := 0;
    }

    function FindById(id: Id): (r: Option<Priority>)
      reads this
      ensures r.Some? ==> r.value in priorities && r.value.id == id
      ensures r.None? ==> forall p :: p in priorities ==> p.id != id
    {
      Find(priorities, HasId(id))
    }

    /** All of the user's priorities, by rank. */
    function FindByUser(userId: Id): (r: seq<Priority>)
      reads this
      ensures multiset(r) == multiset(Filter(priorities, OfUser(userId)))
      ensures forall p :: p in r <==> p in priorities && p.userId == userId
      ensures Sorted(r, OrderAsc)
    {
      var r := SortBy(Filter(priorities, OfUser(userId)), OrderAsc);
      assert forall p :: p in r <==> p in multiset(r);
      r
    }

    /** The user's active priorities, by rank. */
    function FindActiveByUser(userId: Id): (r: seq<Priority>)
      reads this
      ensures multiset(r) == multiset(Filter(priorities, ActiveOf(userId)))
      ensures forall p :: p in r <==> p in priorities && p.userId == userId && p.isActive
      ensures Sorted(r, OrderAsc)
    {
      var r := SortBy(Filter(priorities, ActiveOf(userId)), OrderAsc);
      r
    }

    /** The number of the user's active priorities. */
    function CountActiveByUser(userId: Id): (n: nat)
      reads this
      ensures n == |FindActiveByUser(userId)|
    {
      |Filter(priorities, ActiveOf(userId))|
    }

    method Create(data: CreatePriorityInput) returns (p: Priority)
      requires Valid()
      modifies this
      ensures Valid()
      ensures p == NewPriority(old(nextId), data)
      ensures priorities == old(priorities) + [p] && nextId == old(nextId) + 1
    {
      p := NewPriority(nextId, data);
      priorities := priorities + [p];
      nextId := nextId + 1;
    }

    /** `update`; a missing id is an error and changes nothing. */
    method Update(id: Id, data: UpdatePriorityInput) returns (r: Option<Priority>)
      requires Valid()
      modifies this
      ensures Valid() && nextId == old(nextId)
      ensures r.None? <==> old(FindById(id)).None?
      ensures r.None? ==> priorities == old(priorities)
      ensures r.Some? ==>
        var i := IndexWhere(old(priorities), HasId(id));
        0 <= i && r.value == ApplyUpdate(old(priorities)[i], data) && priorities == old(priorities)[i := r.value]
    {
      var i := IndexWhere(priorities, HasId(id));
      if i == -1 {
        return None;
      }
      var q := ApplyUpdate(priorities[i], data);
      priorities := priorities[i := q];
      r := Some(q);
    }

    /** `delete`; the remaining priorities keep their ranks. */
    method Delete(id: Id) returns (deleted: bool)
      requires Valid()
      modifies this
      ensures Valid() && nextId == old(nextId)
      ensures deleted <==> old(FindById(id)).Some?
      ensures !deleted ==> priorities == old(priorities)
      ensures deleted ==> priorities == RemoveAt(old(priorities), IndexWhere(old(priorities), HasId(id)))
    {
      var i := IndexWhere(priorities, HasId(id));
      if i == -1 {
        return false;
      }
      priorities := RemoveAt(priorities, i);
      deleted := true;
    }

    /** `reorder`: one transaction that gives the i-th listed id order i + 1. A missing id
        aborts the transaction, so either every write happens or none does. */
    method Reorder(userId: Id, ids: seq<Id>) returns (ok: bool)
      requires Valid()
      modifies this
      ensures Valid() && nextId == old(nextId)
      ensures ok <==> forall id :: id in ids ==> old(FindById(id)).Some?
      ensures !ok ==> priorities == old(priorities)
      ensures ok ==> |priorities| == |old(priorities)|
                     && forall k :: 0 <= k < |priorities| ==> priorities[k] == Reordered(old(priorities)[k], ids)
    {
      var n := 0;
      while n < |ids|
        invariant 0 <= n <= |ids|
        invariant forall m :: 0 <= m < n ==> IndexWhere(priorities, HasId(ids[m])) >= 0
      {
        if IndexWhere(priorities, HasId(ids[n])) == -1 {
          assert ids[n] in ids && FindById(ids[n]).None?;
          return false;
        }
        n := n + 1;
      }
      ghost var original := priorities;
      n := 0;
      while n < |ids|
        invariant 0 <= n <= |ids|
        invariant |priorities| == |original|
        invariant forall k :: 0 <= k < |priorities| ==> priorities[k] == Reordered(original[k], ids[..n])
        invariant Valid() && nextId == old(nextId)
      {
        ghost var j := IndexWhere(original, HasId(ids[n]));
        assert priorities[j].id == ids[n];
        var i := IndexWhere(priorities, HasId(ids[n]));
        ReorderStep(original, priorities, ids, n, i);
        WithOrderKeepsTable(priorities, i, n + 1, nextId);
        priorities := priorities[i := priorities[i].(order := n + 1)];
        n := n + 1;
      }
      assert ids[..|ids|] == ids;
      ok := true;
    }
  }

  /** The active count is the size of the active listing, so at most the size of the
      user's whole listing. */
  lemma ActiveCountAtMostAll(repo: PriorityRepository, userId: Id)
    ensures repo.CountActiveByUser(userId) <= |repo.FindByUser(userId)|
  {
    var all := Filter(repo.priorities, OfUser(userId));
    var active := Filter(repo.priorities, ActiveOf(userId));
    assert active == Filter(all, ActiveOf(userId)) by {
      FilterOfFilter(repo.priorities, userId);
    }
  }

  lemma {:induction false} FilterOfFilter(s: seq<Priority>, userId: Id)
    ensures Filter(s, ActiveOf(userId)) == Filter(Filter(s, OfUser(userId)), ActiveOf(userId))
  {
    if s != [] {
      FilterOfFilter(s[1..], userId);
      FilterConcat(if OfUser(userId)(s[0]) then [s[0]] else [], Filter(s[1..], OfUser(userId)), ActiveOf(userId));
    }
  }
}
