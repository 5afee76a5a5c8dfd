/** The elimination table: the activities each user has dropped, stamped with the time they
    were dropped, and the minutes recovered by them. */
module EliminationRepo {
  import opened Common
  import opened Seqs
  import opened EliminationEntity

  datatype CreateEliminationInput = CreateEliminationInput(
    userId: Id,
    activityName: string,
    reason: Option<string>,
    recoveredMinutes: Option<int>)

  function IdOf(e: Elimination): Id { e.id }
  function HasId(id: Id): Elimination -> bool { (e: Elimination) => e.id == id }
  function OfUser(userId: Id): Elimination -> bool { (e: Elimination) => e.userId == userId }

  /** `orderBy: { eliminatedAt: 'desc' }`. */
  function LatestFirst(a: Elimination, b: Elimination): bool { a.eliminatedAt >= b.eliminatedAt }

  predicate TableValid(eliminations: seq<Elimination>, nextId: Id) {
    KeysUnique(eliminations, IdOf) && IdsBelow(eliminations, IdOf, nextId)
  }

  /** The row `create` stores: no recovered minutes unless given, dropped at `now`. */
  function NewElimination(id: Id, data: CreateEliminationInput, now: Instant): (e: Elimination)
    ensures e.id == id && e.userId == data.userId && e.activityName == data.activityName
    ensures e.reason == data.reason && e.eliminatedAt == now
    ensures e.recoveredMinutes == (if data.recoveredMinutes.Some? then data.recoveredMinutes.value else 0)
  {
    Elimination(id, data.userId, data.activityName, data.reason, data.recoveredMinutes.GetOr(0), now)
  }

  class EliminationRepository {
    var eliminations: seq<Elimination>
    var nextId: Id

    predicate Valid()
      reads this
    {
      TableValid(eliminations, nextId)
    }

    constructor()
      ensures Valid() && eliminations == []
    {
      eliminations := [];
      nextId := 0;
    }

    function FindById(id: Id): (r: Option<Elimination>)
      reads this
      ensures r.Some? ==> r.value in eliminations && r.value.id == id
      ensures r.None? ==> forall e :: e in eliminations ==> e.id != id
    {
      Find(eliminations, HasId(id))
    }

    /** The user's eliminations, most recent first. */
    function FindByUser(userId: Id): (r: seq<Elimination>)
      reads this
      ensures multiset(r) == multiset(Filter(eliminations, OfUser(userId)))
      ensures forall e :: e in r <==> e in eliminations && e.userId == userId
      ensures Sorted(r, LatestFirst)
    {
      SortBy(Filter(eliminations, OfUser(userId)), LatestFirst)
    }

    /** The `_sum` of recovered minutes over the user's rows, 0 when there are none: the
        total the listing of the user's eliminations adds up to. */
    function SumRecoveredMinutes(userId: Id): (r: int)
      reads this
      ensures r == TotalRecoveredTime(FindByUser(userId))
      ensures (forall e :: e in eliminations ==> e.userId != userId) ==> r == 0
    {
      var mine := Filter(eliminations, OfUser(userId));
      TotalIgnoresOrder(mine, FindByUser(userId));
      TotalRecoveredTime(mine)
    }

    /** `create`, stamped with `now`. */
    method Create(data: CreateEliminationInput, now: Instant) returns (e: Elimination)
      requires Valid()
      modifies this
      ensures Valid()
      ensures e == NewElimination(old(nextId), data, now)
      ensures eliminations == old(eliminations) + [e] && nextId == old(nextId) + 1
    {
      e := NewElimination(nextId, data, now);
      eliminations := eliminations + [e];
      nextId := nextId + 1;
    }

    /** `delete`; a missing id is an error and changes nothing. */
    method Delete(id: Id) returns (deleted: bool)
      requires Valid()
      modifies this
      ensures Valid() && nextId == old(nextId)
      ensures deleted <==> old(FindById(id)).Some?
      ensures !deleted ==> eliminations == old(eliminations)
      ensures deleted ==> eliminations == RemoveAt(old(eliminations), IndexWhere(old(eliminations), HasId(id)))
    {
      var i := IndexWhere(eliminations, HasId(id));
      if i == -1 {
        return false;
      }
      eliminations := RemoveAt(eliminations, i);
      deleted := true;
    }
  }

  /** Adding an elimination raises its owner's recovered total by exactly its minutes and
      leaves every other user's total alone. */
  lemma CreateAddsToOwnerTotal(before: seq<Elimination>, e: Elimination, userId: Id)
    ensures TotalRecoveredTime(Filter(before + [e], OfUser(userId)))
            == TotalRecoveredTime(Filter(before, OfUser(userId)))
               + (if e.userId == userId then e.recoveredMinutes else 0)
  {
    FilterConcat(before, [e], OfUser(userId));
    TotalOfConcat(Filter(before, OfUser(userId)), Filter([e], OfUser(userId)));
    assert Filter([e], OfUser(userId)) == if e.userId == userId then [e] else [];
    TotalOfConcat([], [e]);
  }
}
