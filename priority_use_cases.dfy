/** The priority use cases: create under the limit of four active priorities, re-rank,
    update, delete and list. */
module PriorityUseCases {
  import opened Common
  import opened Results
  import opened DomainErrors
  import opened Seqs
  import opened Strings
  import opened PriorityEntity
  import opened PriorityRepo

  const NAME_REQUIRED_MESSAGE: string := "El nombre de la prioridad es requerido"
  const TOO_MANY_IDS_MESSAGE: string := "No puedes tener más de 4 prioridades"
  const NOT_OWNED_MESSAGE: string := "Una o más prioridades no pertenecen al usuario"
  const NEGATIVE_ALLOCATION_MESSAGE: string := "El tiempo asignado debe ser positivo"

  datatype CreatePriorityDto = CreatePriorityDto(name: string, description: Option<string>, allocatedMinutes: Option<int>)

  datatype UpdatePriorityDto = UpdatePriorityDto(
    name: Option<string>,
    description: Option<string>,
    allocatedMinutes: Option<int>,
    isActive: Option<bool>)

  /** `PriorityResponseDto`: the priority without its owner. */
  datatype PriorityResponse = PriorityResponse(
    id: Id,
    name: string,
    description: Option<string>,
    order: int,
    allocatedMinutes: int,
    isActive: bool)

  function ToResponse(p: Priority): (d: PriorityResponse)
    ensures d.id == p.id && d.name == p.name && d.description == p.description
    ensures d.order == p.order && d.allocatedMinutes == p.allocatedMinutes && d.isActive == p.isActive
  {
    PriorityResponse(p.id, p.name, p.description, p.order, p.allocatedMinutes, p.isActive)
  }

  /** The responses for a listing, one per priority, in the listing's order. */
  function Responses(ps: seq<Priority>): (r: seq<PriorityResponse>)
    ensures |r| == |ps|
    ensures forall k :: 0 <= k < |ps| ==> r[k] == ToResponse(ps[k])
    ensures forall p :: p in ps ==> ToResponse(p) in r
    ensures Sorted(ps, OrderAsc) ==> forall i, j :: 0 <= i < j < |r| ==> r[i].order <= r[j].order
  {
    var r := seq(|ps|, k requires 0 <= k < |ps| => ToResponse(ps[k]));
    assert forall k :: 0 <= k < |ps| ==> r[k] == ToResponse(ps[k]) && r[k] in r;
    assert Sorted(ps, OrderAsc) ==> forall i, j :: 0 <= i < j < |ps| ==> OrderAsc(ps[i], ps[j]);
    r
  }

  /** The number of the user's active priorities in a table. */
  function ActiveCount(priorities: seq<Priority>, userId: Id): nat {
    |Filter(priorities, ActiveOf(userId))|
  }

  /** Appending an active priority of the user adds exactly one to the user's active
      count; appending anything else leaves it as it is. */
  lemma AppendActiveCount(before: seq<Priority>, p: Priority, userId: Id)
    ensures ActiveCount(before + [p], userId) ==
            ActiveCount(before, userId) + (if p.userId == userId && p.isActive then 1 else 0)
  {
    FilterConcat(before, [p], ActiveOf(userId));
  }

  /** The record `CreatePriorityUseCase` hands to the repository: trimmed texts, the next
      rank after the active ones, and 0 minutes unless given. */
  function CreateInput(userId: Id, dto: CreatePriorityDto, activeCount: nat): (data: CreatePriorityInput)
    ensures data.userId == userId && data.name == Trim(dto.name) && data.description == TrimOpt(dto.description)
    ensures data.order == Some(activeCount + 1)
    ensures data.allocatedMinutes == Some(if dto.allocatedMinutes.Some? then dto.allocatedMinutes.value else 0)
  {
    CreatePriorityInput(userId, Trim(dto.name), TrimOpt(dto.description), Some(activeCount + 1),
                        Some(dto.allocatedMinutes.GetOr(0)))
  }

  /** `CreatePriorityUseCase.execute`. A blank name is rejected first, then a user who
      already has four active priorities; either failure creates nothing. The new priority
      is active and ranked right after the existing active ones, so creation never takes a
      user past four active priorities. */
  method CreatePriority(repo: PriorityRepository, userId: Id, dto: CreatePriorityDto)
    returns (r: Result<PriorityResponse, DomainError>)
    requires repo.Valid()
    modifies repo
    ensures repo.Valid()
    ensures r.Failure? ==> repo.priorities == old(repo.priorities) && repo.nextId == old(repo.nextId)
    ensures IsBlank(dto.name) ==> r == Failure(Validation(NAME_REQUIRED_MESSAGE))
    ensures !IsBlank(dto.name) && old(repo.CountActiveByUser(userId)) >= MAX_PRIORITIES ==>
              r == Failure(MaxPrioritiesExceeded)
    ensures !IsBlank(dto.name) && old(repo.CountActiveByUser(userId)) < MAX_PRIORITIES ==>
              var p := NewPriority(old(repo.nextId), CreateInput(userId, dto, old(repo.CountActiveByUser(userId))));
              repo.priorities == old(repo.priorities) + [p] && r == Success(ToResponse(p))
    ensures r.Success? ==> repo.CountActiveByUser(userId) == old(repo.CountActiveByUser(userId)) + 1 <= MAX_PRIORITIES
  {
    TrimEmptyIffBlank(dto.name);
    if Trim(dto.name) == [] {
      return Failure(Validation(NAME_REQUIRED_MESSAGE));
    }
    var activeCount := repo.CountActiveByUser(userId);
    if activeCount >= MAX_PRIORITIES {
      return Failure(MaxPrioritiesExceeded);
    }
    ghost var before := repo.priorities;
    var p := repo.Create(CreateInput(userId, dto, activeCount));
    AppendActiveCount(before, p, userId);
    r := Success(ToResponse(p));
  }

  /** The caller's active priority ids, the only ids a re-ranking may list. */
  predicate IsActiveIdOf(repo: PriorityRepository, userId: Id, id: Id)
    reads repo
  {
    exists p :: p in repo.priorities && p.id == id && p.userId == userId && p.isActive
  }

  /** Every listed id is one of the caller's active priorities. */
  predicate AllActiveIdsOf(repo: PriorityRepository, userId: Id, ids: seq<Id>)
    reads repo
  {
    forall id :: id in ids ==> IsActiveIdOf(repo, userId, id)
  }

  /** An active priority id of the caller is found by id, so the repository's re-ranking
      of such ids goes through. */
  lemma ActiveIdsAreFound(repo: PriorityRepository, userId: Id, ids: seq<Id>)
    requires AllActiveIdsOf(repo, userId, ids)
    ensures forall id :: id in ids ==> repo.FindById(id).Some?
  {
    forall id | id in ids
      ensures repo.FindById(id).Some?
    {
      assert IsActiveIdOf(repo, userId, id);
    }
  }

  /** `ReorderPrioritiesUseCase.execute`. More than four ids, or any id that is not one of
      the caller's active priorities (another user's, or an inactive one), is rejected and
      nothing moves. Otherwise the listed priority at position i is ranked i + 1, the
      others keep their rank, and the result is the caller's active priorities by rank. */
  method ReorderPriorities(repo: PriorityRepository, userId: Id, ids: seq<Id>)
    returns (r: Result<seq<PriorityResponse>, DomainError>)
    requires repo.Valid()
    modifies repo
    ensures repo.Valid() && repo.nextId == old(repo.nextId)
    ensures r.Failure? ==> repo.priorities == old(repo.priorities)
    ensures |ids| > MAX_PRIORITIES ==> r == Failure(Validation(TOO_MANY_IDS_MESSAGE))
    ensures |ids| <= MAX_PRIORITIES && !old(AllActiveIdsOf(repo, userId, ids)) ==>
              r == Failure(Validation(NOT_OWNED_MESSAGE))
    ensures |ids| <= MAX_PRIORITIES && old(AllActiveIdsOf(repo, userId, ids)) ==>
              && |repo.priorities| == |old(repo.priorities)|
              && (forall k :: 0 <= k < |repo.priorities| ==> repo.priorities[k] == Reordered(old(repo.priorities)[k], ids))
              && r == Success(Responses(repo.FindActiveByUser(userId)))
  {
    if |ids| > MAX_PRIORITIES {
      return Failure(Validation(TOO_MANY_IDS_MESSAGE));
    }
    var active := repo.FindActiveByUser(userId);
    var activeIds := set p | p in active :: p.id;
    for n := 0 to |ids|
      invariant forall m :: 0 <= m < n ==> IsActiveIdOf(repo, userId, ids[m])
    {
      if ids[n] !in activeIds {
        assert !IsActiveIdOf(repo, userId, ids[n]);
        return Failure(Validation(NOT_OWNED_MESSAGE));
      }
    }
    assert AllActiveIdsOf(repo, userId, ids);
    ActiveIdsAreFound(repo, userId, ids);
    var ok := repo.Reorder(userId, ids);
    if !ok {
      assert false;
    }
    r := Success(Responses(repo.FindActiveByUser(userId)));
  }

  /** The record `UpdatePriorityUseCase` hands to the repository: the given fields,
      trimmed, and never the rank. */
  function UpdateInput(dto: UpdatePriorityDto): (data: UpdatePriorityInput)
    ensures data.name == TrimOpt(dto.name) && data.description == TrimOpt(dto.description)
    ensures data.order.None?
    ensures data.allocatedMinutes == dto.allocatedMinutes && data.isActive == dto.isActive
  {
    UpdatePriorityInput(TrimOpt(dto.name), TrimOpt(dto.description), None, dto.allocatedMinutes, dto.isActive)
  }

  /** `UpdatePriorityUseCase.execute`, as written: ownership, then a negative allocation,
      then a partial update of the given fields. Nothing here looks at the active count,
      so re-activating a priority can give a user a fifth active one
      (see UpdateCanActivateFifth). */
  method UpdatePriority(repo: PriorityRepository, userId: Id, priorityId: Id, dto: UpdatePriorityDto)
    returns (r: Result<PriorityResponse, DomainError>)
    requires repo.Valid()
    modifies repo
    ensures repo.Valid() && repo.nextId == old(repo.nextId)
    ensures r.Failure? ==> repo.priorities == old(repo.priorities)
    ensures var existing := old(repo.FindById(priorityId));
            && (existing.None? || existing.value.userId != userId ==> r == Failure(PriorityNotFound))
            && ((existing.Some? && existing.value.userId == userId && dto.allocatedMinutes.Some?
                 && dto.allocatedMinutes.value < 0) ==> r == Failure(Validation(NEGATIVE_ALLOCATION_MESSAGE)))
            && ((existing.Some? && existing.value.userId == userId
                 && (dto.allocatedMinutes.None? || dto.allocatedMinutes.value >= 0)) ==>
                  var i := IndexWhere(old(repo.priorities), HasId(priorityId));
                  var q := ApplyUpdate(existing.value, UpdateInput(dto));
                  0 <= i && repo.priorities == old(repo.priorities)[i := q] && r == Success(ToResponse(q)))
  {
    var existing := repo.FindById(priorityId);
    if existing.None? || existing.value.userId != userId {
      return Failure(PriorityNotFound);
    }
    if dto.allocatedMinutes.Some? && dto.allocatedMinutes.value < 0 {
      return Failure(Validation(NEGATIVE_ALLOCATION_MESSAGE));
    }
    ghost var i := IndexWhere(repo.priorities, HasId(priorityId));
    assert repo.priorities[i] == existing.value by {
      var j :| 0 <= j < |repo.priorities| && repo.priorities[j] == existing.value;
      assert IdOf(repo.priorities[i]) == IdOf(repo.priorities[j]);
    }
    var updated := repo.Update(priorityId, UpdateInput(dto));
    if updated.None? {
      assert false;
    }
    r := Success(ToResponse(updated.value));
  }

  /** The update as written lets a user with four active priorities activate a fifth:
      re-activating one of their inactive priorities raises the count to five. */
  lemma UpdateCanActivateFifth(before: seq<Priority>, i: nat, userId: Id, dto: UpdatePriorityDto)
    requires i < |before| && before[i].userId == userId && !before[i].isActive
    requires ActiveCount(before, userId) == MAX_PRIORITIES && dto.isActive == Some(true)
    ensures ActiveCount(before[i := ApplyUpdate(before[i], UpdateInput(dto))], userId) == MAX_PRIORITIES + 1
  {
    FilterReplaceCount(before, i, ApplyUpdate(before[i], UpdateInput(dto)), ActiveOf(userId));
  }

  /** The update with the limit enforced as creation enforces it: activating an inactive
      priority of a user who already has four active ones fails with
      MaxPrioritiesExceeded. Otherwise it behaves as UpdatePriority, and a user within the
      limit stays within it. */
  method UpdatePriorityWithinLimit(repo: PriorityRepository, userId: Id, priorityId: Id, dto: UpdatePriorityDto)
    returns (r: Result<PriorityResponse, DomainError>)
    requires repo.Valid()
    modifies repo
    ensures repo.Valid() && repo.nextId == old(repo.nextId)
    ensures r.Failure? ==> repo.priorities == old(repo.priorities)
    ensures var existing := old(repo.FindById(priorityId));
            && (existing.None? || existing.value.userId != userId ==> r == Failure(PriorityNotFound))
            && ((existing.Some? && existing.value.userId == userId && dto.allocatedMinutes.Some?
                 && dto.allocatedMinutes.value < 0) ==> r == Failure(Validation(NEGATIVE_ALLOCATION_MESSAGE)))
            && ((existing.Some? && existing.value.userId == userId
                 && (dto.allocatedMinutes.None? || dto.allocatedMinutes.value >= 0)
                 && dto.isActive == Some(true) && !existing.value.isActive
                 && old(ActiveCount(repo.priorities, userId)) >= MAX_PRIORITIES) ==> r == Failure(MaxPrioritiesExceeded))
    ensures r.Success? ==> var i := IndexWhere(old(repo.priorities), HasId(priorityId));
              0 <= i && repo.priorities == old(repo.priorities)[i := ApplyUpdate(old(repo.priorities)[i], UpdateInput(dto))]
    ensures old(ActiveCount(repo.priorities, userId)) <= MAX_PRIORITIES ==>
              ActiveCount(repo.priorities, userId) <= MAX_PRIORITIES
  {
    var existing := repo.FindById(priorityId);
    if existing.None? || existing.value.userId != userId {
      return Failure(PriorityNotFound);
    }
    if dto.allocatedMinutes.Some? && dto.allocatedMinutes.value < 0 {
      return Failure(Validation(NEGATIVE_ALLOCATION_MESSAGE));
    }
    if dto.isActive == Some(true) && !existing.value.isActive && repo.CountActiveByUser(userId) >= MAX_PRIORITIES {
      return Failure(MaxPrioritiesExceeded);
    }
    ghost var before := repo.priorities;
    ghost var i := IndexWhere(repo.priorities, HasId(priorityId));
    assert repo.priorities[i] == existing.value by {
      var j :| 0 <= j < |repo.priorities| && repo.priorities[j] == existing.value;
      assert IdOf(repo.priorities[i]) == IdOf(repo.priorities[j]);
    }
    var updated := repo.Update(priorityId, UpdateInput(dto));
    if updated.None? {
      assert false;
    }
    FilterReplaceCount(before, i, updated.value, ActiveOf(userId));
    r := Success(ToResponse(updated.value));
  }

  /** `DeletePriorityUseCase.execute`: ownership first; on success exactly that priority
      is gone and the others keep their ranks (there is no renumbering). */
  method DeletePriority(repo: PriorityRepository, userId: Id, priorityId: Id) returns (r: Result<(), DomainError>)
    requires repo.Valid()
    modifies repo
    ensures repo.Valid() && repo.nextId == old(repo.nextId)
    ensures var existing := old(repo.FindById(priorityId));
            && (existing.None? || existing.value.userId != userId ==>
                  r == Failure(PriorityNotFound) && repo.priorities == old(repo.priorities))
            && (existing.Some? && existing.value.userId == userId ==>
                  r == Success(()) &&
                  repo.priorities == RemoveAt(old(repo.priorities), IndexWhere(old(repo.priorities), HasId(priorityId))))
    ensures r.Success? ==> repo.FindById(priorityId).None?
  {
    var existing := repo.FindById(priorityId);
    if existing.None? || existing.value.userId != userId {
      return Failure(PriorityNotFound);
    }
    ghost var before := repo.priorities;
    ghost var i := IndexWhere(repo.priorities, HasId(priorityId));
    var deleted := repo.Delete(priorityId);
    if !deleted {
      assert false;
    }
    forall q | q in repo.priorities
      ensures q.id != priorityId
    {
      var k :| 0 <= k < |repo.priorities| && repo.priorities[k] == q;
      if k < i {
        assert IdOf(before[k]) != IdOf(before[i]);
      } else {
        assert IdOf(before[k + 1]) != IdOf(before[i]);
      }
    }
    r := Success(());
  }

  /** The listing `GetPrioritiesUseCase` fetches: the user's active priorities, or all of
      them, by rank. */
  function Listing(repo: PriorityRepository, userId: Id, onlyActive: bool): (ps: seq<Priority>)
    reads repo
    ensures forall p :: p in ps <==> p in repo.priorities && p.userId == userId && (p.isActive || !onlyActive)
    ensures Sorted(ps, OrderAsc)
  {
    if onlyActive then repo.FindActiveByUser(userId) else repo.FindByUser(userId)
  }

  /** `GetPrioritiesUseCase.execute`; `onlyActive` is true unless the caller says
      otherwise. The listing holds exactly the user's priorities (only the active ones when
      `onlyActive`), by rank, and it never fails. */
  function GetPriorities(repo: PriorityRepository, userId: Id, onlyActive: bool)
    : (r: Result<seq<PriorityResponse>, DomainError>)
    reads repo
    ensures r.Success?
    ensures forall p :: p in repo.priorities && p.userId == userId && (p.isActive || !onlyActive) ==>
              ToResponse(p) in r.value
    ensures forall k :: 0 <= k < |r.value| ==>
              exists p :: p in repo.priorities && p.userId == userId && (p.isActive || !onlyActive)
                          && r.value[k] == ToResponse(p)
    ensures forall i, j :: 0 <= i < j < |r.value| ==> r.value[i].order <= r.value[j].order
  {
    var listed := Listing(repo, userId, onlyActive);
    var r := Responses(listed);
    forall k | 0 <= k < |r|
      ensures exists p :: p in repo.priorities && p.userId == userId && (p.isActive || !onlyActive) && r[k] == ToResponse(p)
    {
      assert listed[k] in listed;
    }
    Success(r)
  }
}
