/** The elimination use cases: record an activity the user drops, and list the dropped
    activities with the minutes they freed. */
module EliminationUseCases {
  import opened Common
  import opened Results
  import opened DomainErrors
  import opened Seqs
  import opened Strings
  import opened EliminationEntity
  import opened EliminationRepo

  const NAME_REQUIRED_MESSAGE: string := "El nombre de la actividad es requerido"

  datatype CreateEliminationDto = CreateEliminationDto(activityName: string, reason: Option<string>, recoveredMinutes: Option<int>)

  /** `EliminationResponseDto`: the elimination without its owner. */
  datatype EliminationResponse = EliminationResponse(
    id: Id,
    activityName: string,
    reason: Option<string>,
    recoveredMinutes: int,
    eliminatedAt: Instant)

  /** `EliminationsSummary`. */
  datatype EliminationsSummary = EliminationsSummary(eliminations: seq<EliminationResponse>, totalRecoveredMinutes: int)

  function ToResponse(e: Elimination): (d: EliminationResponse)
    ensures d.id == e.id && d.activityName == e.activityName && d.reason == e.reason
    ensures d.recoveredMinutes == e.recoveredMinutes && d.eliminatedAt == e.eliminatedAt
  {
    EliminationResponse(e.id, e.activityName, e.reason, e.recoveredMinutes, e.eliminatedAt)
  }

  function ResponseMinutes(d: EliminationResponse): int { d.recoveredMinutes }

  /** One response per elimination, in order; the responses' minutes add up to the
      eliminations' recovered total. */
  function Responses(es: seq<Elimination>): (r: seq<EliminationResponse>)
    ensures |r| == |es|
    ensures forall k :: 0 <= k < |es| ==> r[k] == ToResponse(es[k])
    ensures SumBy(r, ResponseMinutes) == TotalRecoveredTime(es)
  {
    if es == [] then []
    else
      var rest := Responses(es[1..]);
      assert ([ToResponse(es[0])] + rest)[1..] == rest;
      [ToResponse(es[0])] + rest
  }

  /** Responses listed from a latest-first list stay latest first. */
  lemma ResponsesLatestFirst(es: seq<Elimination>)
    requires Sorted(es, LatestFirst)
    ensures forall i, j :: 0 <= i < j < |Responses(es)| ==> Responses(es)[i].eliminatedAt >= Responses(es)[j].eliminatedAt
  {
    assert forall i, j :: 0 <= i < j < |es| ==> LatestFirst(es[i], es[j]);
  }

  /** The record `CreateEliminationUseCase` hands to the repository: trimmed texts and 0
      minutes unless given. */
  function CreateInput(userId: Id, dto: CreateEliminationDto): (data: CreateEliminationInput)
    ensures data.userId == userId && data.activityName == Trim(dto.activityName)
    ensures data.reason.None? <==> dto.reason.None?
    ensures dto.reason.Some? ==> data.reason == Some(Trim(dto.reason.value))
    ensures data.recoveredMinutes == Some(if dto.recoveredMinutes.Some? then dto.recoveredMinutes.value else 0)
  {
    CreateEliminationInput(userId, Trim(dto.activityName), TrimOpt(dto.reason), Some(dto.recoveredMinutes.GetOr(0)))
  }

  /** `CreateEliminationUseCase.execute`, at `now`. A blank activity name is rejected and
      nothing is stored. Otherwise exactly one elimination is added and the user's
      recovered total grows by its minutes. */
  method CreateElimination(repo: EliminationRepository, userId: Id, dto: CreateEliminationDto, now: Instant)
    returns (r: Result<EliminationResponse, DomainError>)
    requires repo.Valid()
    modifies repo
    ensures repo.Valid()
    ensures IsBlank(dto.activityName) ==>
              r == Failure(Validation(NAME_REQUIRED_MESSAGE)) && repo.eliminations == old(repo.eliminations)
              && repo.nextId == old(repo.nextId)
    ensures !IsBlank(dto.activityName) ==>
              var e := NewElimination(old(repo.nextId), CreateInput(userId, dto), now);
              repo.eliminations == old(repo.eliminations) + [e] && r == Success(ToResponse(e))
    ensures r.Success? ==>
              repo.SumRecoveredMinutes(userId) == old(repo.SumRecoveredMinutes(userId)) + r.value.recoveredMinutes
  {
    TrimEmptyIffBlank(dto.activityName);
    if Trim(dto.activityName) == [] {
      return Failure(Validation(NAME_REQUIRED_MESSAGE));
    }
    ghost var before := repo.eliminations;
    ghost var oldSum := repo.SumRecoveredMinutes(userId);
    TotalIgnoresOrder(repo.FindByUser(userId), Filter(before, OfUser(userId)));
    var e := repo.Create(CreateInput(userId, dto), now);
    CreateAddsToOwnerTotal(before, e, userId);
    TotalIgnoresOrder(repo.FindByUser(userId), Filter(repo.eliminations, OfUser(userId)));
    r := Success(ToResponse(e));
  }

  /** `GetEliminationsUseCase.execute`: the user's eliminations, most recent first, and
      their recovered total, which is the sum over the listed entries. It never fails. */
  function GetEliminations(repo: EliminationRepository, userId: Id): (r: Result<EliminationsSummary, DomainError>)
    reads repo
    ensures r.Success?
    ensures |r.value.eliminations| == |repo.FindByUser(userId)|
    ensures forall k :: 0 <= k < |r.value.eliminations| ==>
              r.value.eliminations[k] == ToResponse(repo.FindByUser(userId)[k])
    ensures forall i, j :: 0 <= i < j < |r.value.eliminations| ==>
              r.value.eliminations[i].eliminatedAt >= r.value.eliminations[j].eliminatedAt
    ensures r.value.totalRecoveredMinutes == SumBy(r.value.eliminations, ResponseMinutes)
  {
    var listed := repo.FindByUser(userId);
    var responses := Responses(listed);
    ResponsesLatestFirst(listed);
    assert repo.SumRecoveredMinutes(userId) == TotalRecoveredTime(listed) == SumBy(responses, ResponseMinutes);
    Success(EliminationsSummary(responses, repo.SumRecoveredMinutes(userId)))
  }
}
