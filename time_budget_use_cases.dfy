/** The time-budget use cases: create the budget of a week, update its base blocks, and
    read the budget of the current week. A budget that went through them never leaves
    negative available minutes. */
module TimeBudgetUseCases {
  import opened Common
  import opened Results
  import opened DomainErrors
  import opened TimeBudgetEntity
  import opened TimeBudgetRepo
  import opened Seqs

  const NEGATIVE_VALUES_MESSAGE: string := "Los valores de tiempo deben ser positivos"
  const EXCEEDS_WEEK_MESSAGE: string := "El presupuesto base excede las horas de la semana"

  /** `CreateTimeBudgetDto`; the week is an instant within it, absent for the current week. */
  datatype CreateTimeBudgetDto = CreateTimeBudgetDto(
    weekStart: Option<Instant>,
    sleepMinutes: Option<int>,
    workMinutes: Option<int>,
    mealsMinutes: Option<int>,
    hygieneMinutes: Option<int>,
    transportMinutes: Option<int>)

  /** `TimeBudgetResponseDto` (without the creation time). */
  datatype TimeBudgetResponse = TimeBudgetResponse(
    id: Id,
    weekStart: Instant,
    sleepMinutes: int,
    workMinutes: int,
    mealsMinutes: int,
    hygieneMinutes: int,
    transportMinutes: int,
    availableMinutes: int,
    baseMinutes: int)

  /** The response for a stored budget: its fields, and as base minutes what the week has
      left once the available minutes are taken out, which for a stored budget is the sum
      of its five blocks. */
  function ToResponse(b: TimeBudget): (r: TimeBudgetResponse)
    ensures r.id == b.id && r.weekStart == b.weekStart && r.availableMinutes == b.availableMinutes
    ensures r.sleepMinutes == b.sleepMinutes && r.workMinutes == b.workMinutes
    ensures r.mealsMinutes == b.mealsMinutes && r.hygieneMinutes == b.hygieneMinutes
    ensures r.transportMinutes == b.transportMinutes
    ensures Consistent(b) ==> r.baseMinutes == b.BaseMinutes()
    ensures r.baseMinutes + r.availableMinutes == MINUTES_PER_WEEK
  {
    TimeBudgetResponse(b.id, b.weekStart, b.sleepMinutes, b.workMinutes, b.mealsMinutes,
                       b.hygieneMinutes, b.transportMinutes, b.availableMinutes,
                       MINUTES_PER_WEEK - b.availableMinutes)
  }

  /** The two value checks shared by create and update, in their order: a negative block,
      then blocks that do not fit in the week. None when the values are acceptable. */
  function BaseError(sleep: int, work: int, meals: int, hygiene: int, transport: int): (e: Option<DomainError>)
    ensures e.None? <==> sleep >= 0 && work >= 0 && meals >= 0 && hygiene >= 0 && transport >= 0
                         && AvailableMinutes(sleep, work, meals, hygiene, transport) >= 0
    ensures e.Some? ==> e.value.Validation?
    ensures e.Some? && (sleep < 0 || work < 0 || meals < 0 || hygiene < 0 || transport < 0)
            ==> e.value.message == NEGATIVE_VALUES_MESSAGE
    ensures e.Some? && sleep >= 0 && work >= 0 && meals >= 0 && hygiene >= 0 && transport >= 0
            ==> e.value.message == EXCEEDS_WEEK_MESSAGE
  {
    if sleep < 0 || work < 0 || meals < 0 || hygiene < 0 || transport < 0 then
      Some(Validation(NEGATIVE_VALUES_MESSAGE))
    else if AvailableMinutes(sleep, work, meals, hygiene, transport) < 0 then
      Some(Validation(EXCEEDS_WEEK_MESSAGE))
    else None
  }

  /** Creating a budget with no block given passes both value checks, and the budget it
      reports has 7110 base minutes and 2970 available. */
  lemma DefaultBudgetResponse(userId: Id, dto: CreateTimeBudgetDto, now: Instant, id: Id)
    requires dto.sleepMinutes.None? && dto.workMinutes.None? && dto.mealsMinutes.None?
    requires dto.hygieneMinutes.None? && dto.transportMinutes.None?
    ensures var data := CreateInput(userId, dto, now);
            && BaseError(data.sleepMinutes.value, data.workMinutes.value, data.mealsMinutes.value,
                         data.hygieneMinutes.value, data.transportMinutes.value).None?
            && var r := ToResponse(NewBudget(id, data));
               r.baseMinutes == 7110 && r.availableMinutes == 2970
  {
  }

  /** Every stored budget leaves a non-negative number of available minutes: what the use
      cases keep. */
  predicate NoOverbooking(repo: TimeBudgetRepository)
    reads repo
  {
    forall k :: 0 <= k < |repo.budgets| ==> repo.budgets[k].availableMinutes >= 0
  }

  /** The repository input the create use case builds: the normalised week and every block
      filled in from the defaults. */
  function CreateInput(userId: Id, dto: CreateTimeBudgetDto, now: Instant): (data: CreateTimeBudgetInput)
    ensures data.userId == userId && data.weekStart == GetWeekStart(dto.weekStart.GetOr(now))
    ensures data.sleepMinutes == Some(dto.sleepMinutes.GetOr(DEFAULT_SLEEP_MINUTES))
    ensures data.workMinutes == Some(dto.workMinutes.GetOr(DEFAULT_WORK_MINUTES))
    ensures data.mealsMinutes == Some(dto.mealsMinutes.GetOr(DEFAULT_MEALS_MINUTES))
    ensures data.hygieneMinutes == Some(dto.hygieneMinutes.GetOr(DEFAULT_HYGIENE_MINUTES))
    ensures data.transportMinutes == Some(dto.transportMinutes.GetOr(DEFAULT_TRANSPORT_MINUTES))
  {
    CreateTimeBudgetInput(userId, GetWeekStart(dto.weekStart.GetOr(now)),
                          Some(dto.sleepMinutes.GetOr(DEFAULT_SLEEP_MINUTES)),
                          Some(dto.workMinutes.GetOr(DEFAULT_WORK_MINUTES)),
                          Some(dto.mealsMinutes.GetOr(DEFAULT_MEALS_MINUTES)),
                          Some(dto.hygieneMinutes.GetOr(DEFAULT_HYGIENE_MINUTES)),
                          Some(dto.transportMinutes.GetOr(DEFAULT_TRANSPORT_MINUTES)))
  }

  /** `CreateTimeBudgetUseCase.execute`, at `now`. The duplicate check comes before the
      value checks; any failure creates nothing; on success the one budget of that week is
      the new one and it does not overbook the week. */
  method CreateTimeBudget(repo: TimeBudgetRepository, userId: Id, dto: CreateTimeBudgetDto, now: Instant)
    returns (r: Result<TimeBudgetResponse, DomainError>)
    requires repo.Valid() && NoOverbooking(repo)
    modifies repo
    ensures repo.Valid() && NoOverbooking(repo)
    ensures var data := CreateInput(userId, dto, now);
            var duplicate := old(repo.FindByUserAndWeek(userId, data.weekStart)).Some?;
            var invalid := BaseError(data.sleepMinutes.value, data.workMinutes.value, data.mealsMinutes.value,
                                     data.hygieneMinutes.value, data.transportMinutes.value);
            && (duplicate ==> r == Failure(TimeBudgetAlreadyExists))
            && (!duplicate && invalid.Some? ==> r == Failure(invalid.value))
            && (!duplicate && invalid.None? ==>
                  var b := NewBudget(old(repo.nextId), data);
                  && r == Success(ToResponse(b))
                  && repo.budgets == old(repo.budgets) + [b]
                  && repo.FindByUserAndWeek(userId, data.weekStart) == Some(b))
    ensures r.Failure? ==> repo.budgets == old(repo.budgets) && repo.nextId == old(repo.nextId)
  {
    var data := CreateInput(userId, dto, now);
    var existing := repo.FindByUserAndWeek(userId, data.weekStart);
    if existing.Some? {
      return Failure(TimeBudgetAlreadyExists);
    }
    var invalid := BaseError(data.sleepMinutes.value, data.workMinutes.value, data.mealsMinutes.value,
                             data.hygieneMinutes.value, data.transportMinutes.value);
    if invalid.Some? {
      return Failure(invalid.value);
    }
    var created := repo.Create(data);
    if created.None? {
      assert false;
    }
    var b := created.value;
    FindByUserAndWeekExact(repo, b, data.weekStart);
    r := Success(ToResponse(b));
  }

  /** `UpdateTimeBudgetUseCase.execute`. A budget that is missing or belongs to another user
      is not found; the merged values must pass the same checks as at creation; any
      failure changes nothing; on success only the five blocks and the available minutes
      change. */
  method UpdateTimeBudget(repo: TimeBudgetRepository, userId: Id, budgetId: Id, dto: UpdateTimeBudgetInput)
    returns (r: Result<TimeBudgetResponse, DomainError>)
    requires repo.Valid() && NoOverbooking(repo)
    modifies repo
    ensures repo.Valid() && NoOverbooking(repo) && repo.nextId == old(repo.nextId)
    ensures r.Failure? ==> repo.budgets == old(repo.budgets)
    ensures var existing := old(repo.FindById(budgetId));
            && (existing.None? || existing.value.userId != userId ==> r == Failure(TimeBudgetNotFound))
            && (existing.Some? && existing.value.userId == userId ==>
                  var b := Merge(existing.value, dto);
                  var invalid := BaseError(b.sleepMinutes, b.workMinutes, b.mealsMinutes,
                                           b.hygieneMinutes, b.transportMinutes);
                  && (invalid.Some? ==> r == Failure(invalid.value))
                  && (invalid.None? ==>
                        var i := IndexWhere(old(repo.budgets), HasId(budgetId));
                        0 <= i && repo.budgets == old(repo.budgets)[i := b] && r == Success(ToResponse(b))))
  {
    var existing := repo.FindById(budgetId);
    if existing.None? || existing.value.userId != userId {
      return Failure(TimeBudgetNotFound);
    }
    var e := existing.value;
    var sleep := dto.sleepMinutes.GetOr(e.sleepMinutes);
    var work := dto.workMinutes.GetOr(e.workMinutes);
    var meals := dto.mealsMinutes.GetOr(e.mealsMinutes);
    var hygiene := dto.hygieneMinutes.GetOr(e.hygieneMinutes);
    var transport := dto.transportMinutes.GetOr(e.transportMinutes);
    var invalid := BaseError(sleep, work, meals, hygiene, transport);
    if invalid.Some? {
      return Failure(invalid.value);
    }
    ghost var i := IndexWhere(repo.budgets, HasId(budgetId));
    assert repo.budgets[i] == e by {
      var j :| 0 <= j < |repo.budgets| && repo.budgets[j] == e;
      assert IdOf(repo.budgets[i]) == IdOf(repo.budgets[j]);
    }
    var updated := repo.Update(budgetId, UpdateTimeBudgetInput(Some(sleep), Some(work), Some(meals), Some(hygiene), Some(transport)));
    if updated.None? {
      assert false;
    }
    assert updated.value == Merge(e, dto);
    r := Success(ToResponse(updated.value));
  }

  /** `GetCurrentTimeBudgetUseCase.execute`, at `now`: the budget of the current week, or
      not found. */
  function GetCurrentTimeBudget(repo: TimeBudgetRepository, userId: Id, now: Instant): (r: Result<TimeBudgetResponse, DomainError>)
    reads repo
    ensures r.Failure? <==> (forall b :: b in repo.budgets ==> !(b.userId == userId && b.weekStart == GetWeekStart(now)))
    ensures r.Failure? ==> r.error == TimeBudgetNotFound
    ensures r.Success? ==> exists b :: b in repo.budgets && b.userId == userId
                                       && b.weekStart == GetWeekStart(now) && r.value == ToResponse(b)
  {
    match repo.FindCurrentByUser(userId, now)
    case None => Failure(TimeBudgetNotFound)
    case Some(b) => Success(ToResponse(b))
  }
}
