/** The activity-tracking use cases: log an activity against the week's budget, correct
    it, delete it and list it with its category's name. */
module ActivityUseCases {
  import opened Common
  import opened Results
  import opened DomainErrors
  import opened Seqs
  import opened Strings
  import opened ActivityEntity
  import opened CategoryEntity
  import opened TimeBudgetEntity
  import opened ActivityRepo
  import CategoryRepo
  import TimeBudgetRepo

  const SATISFACTION_MESSAGE: string := "El nivel de satisfacción debe estar entre 1 y 5"

  datatype CreateActivityDto = CreateActivityDto(
    name: string,
    description: Option<string>,
    categoryId: Id,
    durationMinutes: int,
    date: Instant,
    alignedWithPriorities: Option<bool>,
    satisfactionLevel: Option<int>)

  datatype UpdateActivityDto = UpdateActivityDto(
    name: Option<string>,
    description: Option<string>,
    categoryId: Option<Id>,
    durationMinutes: Option<int>,
    date: Option<Instant>,
    alignedWithPriorities: Option<bool>,
    satisfactionLevel: Option<int>)

  /** `ActivityResponseDto`: the activity without its owner and budget link, with the name
      of its category when one is known. */
  datatype ActivityResponse = ActivityResponse(
    id: Id,
    name: string,
    description: Option<string>,
    categoryId: Id,
    categoryName: Option<string>,
    durationMinutes: int,
    date: Instant,
    alignedWithPriorities: bool,
    satisfactionLevel: Option<int>)

  function ToResponse(a: Activity, categoryName: Option<string>): (d: ActivityResponse)
    ensures d.id == a.id && d.name == a.name && d.description == a.description && d.categoryId == a.categoryId
    ensures d.categoryName == categoryName && d.durationMinutes == a.durationMinutes && d.date == a.date
    ensures d.alignedWithPriorities == a.alignedWithPriorities && d.satisfactionLevel == a.satisfactionLevel
  {
    ActivityResponse(a.id, a.name, a.description, a.categoryId, categoryName, a.durationMinutes, a.date,
                     a.alignedWithPriorities, a.satisfactionLevel)
  }

  /** The two checks create and update share on a given satisfaction level. */
  predicate SatisfactionAccepted(level: Option<int>) {
    level.None? || IsValidSatisfactionLevel(level.value)
  }

  /** Every stored activity has a positive duration and, when it has one, a satisfaction
      level on the 1..5 scale: what the use cases check before any write. */
  predicate ActivitiesValid(activities: seq<Activity>) {
    forall a :: a in activities ==> IsValidDuration(a.durationMinutes) && SatisfactionAccepted(a.satisfactionLevel)
  }

  /** The budget an activity dated `date` is linked to: the user's budget of that week,
      if there is one. */
  function BudgetIdFor(budgets: TimeBudgetRepo.TimeBudgetRepository, userId: Id, date: Instant): (r: Option<Id>)
    reads budgets
    ensures r.Some? ==> exists b :: b in budgets.budgets && b.id == r.value && b.userId == userId
                                    && b.weekStart == GetWeekStart(date)
    ensures r.None? ==> forall b :: b in budgets.budgets ==> !(b.userId == userId && b.weekStart == GetWeekStart(date))
  {
    WeekStartIdempotent(date);
    match budgets.FindByUserAndWeek(userId, GetWeekStart(date))
    case Some(b) => Some(b.id)
    case None => None
  }

  /** The record `CreateActivityUseCase` hands to the repository: trimmed texts and the
      week's budget link. */
  function CreateInput(userId: Id, dto: CreateActivityDto, budgetId: Option<Id>): (data: CreateActivityInput)
    ensures data.userId == userId && data.timeBudgetId == budgetId
    ensures data.name == Trim(dto.name) && data.description == TrimOpt(dto.description)
    ensures data.categoryId == dto.categoryId && data.durationMinutes == dto.durationMinutes && data.date == dto.date
    ensures data.alignedWithPriorities == dto.alignedWithPriorities && data.satisfactionLevel == dto.satisfactionLevel
  {
    CreateActivityInput(userId, budgetId, Trim(dto.name), TrimOpt(dto.description), dto.categoryId,
                        dto.durationMinutes, dto.date, dto.alignedWithPriorities, dto.satisfactionLevel)
  }

  /** `CreateActivityUseCase.execute`. The checks run in the order duration, satisfaction,
      category, and any failure creates nothing. The new activity is linked to the user's
      budget of its week when there is one, is not aligned unless said so, and keeps every
      stored activity valid. */
  method CreateActivity(activities: ActivityRepository, categories: CategoryRepo.CategoryRepository,
                        budgets: TimeBudgetRepo.TimeBudgetRepository, userId: Id, dto: CreateActivityDto)
    returns (r: Result<ActivityResponse, DomainError>)
    requires activities.Valid()
    modifies activities
    ensures activities.Valid()
    ensures r.Failure? ==> activities.activities == old(activities.activities) && activities.nextId == old(activities.nextId)
    ensures !IsValidDuration(dto.durationMinutes) ==> r == Failure(InvalidActivityDuration)
    ensures IsValidDuration(dto.durationMinutes) && !SatisfactionAccepted(dto.satisfactionLevel) ==>
              r == Failure(Validation(SATISFACTION_MESSAGE))
    ensures (IsValidDuration(dto.durationMinutes) && SatisfactionAccepted(dto.satisfactionLevel)
             && categories.FindById(dto.categoryId).None?) ==> r == Failure(CategoryNotFound)
    ensures (IsValidDuration(dto.durationMinutes) && SatisfactionAccepted(dto.satisfactionLevel)
             && categories.FindById(dto.categoryId).Some?) ==>
              var a := NewActivity(old(activities.nextId), CreateInput(userId, dto, BudgetIdFor(budgets, userId, dto.date)));
              && activities.activities == old(activities.activities) + [a]
              && r == Success(ToResponse(a, Some(categories.FindById(dto.categoryId).value.name)))
    ensures old(ActivitiesValid(activities.activities)) ==> ActivitiesValid(activities.activities)
  {
    if !IsValidDuration(dto.durationMinutes) {
      return Failure(InvalidActivityDuration);
    }
    if dto.satisfactionLevel.Some? && !IsValidSatisfactionLevel(dto.satisfactionLevel.value) {
      return Failure(Validation(SATISFACTION_MESSAGE));
    }
    var category := categories.FindById(dto.categoryId);
    if category.None? {
      return Failure(CategoryNotFound);
    }
    var budgetId := BudgetIdFor(budgets, userId, dto.date);
    var a := activities.Create(CreateInput(userId, dto, budgetId));
    r := Success(ToResponse(a, Some(category.value.name)));
  }

  /** The record `UpdateActivityUseCase` hands to the repository: the given fields, with
      the texts trimmed. */
  function UpdateInput(dto: UpdateActivityDto): (data: UpdateActivityInput)
    ensures data.name == TrimOpt(dto.name) && data.description == TrimOpt(dto.description)
    ensures data.categoryId == dto.categoryId && data.durationMinutes == dto.durationMinutes
    ensures data.date == dto.date && data.alignedWithPriorities == dto.alignedWithPriorities
    ensures data.satisfactionLevel == dto.satisfactionLevel
  {
    UpdateActivityInput(TrimOpt(dto.name), TrimOpt(dto.description), dto.categoryId, dto.durationMinutes,
                        dto.date, dto.alignedWithPriorities, dto.satisfactionLevel)
  }

  /** The category name an update reports: the new category's when one is given (it has
      been found), otherwise the current category's, or "" when that one is gone. */
  function UpdatedCategoryName(categories: CategoryRepo.CategoryRepository, existing: Activity, dto: UpdateActivityDto)
    : (name: string)
    reads categories
    requires dto.categoryId.Some? ==> categories.FindById(dto.categoryId.value).Some?
    ensures dto.categoryId.Some? ==> name == categories.FindById(dto.categoryId.value).value.name
    ensures dto.categoryId.None? && categories.FindById(existing.categoryId).Some? ==>
              name == categories.FindById(existing.categoryId).value.name
    ensures dto.categoryId.None? && categories.FindById(existing.categoryId).None? ==> name == ""
  {
    if dto.categoryId.Some? then categories.FindById(dto.categoryId.value).value.name
    else match categories.FindById(existing.categoryId)
      case Some(c) => c.name
      case None => ""
  }

  /** `UpdateActivityUseCase.execute`. Ownership first, then a given duration, a given
      satisfaction level and a given category; any failure changes nothing. On success the
      given fields change and everything else, the budget link included, is kept. */
  method UpdateActivity(activities: ActivityRepository, categories: CategoryRepo.CategoryRepository,
                        userId: Id, activityId: Id, dto: UpdateActivityDto)
    returns (r: Result<ActivityResponse, DomainError>)
    requires activities.Valid()
    modifies activities
    ensures activities.Valid() && activities.nextId == old(activities.nextId)
    ensures r.Failure? ==> activities.activities == old(activities.activities)
    ensures var existing := old(activities.FindById(activityId));
            && (existing.None? || existing.value.userId != userId ==> r == Failure(ActivityNotFound))
            && ((existing.Some? && existing.value.userId == userId
                 && dto.durationMinutes.Some? && !IsValidDuration(dto.durationMinutes.value)) ==>
                  r == Failure(InvalidActivityDuration))
            && ((existing.Some? && existing.value.userId == userId
                 && (dto.durationMinutes.None? || IsValidDuration(dto.durationMinutes.value))
                 && !SatisfactionAccepted(dto.satisfactionLevel)) ==> r == Failure(Validation(SATISFACTION_MESSAGE)))
            && ((existing.Some? && existing.value.userId == userId
                 && (dto.durationMinutes.None? || IsValidDuration(dto.durationMinutes.value))
                 && SatisfactionAccepted(dto.satisfactionLevel)
                 && dto.categoryId.Some? && categories.FindById(dto.categoryId.value).None?) ==>
                  r == Failure(CategoryNotFound))
    ensures r.Success? ==>
              var existing := old(activities.FindById(activityId)).value;
              var i := IndexWhere(old(activities.activities), HasId(activityId));
              var q := ApplyUpdate(existing, UpdateInput(dto));
              && 0 <= i && activities.activities == old(activities.activities)[i := q]
              && q.timeBudgetId == existing.timeBudgetId
              && r == Success(ToResponse(q, Some(UpdatedCategoryName(categories, existing, dto))))
    ensures r.Failure? ==> r.error in {ActivityNotFound, InvalidActivityDuration, Validation(SATISFACTION_MESSAGE), CategoryNotFound}
    ensures old(ActivitiesValid(activities.activities)) ==> ActivitiesValid(activities.activities)
  {
    var existing := activities.FindById(activityId);
    if existing.None? || existing.value.userId != userId {
      return Failure(ActivityNotFound);
    }
    if dto.durationMinutes.Some? && !IsValidDuration(dto.durationMinutes.value) {
      return Failure(InvalidActivityDuration);
    }
    if dto.satisfactionLevel.Some? && !IsValidSatisfactionLevel(dto.satisfactionLevel.value) {
      return Failure(Validation(SATISFACTION_MESSAGE));
    }
    if dto.categoryId.Some? && categories.FindById(dto.categoryId.value).None? {
      return Failure(CategoryNotFound);
    }
    var categoryName := UpdatedCategoryName(categories, existing.value, dto);
    ghost var before := activities.activities;
    ghost var i := IndexWhere(activities.activities, HasId(activityId));
    assert activities.activities[i] == existing.value by {
      var j :| 0 <= j < |activities.activities| && activities.activities[j] == existing.value;
      assert IdOf(activities.activities[i]) == IdOf(activities.activities[j]);
    }
    var updated := activities.Update(activityId, UpdateInput(dto));
    if updated.None? {
      assert false;
    }
    ghost var q := updated.value;
    assert ActivitiesValid(before) ==> ActivitiesValid(activities.activities) by {
      forall a | a in activities.activities && ActivitiesValid(before)
        ensures IsValidDuration(a.durationMinutes) && SatisfactionAccepted(a.satisfactionLevel)
      {
        var k :| 0 <= k < |activities.activities| && activities.activities[k] == a;
        if k != i {
          assert a == before[k] && before[k] in before;
        } else {
          assert existing.value in before;
        }
      }
    }
    r := Success(ToResponse(updated.value, Some(categoryName)));
  }

  /** `DeleteActivityUseCase.execute`: ownership first; on success exactly that activity
      is gone and no other one changes. */
  method DeleteActivity(activities: ActivityRepository, userId: Id, activityId: Id) returns (r: Result<(), DomainError>)
    requires activities.Valid()
    modifies activities
    ensures activities.Valid() && activities.nextId == old(activities.nextId)
    ensures var existing := old(activities.FindById(activityId));
            && (existing.None? || existing.value.userId != userId ==>
                  r == Failure(ActivityNotFound) && activities.activities == old(activities.activities))
            && (existing.Some? && existing.value.userId == userId ==>
                  r == Success(()) && activities.activities ==
                    RemoveAt(old(activities.activities), IndexWhere(old(activities.activities), HasId(activityId))))
    ensures forall a :: a in activities.activities ==> a in old(activities.activities)
    ensures r.Success? ==> activities.FindById(activityId).None?
  {
    var existing := activities.FindById(activityId);
    if existing.None? || existing.value.userId != userId {
      return Failure(ActivityNotFound);
    }
    ghost var before := activities.activities;
    ghost var i := IndexWhere(activities.activities, HasId(activityId));
    var deleted := activities.Delete(activityId);
    if !deleted {
      assert false;
    }
    forall a | a in activities.activities
      ensures a in before && a.id != activityId
    {
      var k :| 0 <= k < |activities.activities| && activities.activities[k] == a;
      if k < i {
        assert a == before[k] && IdOf(before[k]) != IdOf(before[i]);
      } else {
        assert a == before[k + 1] && IdOf(before[k + 1]) != IdOf(before[i]);
      }
    }
    r := Success(());
  }

  /** Some category of the table has id `id` and name `name`. */
  ghost predicate NamedIn(categories: seq<Category>, id: Id, name: string) {
    exists c :: c in categories && c.id == id && c.name == name
  }

  /** The name `categoryMap.get(id)` gives: the name of the category with that id, or
      nothing when no category has it. */
  function CategoryNameOf(categories: seq<Category>, id: Id): (r: Option<string>)
    ensures r.None? <==> forall c :: c in categories ==> c.id != id
    ensures r.Some? ==> NamedIn(categories, id, r.value)
  {
    match Find(categories, CategoryHasId(id))
    case Some(c) => Some(c.name)
    case None => None
  }

  /** `GetActivitiesUseCase.execute`: the repository's filtered, ordered and paged
      listing, each activity with the name of its category (nothing for an unknown one).
      It never fails. */
  function GetActivities(activities: ActivityRepository, categories: CategoryRepo.CategoryRepository,
                         userId: Id, options: ActivityQueryOptions)
    : (r: Result<seq<ActivityResponse>, DomainError>)
    reads activities, categories
    ensures r.Success? && |r.value| == |activities.FindByUser(userId, options)|
    ensures forall k :: 0 <= k < |r.value| ==>
              var a := activities.FindByUser(userId, options)[k];
              && r.value[k].id == a.id && a.userId == userId && Matches(userId, options)(a)
              && (r.value[k].categoryName.None? <==> forall c :: c in categories.categories ==> c.id != a.categoryId)
              && (r.value[k].categoryName.Some? ==> NamedIn(categories.categories, a.categoryId, r.value[k].categoryName.value))
    ensures forall k :: 0 <= k < |r.value| ==>
              r.value[k] == ToResponse(activities.FindByUser(userId, options)[k], r.value[k].categoryName)
  {
    var listed := activities.FindByUser(userId, options);
    var all := categories.FindAll();
    assert forall c :: c in all <==> c in categories.categories by {
      assert forall c :: c in all <==> c in multiset(all);
    }
    forall k | 0 <= k < |listed|
      ensures listed[k].userId == userId && Matches(userId, options)(listed[k])
    {
      assert listed[k] in listed;
    }
    var out := Responses(listed, all);
    forall k | 0 <= k < |listed|
      ensures CategoryNameOf(all, listed[k].categoryId).None? <==>
                forall c :: c in categories.categories ==> c.id != listed[k].categoryId
      ensures CategoryNameOf(all, listed[k].categoryId).Some? ==>
                NamedIn(categories.categories, listed[k].categoryId, CategoryNameOf(all, listed[k].categoryId).value)
    {
      NameInSameMembers(all, categories.categories, listed[k].categoryId);
    }
    Success(out)
  }

  /** Each activity's response, with its category's name looked up in `all`. */
  function Responses(listed: seq<Activity>, all: seq<Category>): (out: seq<ActivityResponse>)
    ensures |out| == |listed|
    ensures forall k :: 0 <= k < |listed| ==>
              out[k] == ToResponse(listed[k], CategoryNameOf(all, listed[k].categoryId))
              && out[k].categoryName == CategoryNameOf(all, listed[k].categoryId)
  {
    seq(|listed|, k requires 0 <= k < |listed| => ToResponse(listed[k], CategoryNameOf(all, listed[k].categoryId)))
  }

  /** A look-up in a list holding the same categories as the table answers for the table. */
  lemma NameInSameMembers(all: seq<Category>, table: seq<Category>, id: Id)
    requires forall c :: c in all <==> c in table
    ensures CategoryNameOf(all, id).None? <==> forall c :: c in table ==> c.id != id
    ensures CategoryNameOf(all, id).Some? ==> NamedIn(table, id, CategoryNameOf(all, id).value)
  {
    if CategoryNameOf(all, id).Some? {
      var c :| c in all && c.id == id && c.name == CategoryNameOf(all, id).value;
      assert c in table;
    }
  }
}
