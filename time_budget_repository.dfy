/** The time-budget table: at most one budget per (user, week), each pinned to the Monday of
    its week and carrying the available minutes its five base fields leave. */
module TimeBudgetRepo {
  import opened Common
  import opened Seqs
  import opened TimeBudgetEntity

  datatype CreateTimeBudgetInput = CreateTimeBudgetInput(
    userId: Id,
    weekStart: Instant,
    sleepMinutes: Option<int>,
    workMinutes: Option<int>,
    mealsMinutes: Option<int>,
    hygieneMinutes: Option<int>,
    transportMinutes: Option<int>)

  datatype UpdateTimeBudgetInput = UpdateTimeBudgetInput(
    sleepMinutes: Option<int>,
    workMinutes: Option<int>,
    mealsMinutes: Option<int>,
    hygieneMinutes: Option<int>,
    transportMinutes: Option<int>)

  function IdOf(b: TimeBudget): Id { b.id }
  function WeekKey(b: TimeBudget): (Id, Instant) { (b.userId, b.weekStart) }
  function HasId(id: Id): TimeBudget -> bool { (b: TimeBudget) => b.id == id }
  function OfUser(userId: Id): TimeBudget -> bool { (b: TimeBudget) => b.userId == userId }
  function AtWeek(userId: Id, weekStart: Instant): TimeBudget -> bool {
    (b: TimeBudget) => b.userId == userId && b.weekStart == weekStart
  }

  /** `orderBy: { weekStart: 'desc' }`. */
  function WeekDesc(a: TimeBudget, b: TimeBudget): bool { a.weekStart >= b.weekStart }

  /** What the database guarantees of a stored budget: a normalised week and available
      minutes computed from its own base fields. */
  predicate Consistent(b: TimeBudget) {
    IsWeekStart(b.weekStart)
    && b.availableMinutes
       == AvailableMinutes(b.sleepMinutes, b.workMinutes, b.mealsMinutes, b.hygieneMinutes, b.transportMinutes)
  }

  predicate TableValid(budgets: seq<TimeBudget>, nextId: Id) {
    && KeysUnique(budgets, IdOf)
    && IdsBelow(budgets, IdOf, nextId)
    && KeysUnique(budgets, WeekKey)
    && forall k :: 0 <= k < |budgets| ==> Consistent(budgets[k])
  }

  /** The budget `update` writes: each provided field replaces the stored one, and the
      available minutes are recomputed from the merged fields. */
  function Merge(existing: TimeBudget, data: UpdateTimeBudgetInput): (b: TimeBudget)
    ensures b.id == existing.id && b.userId == existing.userId && b.weekStart == existing.weekStart
    ensures IsWeekStart(existing.weekStart) ==> Consistent(b)
    ensures b.sleepMinutes == (if data.sleepMinutes.Some? then data.sleepMinutes.value else existing.sleepMinutes)
    ensures b.workMinutes == (if data.workMinutes.Some? then data.workMinutes.value else existing.workMinutes)
    ensures b.mealsMinutes == (if data.mealsMinutes.Some? then data.mealsMinutes.value else existing.mealsMinutes)
    ensures b.hygieneMinutes == (if data.hygieneMinutes.Some? then data.hygieneMinutes.value else existing.hygieneMinutes)
    ensures b.transportMinutes == (if data.transportMinutes.Some? then data.transportMinutes.value else existing.transportMinutes)
  {
    var sleep := data.sleepMinutes.GetOr(existing.sleepMinutes);
    var work := data.workMinutes.GetOr(existing.workMinutes);
    var meals := data.mealsMinutes.GetOr(existing.mealsMinutes);
    var hygiene := data.hygieneMinutes.GetOr(existing.hygieneMinutes);
    var transport := data.transportMinutes.GetOr(existing.transportMinutes);
    existing.(sleepMinutes := sleep, workMinutes := work, mealsMinutes := meals,
              hygieneMinutes := hygiene, transportMinutes := transport,
              availableMinutes := AvailableMinutes(sleep, work, meals, hygiene, transport))
  }

  /** The budget `create` writes under a fresh id: missing fields take the defaults, the week
      is normalised, and the available minutes follow from the same values. */
  function NewBudget(id: Id, data: CreateTimeBudgetInput): (b: TimeBudget)
    ensures b.id == id && b.userId == data.userId && b.weekStart == GetWeekStart(data.weekStart)
    ensures Consistent(b)
    ensures b.sleepMinutes == (if data.sleepMinutes.Some? then data.sleepMinutes.value else DEFAULT_SLEEP_MINUTES)
    ensures b.workMinutes == (if data.workMinutes.Some? then data.workMinutes.value else DEFAULT_WORK_MINUTES)
    ensures b.mealsMinutes == (if data.mealsMinutes.Some? then data.mealsMinutes.value else DEFAULT_MEALS_MINUTES)
    ensures b.hygieneMinutes == (if data.hygieneMinutes.Some? then data.hygieneMinutes.value else DEFAULT_HYGIENE_MINUTES)
    ensures b.transportMinutes == (if data.transportMinutes.Some? then data.transportMinutes.value else DEFAULT_TRANSPORT_MINUTES)
  {
    var sleep := data.sleepMinutes.GetOr(DEFAULT_SLEEP_MINUTES);
    var work := data.workMinutes.GetOr(DEFAULT_WORK_MINUTES);
    var meals := data.mealsMinutes.GetOr(DEFAULT_MEALS_MINUTES);
    var hygiene := data.hygieneMinutes.GetOr(DEFAULT_HYGIENE_MINUTES);
    var transport := data.transportMinutes.GetOr(DEFAULT_TRANSPORT_MINUTES);
    WeekStartIdempotent(data.weekStart);
    TimeBudget(id, data.userId, GetWeekStart(data.weekStart), sleep, work, meals, hygiene, transport,
               AvailableMinutes(sleep, work, meals, hygiene, transport))
  }

  /** A budget created with none of its five blocks given holds the defaults: 7110 base
      minutes, which leave 2970 of the week's 10080 available. */
  lemma DefaultBudget(id: Id, data: CreateTimeBudgetInput)
    requires data.sleepMinutes.None? && data.workMinutes.None? && data.mealsMinutes.None?
    requires data.hygieneMinutes.None? && data.transportMinutes.None?
    ensures var b := NewBudget(id, data);
            && b.sleepMinutes == DEFAULT_SLEEP_MINUTES && b.workMinutes == DEFAULT_WORK_MINUTES
            && b.mealsMinutes == DEFAULT_MEALS_MINUTES && b.hygieneMinutes == DEFAULT_HYGIENE_MINUTES
            && b.transportMinutes == DEFAULT_TRANSPORT_MINUTES
            && b.BaseMinutes() == 7110 && b.availableMinutes == 2970
  {
  }

  class TimeBudgetRepository {
    var budgets: seq<TimeBudget>
    var nextId: Id

    predicate Valid()
      reads this
    {
      TableValid(budgets, nextId)
    }

    constructor()
      ensures Valid() && budgets == []
    {
      budgets := [];
      nextId := 0;
    }

    function FindById(id: Id): (r: Option<TimeBudget>)
      reads this
      ensures r.Some? ==> r.value in budgets && r.value.id == id
      ensures r.None? ==> forall b :: b in budgets ==> b.id != id
    {
      Find(budgets, HasId(id))
    }

    /** The user's budget for the week containing `weekStart`, which need not itself be a
        Monday. */
    function FindByUserAndWeek(userId: Id, weekStart: Instant): (r: Option<TimeBudget>)
      reads this
      ensures r.Some? ==> r.value in budgets && r.value.userId == userId
                          && r.value.weekStart == GetWeekStart(weekStart)
      ensures r.None? ==> forall b :: b in budgets ==>
                            !(b.userId == userId && b.weekStart == GetWeekStart(weekStart))
    {
      Find(budgets, AtWeek(userId, GetWeekStart(weekStart)))
    }

    /** The user's budgets, latest week first. */
    function FindByUser(userId: Id): (r: seq<TimeBudget>)
      reads this
      ensures multiset(r) == multiset(Filter(budgets, OfUser(userId)))
      ensures Sorted(r, WeekDesc)
    {
      SortBy(Filter(budgets, OfUser(userId)), WeekDesc)
    }

    /** The user's budget for the week of `now`. */
    function FindCurrentByUser(userId: Id, now: Instant): (r: Option<TimeBudget>)
      reads this
      ensures r == FindByUserAndWeek(userId, now)
    {
      WeekStartIdempotent(now);
      FindByUserAndWeek(userId, GetWeekStart(now))
    }

    /** `create`; the unique (user, week) constraint rejects a second budget for the same
        week, which leaves the table as it was. */
    method Create(data: CreateTimeBudgetInput) returns (r: Option<TimeBudget>)
      requires Valid()
      modifies this
      ensures Valid()
      ensures r.None? <==> old(FindByUserAndWeek(data.userId, data.weekStart)).Some?
      ensures r.None? ==> budgets == old(budgets) && nextId == old(nextId)
      ensures r.Some? ==> r.value == NewBudget(old(nextId), data)
                          && budgets == old(budgets) + [r.value] && nextId == old(nextId) + 1
    {
      if FindByUserAndWeek(data.userId, data.weekStart).Some? {
        return None;
      }
      var b := NewBudget(nextId, data);
      budgets := budgets + [b];
      nextId := nextId + 1;
      r := Some(b);
    }

    /** `update`; a missing id is an error and changes nothing. */
    method Update(id: Id, data: UpdateTimeBudgetInput) returns (r: Option<TimeBudget>)
      requires Valid()
      modifies this
      ensures Valid() && nextId == old(nextId)
      ensures r.None? <==> old(FindById(id)).None?
      ensures r.None? ==> budgets == old(budgets)
      ensures r.Some? ==>
        var i := IndexWhere(old(budgets), HasId(id));
        0 <= i && r.value == Merge(old(budgets)[i], data) && budgets == old(budgets)[i := r.value]
    {
      var i := IndexWhere(budgets, HasId(id));
      if i == -1 {
        return None;
      }
      var b := Merge(budgets[i], data);
      budgets := budgets[i := b];
      r := Some(b);
    }

    /** `delete`; a missing id is an error and changes nothing. */
    method Delete(id: Id) returns (deleted: bool)
      requires Valid()
      modifies this
      ensures Valid() && nextId == old(nextId)
      ensures deleted <==> old(FindById(id)).Some?
      ensures !deleted ==> budgets == old(budgets)
      ensures deleted ==> budgets == RemoveAt(old(budgets), IndexWhere(old(budgets), HasId(id)))
    {
      var i := IndexWhere(budgets, HasId(id));
      if i == -1 {
        return false;
      }
      budgets := RemoveAt(budgets, i);
      deleted := true;
    }
  }

  /** Normalising the week first makes no difference to the lookup. */
  lemma FindByUserAndWeekNormalises(repo: TimeBudgetRepository, userId: Id, t: Instant)
    ensures repo.FindByUserAndWeek(userId, GetWeekStart(t)) == repo.FindByUserAndWeek(userId, t)
  {
    WeekStartIdempotent(t);
  }

  /** In a valid table each (user, week) has at most one budget, so the lookup finds the
      budget exactly when one is stored. */
  lemma FindByUserAndWeekExact(repo: TimeBudgetRepository, b: TimeBudget, t: Instant)
    requires repo.Valid() && b in repo.budgets && b.weekStart == GetWeekStart(t)
    ensures repo.FindByUserAndWeek(b.userId, t) == Some(b)
  {
    var r := repo.FindByUserAndWeek(b.userId, t);
    var i :| 0 <= i < |repo.budgets| && repo.budgets[i] == b;
    var j :| 0 <= j < |repo.budgets| && repo.budgets[j] == r.value;
    assert WeekKey(repo.budgets[i]) == WeekKey(repo.budgets[j]);
  }
}
