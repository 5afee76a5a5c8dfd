/** The activity table: date-ordered listings with optional filters and paging, and the
    per-category duration totals behind the analytics. */
module ActivityRepo {
  import opened Common
  import opened Seqs
  import opened Grouping
  import opened ActivityEntity
  import opened CategoryEntity

  datatype ActivityQueryOptions = ActivityQueryOptions(
    startDate: Option<Instant>,
    endDate: Option<Instant>,
    categoryId: Option<Id>,
    limit: Option<nat>,
    offset: Option<nat>)

  datatype CreateActivityInput = CreateActivityInput(
    userId: Id,
    timeBudgetId: Option<Id>,
    name: string,
    description: Option<string>,
    categoryId: Id,
    durationMinutes: int,
    date: Instant,
    alignedWithPriorities: Option<bool>,
    satisfactionLevel: Option<int>)

  datatype UpdateActivityInput = UpdateActivityInput(
    name: Option<string>,
    description: Option<string>,
    categoryId: Option<Id>,
    durationMinutes: Option<int>,
    date: Option<Instant>,
    alignedWithPriorities: Option<bool>,
    satisfactionLevel: Option<int>)

  datatype CategoryDurationSum = CategoryDurationSum(categoryId: Id, categoryName: string, totalMinutes: int)

  /** The name given to a grouped category that is not in the category table. */
  const UNKNOWN_CATEGORY_NAME: string := "Desconocido"

  function IdOf(a: Activity): Id { a.id }
  function Duration(a: Activity): int { a.durationMinutes }
  function CategoryOf(a: Activity): Id { a.categoryId }
  function TotalOf(c: CategoryDurationSum): int { c.totalMinutes }
  function HasId(id: Id): Activity -> bool { (a: Activity) => a.id == id }

  /** `orderBy: { date: 'desc' }`. */
  function DateDesc(a: Activity, b: Activity): bool { a.date >= b.date }

  /** Where clause of `findByDateRange` and `sumDurationByCategory`: dated in [start, end). */
  function DatedIn(userId: Id, startDate: Instant, endDate: Instant): Activity -> bool {
    (a: Activity) => a.userId == userId && startDate <= a.date < endDate
  }

  /** Where clause of `findByTimeBudget`. */
  function LinkedTo(timeBudgetId: Id): Activity -> bool {
    (a: Activity) => a.timeBudgetId == Some(timeBudgetId)
  }

  /** Where clause of `findByUser`: the date range (both ends included) applies only when
      both bounds are given, and the category only when one is given. */
  function Matches(userId: Id, options: ActivityQueryOptions): Activity -> bool {
    (a: Activity) =>
      a.userId == userId
      && (options.startDate.Some? && options.endDate.Some? ==>
            options.startDate.value <= a.date <= options.endDate.value)
      && (options.categoryId.Some? ==> a.categoryId == options.categoryId.value)
  }

  predicate TableValid(activities: seq<Activity>, nextId: Id) {
    KeysUnique(activities, IdOf) && IdsBelow(activities, IdOf, nextId)
  }

  /** The activity `create` stores: not aligned with the priorities unless said so. */
  function NewActivity(id: Id, data: CreateActivityInput): (a: Activity)
    ensures a.id == id && a.userId == data.userId && a.timeBudgetId == data.timeBudgetId
    ensures a.name == data.name && a.description == data.description && a.categoryId == data.categoryId
    ensures a.durationMinutes == data.durationMinutes && a.date == data.date
    ensures a.satisfactionLevel == data.satisfactionLevel
    ensures a.alignedWithPriorities == (data.alignedWithPriorities == Some(true))
  {
    Activity(id, data.userId, data.timeBudgetId, data.name, data.description, data.categoryId,
             data.durationMinutes, data.date, data.alignedWithPriorities.GetOr(false), data.satisfactionLevel)
  }

  /** The activity `update` writes: the defined fields and nothing else. */
  function ApplyUpdate(a: Activity, data: UpdateActivityInput): (b: Activity)
    ensures b.id == a.id && b.userId == a.userId && b.timeBudgetId == a.timeBudgetId
    ensures b.name == (if data.name.Some? then data.name.value else a.name)
    ensures b.description == (if data.description.Some? then data.description else a.description)
    ensures b.categoryId == (if data.categoryId.Some? then data.categoryId.value else a.categoryId)
    ensures b.durationMinutes == (if data.durationMinutes.Some? then data.durationMinutes.value else a.durationMinutes)
    ensures b.date == (if data.date.Some? then data.date.value else a.date)
    ensures b.alignedWithPriorities == (if data.alignedWithPriorities.Some? then data.alignedWithPriorities.value else a.alignedWithPriorities)
    ensures b.satisfactionLevel == (if data.satisfactionLevel.Some? then data.satisfactionLevel else a.satisfactionLevel)
  {
    Activity(a.id, a.userId, a.timeBudgetId, data.name.GetOr(a.name),
             if data.description.Some? then data.description else a.description,
             data.categoryId.GetOr(a.categoryId), data.durationMinutes.GetOr(a.durationMinutes),
             data.date.GetOr(a.date), data.alignedWithPriorities.GetOr(a.alignedWithPriorities),
             if data.satisfactionLevel.Some? then data.satisfactionLevel else a.satisfactionLevel)
  }

  function CategoryHasId(id: Id): Category -> bool { (c: Category) => c.id == id }

  /** The name of category `id`, or "Desconocido". */
  function CategoryName(categories: seq<Category>, id: Id): string {
    match Find(categories, CategoryHasId(id))
    case Some(c) => c.name
    case None => UNKNOWN_CATEGORY_NAME
  }

  /** A known category is named by its table entry, an unknown one "Desconocido". */
  lemma CategoryNameLookup(categories: seq<Category>, id: Id)
    ensures (exists c :: c in categories && c.id == id) ==>
              exists c :: c in categories && c.id == id && c.name == CategoryName(categories, id)
    ensures (forall c :: c in categories ==> c.id != id) ==> CategoryName(categories, id) == UNKNOWN_CATEGORY_NAME
  {
    var r := Find(categories, CategoryHasId(id));
    if r.Some? {
      assert r.value in categories && r.value.id == id;
    }
  }

  /** One total per listed category, over the given activities. */
  function Summaries(ks: seq<Id>, inRange: seq<Activity>, categories: seq<Category>): (r: seq<CategoryDurationSum>)
    ensures |r| == |ks|
    ensures forall k :: 0 <= k < |r| ==>
              && r[k].categoryId == ks[k]
              && r[k].totalMinutes == GroupTotal(inRange, CategoryOf, Duration, ks[k])
              && r[k].categoryName == CategoryName(categories, ks[k])
    ensures SumBy(r, TotalOf) == SumGroups(ks, inRange, CategoryOf, Duration)
  {
    if ks == [] then []
    else
      [CategoryDurationSum(ks[0], CategoryName(categories, ks[0]), GroupTotal(inRange, CategoryOf, Duration, ks[0]))]
      + Summaries(ks[1..], inRange, categories)
  }

  /** Some activity of `inRange` belongs to category `categoryId`. */
  ghost predicate HasActivityIn(inRange: seq<Activity>, categoryId: Id) {
    exists a :: a in inRange && a.categoryId == categoryId
  }

  /** Every category summarised for a range has an activity in it: `groupBy` makes no
      empty groups. */
  lemma SummariesArePresent(inRange: seq<Activity>, categories: seq<Category>)
    ensures forall k :: 0 <= k < |Summaries(DistinctKeys(inRange, CategoryOf), inRange, categories)| ==>
              HasActivityIn(inRange, Summaries(DistinctKeys(inRange, CategoryOf), inRange, categories)[k].categoryId)
  {
    forall k | 0 <= k < |Summaries(DistinctKeys(inRange, CategoryOf), inRange, categories)|
      ensures HasActivityIn(inRange, Summaries(DistinctKeys(inRange, CategoryOf), inRange, categories)[k].categoryId)
    {
      var i := KeyWitness(inRange, CategoryOf, k);
      assert inRange[i] in inRange;
    }
  }

  class ActivityRepository {
    var activities: seq<Activity>
    var nextId: Id

    predicate Valid()
      reads this
    {
      TableValid(activities, nextId)
    }

    constructor()
      ensures Valid() && activities == []
    {
      activities := [];
      nextId := 0;
    }

    function FindById(id: Id): (r: Option<Activity>)
      reads this
      ensures r.Some? ==> r.value in activities && r.value.id == id
      ensures r.None? ==> forall a :: a in activities ==> a.id != id
    {
      Find(activities, HasId(id))
    }

    /** The user's activities matching the options, newest first, then `skip`/`take`. */
    function FindByUser(userId: Id, options: ActivityQueryOptions): (r: seq<Activity>)
      reads this
      ensures exists all :: multiset(all) == multiset(Filter(activities, Matches(userId, options)))
                           && Sorted(all, DateDesc) && r == Page(all, options.offset, options.limit)
      ensures options.limit.Some? ==> |r| <= options.limit.value
      ensures forall a :: a in r ==> a in activities && Matches(userId, options)(a)
    {
      var all := SortBy(Filter(activities, Matches(userId, options)), DateDesc);
      Page(all, options.offset, options.limit)
    }

    /** `findByTimeBudget`: the activities linked to the budget, newest first, whoever owns
        them. */
    function FindByTimeBudget(timeBudgetId: Id): (r: seq<Activity>)
      reads this
      ensures multiset(r) == multiset(Filter(activities, LinkedTo(timeBudgetId)))
      ensures forall a :: a in r <==> a in activities && a.timeBudgetId == Some(timeBudgetId)
      ensures Sorted(r, DateDesc)
    {
      SortBy(Filter(activities, LinkedTo(timeBudgetId)), DateDesc)
    }

    /** The user's activities dated in the half-open range [startDate, endDate), newest
        first. */
    function FindByDateRange(userId: Id, startDate: Instant, endDate: Instant): (r: seq<Activity>)
      reads this
      ensures multiset(r) == multiset(Filter(activities, DatedIn(userId, startDate, endDate)))
      ensures forall a :: a in r <==> a in activities && a.userId == userId && startDate <= a.date < endDate
      ensures Sorted(r, DateDesc)
    {
      var r := SortBy(Filter(activities, DatedIn(userId, startDate, endDate)), DateDesc);
      r
    }

    /** `sumDurationByCategory`: one entry per category with activities in [startDate,
        endDate), holding their total duration and the category's name. */
    function SumDurationByCategory(userId: Id, startDate: Instant, endDate: Instant, categories: seq<Category>)
      : (r: seq<CategoryDurationSum>)
      reads this
      ensures forall i, j :: 0 <= i < j < |r| ==> r[i].categoryId != r[j].categoryId
      ensures forall k :: 0 <= k < |r| ==>
                && r[k].categoryName == CategoryName(categories, r[k].categoryId)
                && r[k].totalMinutes
                   == GroupTotal(Filter(activities, DatedIn(userId, startDate, endDate)), CategoryOf, Duration, r[k].categoryId)
      ensures forall k :: 0 <= k < |r| ==> HasActivityIn(Filter(activities, DatedIn(userId, startDate, endDate)), r[k].categoryId)
    {
      var inRange := Filter(activities, DatedIn(userId, startDate, endDate));
      SummariesArePresent(inRange, categories);
      Summaries(DistinctKeys(inRange, CategoryOf), inRange, categories)
    }

    method Create(data: CreateActivityInput) returns (a: Activity)
      requires Valid()
      modifies this
      ensures Valid()
      ensures a == NewActivity(old(nextId), data)
      ensures activities == old(activities) + [a] && nextId == old(nextId) + 1
    {
      a := NewActivity(nextId, data);
      activities := activities + [a];
      nextId := nextId + 1;
    }

    /** `update`; a missing id is an error and changes nothing. */
    method Update(id: Id, data: UpdateActivityInput) returns (r: Option<Activity>)
      requires Valid()
      modifies this
      ensures Valid() && nextId == old(nextId)
      ensures r.None? <==> old(FindById(id)).None?
      ensures r.None? ==> activities == old(activities)
      ensures r.Some? ==>
        var i := IndexWhere(old(activities), HasId(id));
        0 <= i && r.value == ApplyUpdate(old(activities)[i], data) && activities == old(activities)[i := r.value]
    {
      var i := IndexWhere(activities, HasId(id));
      if i == -1 {
        return None;
      }
      var b := ApplyUpdate(activities[i], data);
      activities := activities[i := b];
      r := Some(b);
    }

    /** `delete`; a missing id is an error and changes nothing. */
    method Delete(id: Id) returns (deleted: bool)
      requires Valid()
      modifies this
      ensures Valid() && nextId == old(nextId)
      ensures deleted <==> old(FindById(id)).Some?
      ensures !deleted ==> activities == old(activities)
      ensures deleted ==> activities == RemoveAt(old(activities), IndexWhere(old(activities), HasId(id)))
    {
      var i := IndexWhere(activities, HasId(id));
      if i == -1 {
        return false;
      }
      activities := RemoveAt(activities, i);
      deleted := true;
    }
  }

  /** Every category with an activity in the range has an entry. */
  lemma EveryCategoryGrouped(repo: ActivityRepository, userId: Id, startDate: Instant, endDate: Instant,
                             categories: seq<Category>, a: Activity)
    requires a in repo.activities && a.userId == userId && startDate <= a.date < endDate
    ensures exists k :: 0 <= k < |repo.SumDurationByCategory(userId, startDate, endDate, categories)|
              && repo.SumDurationByCategory(userId, startDate, endDate, categories)[k].categoryId == a.categoryId
  {
    var inRange := Filter(repo.activities, DatedIn(userId, startDate, endDate));
    assert DatedIn(userId, startDate, endDate)(a);
    var k := SummaryOf(inRange, categories, a);
    var r := repo.SumDurationByCategory(userId, startDate, endDate, categories);
    assert r == Summaries(DistinctKeys(inRange, CategoryOf), inRange, categories);
    assert 0 <= k < |r| && r[k].categoryId == a.categoryId;
  }

  /** The position of an activity's category among the summaries of a range holding it. */
  lemma SummaryOf(inRange: seq<Activity>, categories: seq<Category>, a: Activity) returns (k: nat)
    requires a in inRange
    ensures k < |Summaries(DistinctKeys(inRange, CategoryOf), inRange, categories)|
    ensures Summaries(DistinctKeys(inRange, CategoryOf), inRange, categories)[k].categoryId == a.categoryId
  {
    var ks := DistinctKeys(inRange, CategoryOf);
    var i :| 0 <= i < |inRange| && inRange[i] == a;
    assert CategoryOf(inRange[i]) in ks;
    k :| 0 <= k < |ks| && ks[k] == CategoryOf(a);
  }

  /** The category totals add up to the total duration of the range listing. */
  lemma CategoryTotalsAddUp(repo: ActivityRepository, userId: Id, startDate: Instant, endDate: Instant,
                            categories: seq<Category>)
    ensures SumBy(repo.SumDurationByCategory(userId, startDate, endDate, categories), TotalOf)
            == SumBy(repo.FindByDateRange(userId, startDate, endDate), Duration)
  {
    var inRange := Filter(repo.activities, DatedIn(userId, startDate, endDate));
    GroupTotalsAddUp(inRange, CategoryOf, Duration);
    SumByPermutation(repo.FindByDateRange(userId, startDate, endDate), inRange, Duration);
  }
}
