/** The analytics use cases: the metrics of one week, computed from the week's budget and
    activities, and the trend of completed reviews. Both only read and never fail. */
module AnalyticsUseCases {
  import opened Common
  import opened Results
  import opened DomainErrors
  import opened Seqs
  import opened Grouping
  import Rounding
  import opened TimeBudgetEntity
  import opened ActivityEntity
  import opened CategoryEntity
  import opened WeeklyReviewEntity
  import TimeBudgetRepo
  import opened ActivityRepo
  import opened WeekMetrics
  import CategoryRepo
  import WeeklyReviewRepo

  /** How many weeks the trend looks back when no number is given. */
  const DEFAULT_TREND_WEEKS: nat := 8

  datatype CategoryBreakdown = CategoryBreakdown(
    categoryId: Id,
    categoryName: string,
    categoryColor: string,
    totalMinutes: int,
    percentage: int)

  /** `WeeklyAnalyticsDto`; the average satisfaction is given in tenths (3.5 is 35). */
  datatype WeeklyAnalytics = WeeklyAnalytics(
    weekStart: Instant,
    totalTrackedMinutes: int,
    availableMinutes: int,
    usagePercentage: int,
    categoryBreakdown: seq<CategoryBreakdown>,
    priorityAlignment: int,
    averageSatisfactionTenths: int)

  /** `TrendDataDto`. */
  datatype TrendData = TrendData(week: Instant, totalTracked: int, priorityAligned: int, score: int)

  function HasSatisfaction(a: Activity): bool { a.satisfactionLevel.Some? }
  function Satisfaction(a: Activity): int { a.satisfactionLevel.GetOr(0) }

  /** `whole > 0 ? Math.round(part / whole * 100) : 0`, on exact rationals. */
  function Percent(part: int, whole: int): (r: int)
    ensures whole <= 0 ==> r == 0
    ensures whole > 0 ==> 2 * whole * r - whole <= 200 * part < 2 * whole * r + whole
    ensures 0 <= part <= whole ==> 0 <= r <= 100
  {
    if whole <= 0 then 0
    else if 0 <= part <= whole then
      Rounding.PercentInRange(part, whole);
      Rounding.RoundQuot(100 * part, whole)
    else Rounding.RoundQuot(100 * part, whole)
  }

  /** The colour of category `id` in the table, or the grey used for an unknown one. */
  function CategoryColor(categories: seq<Category>, id: Id): (color: string)
    ensures (forall c :: c in categories ==> c.id != id) ==> color == UNKNOWN_CATEGORY_COLOR
    ensures (exists c :: c in categories && c.id == id) ==>
              exists c :: c in categories && c.id == id && color == c.color
  {
    match Find(categories, CategoryHasId(id))
    case Some(c) => c.color
    case None => UNKNOWN_CATEGORY_COLOR
  }

  function BreakdownMinutes(c: CategoryBreakdown): int { c.totalMinutes }

  /** One breakdown entry per category total, with its colour and its share of `total`;
      the entries add up to the totals they come from. */
  function Breakdown(sums: seq<CategoryDurationSum>, categories: seq<Category>, total: int): (r: seq<CategoryBreakdown>)
    ensures |r| == |sums|
    ensures forall k :: 0 <= k < |r| ==>
              && r[k].categoryId == sums[k].categoryId && r[k].categoryName == sums[k].categoryName
              && r[k].totalMinutes == sums[k].totalMinutes
              && r[k].categoryColor == CategoryColor(categories, sums[k].categoryId)
              && r[k].percentage == Percent(sums[k].totalMinutes, total)
    ensures SumBy(r, BreakdownMinutes) == SumBy(sums, TotalOf)
  {
    if sums == [] then []
    else
      [CategoryBreakdown(sums[0].categoryId, sums[0].categoryName, CategoryColor(categories, sums[0].categoryId),
                         sums[0].totalMinutes, Percent(sums[0].totalMinutes, total))]
      + Breakdown(sums[1..], categories, total)
  }

  /** `Math.round(average * 10)`, the average satisfaction in tenths, 0 with no ratings. */
  function AverageTenths(rated: seq<Activity>): (r: int)
    ensures rated == [] ==> r == 0
    ensures rated != [] ==>
      2 * |rated| * r - |rated| <= 20 * SumBy(rated, Satisfaction) < 2 * |rated| * r + |rated|
  {
    if rated == [] then 0 else Rounding.RoundQuot(10 * SumBy(rated, Satisfaction), |rated|)
  }

  /** The metrics of a week starting at `weekStart`, from its available minutes, its
      activities and their category totals: the tracked total and the aligned share, the
      use of the available time, each category's share, and the average rating. */
  function Metrics(weekStart: Instant, available: int, week: seq<Activity>,
                   sums: seq<CategoryDurationSum>, categories: seq<Category>): (r: WeeklyAnalytics)
    ensures r.weekStart == weekStart && r.availableMinutes == available
    ensures r.totalTrackedMinutes == TrackedMinutes(week)
    ensures r.usagePercentage == Percent(r.totalTrackedMinutes, available)
    ensures r.priorityAlignment == Percent(AlignedMinutes(week), r.totalTrackedMinutes)
    ensures r.averageSatisfactionTenths == AverageTenths(Filter(week, HasSatisfaction))
    ensures r.categoryBreakdown == Breakdown(sums, categories, r.totalTrackedMinutes)
  {
    var total := TrackedMinutes(week);
    WeeklyAnalytics(weekStart, total, available, Percent(total, available), Breakdown(sums, categories, total),
                    Percent(AlignedMinutes(week), total),
                    AverageTenths(Filter(week, HasSatisfaction)))
  }

  /** The available minutes of the user's budget for the week, or 0 when there is none. */
  function AvailableFor(budgets: TimeBudgetRepo.TimeBudgetRepository, userId: Id, weekStart: Instant): (m: int)
    reads budgets
    ensures budgets.FindByUserAndWeek(userId, weekStart).None? ==> m == 0
    ensures budgets.FindByUserAndWeek(userId, weekStart).Some? ==>
              m == budgets.FindByUserAndWeek(userId, weekStart).value.availableMinutes
  {
    match budgets.FindByUserAndWeek(userId, weekStart)
    case Some(b) => b.availableMinutes
    case None => 0
  }

  /** The week the analytics are for: the one containing `weekStartDate`, or the week of
      `now` when no date is given. */
  function AnalyticsWeek(weekStartDate: Option<Instant>, now: Instant): (ws: Instant)
    ensures IsWeekStart(ws)
    ensures ws <= weekStartDate.GetOr(now) < ws + MS_PER_WEEK
  {
    WeekStartIdempotent(weekStartDate.GetOr(now));
    GetWeekStart(weekStartDate.GetOr(now))
  }

  /** `GetWeeklyAnalyticsUseCase.execute`: it always succeeds, with the metrics of the
      chosen week's budget and activities. */
  function GetWeeklyAnalytics(budgets: TimeBudgetRepo.TimeBudgetRepository, activities: ActivityRepository,
                              categories: CategoryRepo.CategoryRepository, userId: Id,
                              weekStartDate: Option<Instant>, now: Instant): (r: Result<WeeklyAnalytics, DomainError>)
    reads budgets, activities, categories
    ensures r.Success?
    ensures r.value == Metrics(AnalyticsWeek(weekStartDate, now),
                               AvailableFor(budgets, userId, AnalyticsWeek(weekStartDate, now)),
                               WeekActivities(activities, userId, AnalyticsWeek(weekStartDate, now)),
                               activities.SumDurationByCategory(userId, AnalyticsWeek(weekStartDate, now),
                                                                AnalyticsWeek(weekStartDate, now) + MS_PER_WEEK, categories.FindAll()),
                               categories.FindAll())
  {
    Success(Metrics(AnalyticsWeek(weekStartDate, now),
                    AvailableFor(budgets, userId, AnalyticsWeek(weekStartDate, now)),
                    WeekActivities(activities, userId, AnalyticsWeek(weekStartDate, now)),
                    activities.SumDurationByCategory(userId, AnalyticsWeek(weekStartDate, now),
                                                     AnalyticsWeek(weekStartDate, now) + MS_PER_WEEK, categories.FindAll()),
                    categories.FindAll()))
  }

  /** What the metrics mean on their own: no tracked time means no alignment, no available
      time means no usage, the category entries add up to their totals, and with no negative
      durations the aligned minutes are part of the tracked ones, so the alignment lies in
      [0, 100]. */
  lemma MetricsMeaning(weekStart: Instant, available: int, week: seq<Activity>,
                       sums: seq<CategoryDurationSum>, categories: seq<Category>)
    ensures Metrics(weekStart, available, week, sums, categories).totalTrackedMinutes == 0
            ==> Metrics(weekStart, available, week, sums, categories).priorityAlignment == 0
    ensures available <= 0 ==> Metrics(weekStart, available, week, sums, categories).usagePercentage == 0
    ensures SumBy(Metrics(weekStart, available, week, sums, categories).categoryBreakdown, BreakdownMinutes)
            == SumBy(sums, TotalOf)
    ensures (forall a :: a in week ==> a.durationMinutes >= 0) ==>
              0 <= Metrics(weekStart, available, week, sums, categories).priorityAlignment <= 100
  {
    if forall a :: a in week ==> a.durationMinutes >= 0 {
      AlignedWithinTracked(week);
    }
  }

  /** The category entries of a week's analytics add up to the minutes tracked in that
      week, whatever the category table holds. */
  lemma WeeklyBreakdownAddsUp(activities: ActivityRepository, categories: seq<Category>, userId: Id,
                              weekStart: Instant, total: int)
    ensures SumBy(Breakdown(activities.SumDurationByCategory(userId, weekStart, weekStart + MS_PER_WEEK, categories),
                            categories, total), BreakdownMinutes)
            == TrackedMinutes(WeekActivities(activities, userId, weekStart))
  {
    CategoryTotalsAddUp(activities, userId, weekStart, weekStart + MS_PER_WEEK, categories);
  }

  /** A completed review as a trend point: its week, its minutes, and its score or 0. */
  function ToTrend(r: WeeklyReview): (t: TrendData)
    ensures t.week == r.weekStart && t.totalTracked == r.totalTrackedMinutes
    ensures t.priorityAligned == r.priorityAlignedMinutes
    ensures t.score == (if r.overallScore.Some? then r.overallScore.value else 0)
  {
    TrendData(r.weekStart, r.totalTrackedMinutes, r.priorityAlignedMinutes, r.overallScore.GetOr(0))
  }

  function IsCompleted(r: WeeklyReview): bool { r.isCompleted }

  /** `reviews.map(toTrend).reverse()`: the trend points in the opposite order. */
  function TrendsOf(reviews: seq<WeeklyReview>): (r: seq<TrendData>)
    ensures |r| == |reviews|
    ensures forall k :: 0 <= k < |r| ==> r[k] == ToTrend(reviews[|reviews| - 1 - k])
  {
    if reviews == [] then [] else TrendsOf(reviews[1..]) + [ToTrend(reviews[0])]
  }

  /** Reversing a list sorted latest week first gives the oldest week first. */
  lemma TrendsOldestFirst(reviews: seq<WeeklyReview>)
    requires Sorted(reviews, WeeklyReviewRepo.WeekDesc)
    ensures forall i, j :: 0 <= i < j < |TrendsOf(reviews)| ==> TrendsOf(reviews)[i].week <= TrendsOf(reviews)[j].week
  {
    var t := TrendsOf(reviews);
    var n := |reviews|;
    forall i, j | 0 <= i < j < |t|
      ensures t[i].week <= t[j].week
    {
      assert WeeklyReviewRepo.WeekDesc(reviews[n - 1 - j], reviews[n - 1 - i]);
    }
  }

  /** `GetTrendsUseCase.execute`: of the user's latest `weeks` reviews (8 by default), the
      completed ones, oldest first. It never fails. */
  function GetTrends(reviews: WeeklyReviewRepo.WeeklyReviewRepository, userId: Id, weeks: Option<nat>)
    : (r: Result<seq<TrendData>, DomainError>)
    reads reviews
    ensures r.Success?
    ensures |r.value| <= weeks.GetOr(DEFAULT_TREND_WEEKS)
    ensures r.value == TrendsOf(Filter(reviews.FindByUser(userId, Some(weeks.GetOr(DEFAULT_TREND_WEEKS))), IsCompleted))
    ensures forall i, j :: 0 <= i < j < |r.value| ==> r.value[i].week <= r.value[j].week
  {
    var fetched := reviews.FindByUser(userId, Some(weeks.GetOr(DEFAULT_TREND_WEEKS)));
    var completed := Filter(fetched, IsCompleted);
    FilterKeepsSorted(fetched, IsCompleted, WeeklyReviewRepo.WeekDesc);
    TrendsOldestFirst(completed);
    Success(TrendsOf(completed))
  }

  /** Every trend point is a completed review of the user. */
  lemma TrendsAreCompletedReviews(reviews: WeeklyReviewRepo.WeeklyReviewRepository, userId: Id, weeks: Option<nat>, k: nat)
    requires k < |GetTrends(reviews, userId, weeks).value|
    ensures exists q :: q in reviews.reviews && q.userId == userId && q.isCompleted
                        && GetTrends(reviews, userId, weeks).value[k] == ToTrend(q)
  {
    var fetched := reviews.FindByUser(userId, Some(weeks.GetOr(DEFAULT_TREND_WEEKS)));
    var completed := Filter(fetched, IsCompleted);
    var q := completed[|completed| - 1 - k];
    assert q in completed;
  }
}
