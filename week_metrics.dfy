/** The two weekly sums that both the analytics and the weekly review compute from a
    week's activities: the minutes tracked, and the part of them aligned with the user's
    priorities. */
module WeekMetrics {
  import opened Common
  import opened Seqs
  import opened TimeBudgetEntity
  import opened ActivityEntity
  import opened ActivityRepo

  /** The user's activities dated in the seven days from `weekStart`, latest first. */
  function WeekActivities(activities: ActivityRepository, userId: Id, weekStart: Instant): (week: seq<Activity>)
    reads activities
    ensures forall a :: a in week <==>
              a in activities.activities && a.userId == userId && weekStart <= a.date < weekStart + MS_PER_WEEK
  {
    activities.FindByDateRange(userId, weekStart, weekStart + MS_PER_WEEK)
  }

  function IsAligned(a: Activity): bool { a.alignedWithPriorities }

  /** `activities.reduce((sum, a) => sum + a.durationMinutes, 0)`. */
  function TrackedMinutes(week: seq<Activity>): (m: int)
    ensures week == [] ==> m == 0
  {
    SumBy(week, Duration)
  }

  /** The same sum over the activities aligned with the priorities. */
  function AlignedMinutes(week: seq<Activity>): (m: int)
    ensures (forall a :: a in week ==> !a.alignedWithPriorities) ==> m == 0
  {
    SumBy(Filter(week, IsAligned), Duration)
  }

  /** With no negative durations, the aligned minutes are part of the tracked ones. */
  lemma AlignedWithinTracked(week: seq<Activity>)
    requires forall a :: a in week ==> a.durationMinutes >= 0
    ensures 0 <= AlignedMinutes(week) <= TrackedMinutes(week)
  {
    assert forall k :: 0 <= k < |week| ==> week[k] in week;
    SumByFilterLe(week, IsAligned, Duration);
  }
}
