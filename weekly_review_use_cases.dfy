/** The weekly-review use cases: open (or reopen) the review of a week, refreshing the
    minutes of an open review from the week's activities; complete it, once; and list the
    history. */
module WeeklyReviewUseCases {
  import opened Common
  import opened Results
  import opened DomainErrors
  import opened Seqs
  import opened TimeBudgetEntity
  import opened ActivityEntity
  import opened WeeklyReviewEntity
  import ActivityRepo
  import opened WeeklyReviewRepo
  import opened WeekMetrics

  const INVALID_SCORE_MESSAGE: string := "La puntuación debe estar entre 0 y 100"

  /** `CompleteWeeklyReviewDto`. */
  datatype CompleteWeeklyReviewDto = CompleteWeeklyReviewDto(
    wins: seq<string>,
    challenges: seq<string>,
    improvements: seq<string>,
    overallScore: int)

  /** `WeeklyReviewResponseDto`: the stored review with its two percentages. */
  datatype ReviewResponse = ReviewResponse(
    id: Id,
    weekStart: Instant,
    totalTrackedMinutes: int,
    priorityAlignedMinutes: int,
    wastedMinutes: int,
    alignmentPercentage: int,
    wastedPercentage: int,
    wins: seq<string>,
    challenges: seq<string>,
    improvements: seq<string>,
    overallScore: Option<int>,
    isCompleted: bool,
    completedAt: Option<Instant>)

  /** The response for a stored review: its fields as stored, and percentages derived from
      its minutes on every read (they are never stored). */
  function ToResponse(r: WeeklyReview): (d: ReviewResponse)
    ensures d.id == r.id && d.weekStart == r.weekStart
    ensures d.totalTrackedMinutes == r.totalTrackedMinutes && d.priorityAlignedMinutes == r.priorityAlignedMinutes
    ensures d.wastedMinutes == r.wastedMinutes
    ensures d.alignmentPercentage == AlignmentPercentage(r.totalTrackedMinutes, r.priorityAlignedMinutes)
    ensures d.wastedPercentage == WastedPercentage(r.totalTrackedMinutes, r.wastedMinutes)
    ensures d.wins == r.wins && d.challenges == r.challenges && d.improvements == r.improvements
    ensures d.overallScore == r.overallScore && d.isCompleted == r.isCompleted && d.completedAt == r.completedAt
  {
    ReviewResponse(r.id, r.weekStart, r.totalTrackedMinutes, r.priorityAlignedMinutes, r.wastedMinutes,
                   AlignmentPercentage(r.totalTrackedMinutes, r.priorityAlignedMinutes),
                   WastedPercentage(r.totalTrackedMinutes, r.wastedMinutes),
                   r.wins, r.challenges, r.improvements, r.overallScore, r.isCompleted, r.completedAt)
  }

  /** The update an open review gets on read: its tracked and aligned minutes from the
      week's activities, and nothing else. */
  function RefreshInput(week: seq<Activity>): (data: UpdateWeeklyReviewInput)
    ensures data.totalTrackedMinutes == Some(TrackedMinutes(week))
    ensures data.priorityAlignedMinutes == Some(AlignedMinutes(week))
    ensures data.wastedMinutes.None? && data.wins.None? && data.challenges.None?
    ensures data.improvements.None? && data.overallScore.None?
  {
    UpdateWeeklyReviewInput(Some(TrackedMinutes(week)), Some(AlignedMinutes(week)), None, None, None, None, None)
  }

  /** An open review after the refresh: the recomputed minutes, the wasted minutes and
      everything else as before. */
  function Refreshed(r: WeeklyReview, week: seq<Activity>): (q: WeeklyReview)
    ensures q.totalTrackedMinutes == TrackedMinutes(week) && q.priorityAlignedMinutes == AlignedMinutes(week)
    ensures q == r.(totalTrackedMinutes := TrackedMinutes(week), priorityAlignedMinutes := AlignedMinutes(week))
  {
    ApplyUpdate(r, RefreshInput(week))
  }

  /** After a refresh from activities with no negative durations, the aligned minutes are
      part of the tracked ones and the alignment shown lies in [0, 100]. */
  lemma RefreshedAlignmentInRange(r: WeeklyReview, week: seq<Activity>)
    requires forall a :: a in week ==> a.durationMinutes >= 0
    ensures 0 <= Refreshed(r, week).priorityAlignedMinutes <= Refreshed(r, week).totalTrackedMinutes
    ensures 0 <= ToResponse(Refreshed(r, week)).alignmentPercentage <= 100
  {
    AlignedWithinTracked(week);
    AlignmentInRange(TrackedMinutes(week), AlignedMinutes(week));
  }

  /** The first step of opening a week: the user's stored review of week `ws`, or a new
      one created for it. Either way the review is stored at the position a lookup by its
      id finds. */
  method FindOrCreate(reviews: WeeklyReviewRepository, userId: Id, ws: Instant) returns (review: WeeklyReview)
    requires reviews.Valid() && IsWeekStart(ws)
    modifies reviews
    ensures reviews.Valid()
    ensures old(reviews.FindByUserAndWeek(userId, ws)).Some? ==>
              review == old(reviews.FindByUserAndWeek(userId, ws)).value && reviews.reviews == old(reviews.reviews)
    ensures old(reviews.FindByUserAndWeek(userId, ws)).None? ==>
              review == NewReview(old(reviews.nextId), userId, ws) && reviews.reviews == old(reviews.reviews) + [review]
              && IndexWhere(reviews.reviews, HasId(review.id)) == |old(reviews.reviews)|
    ensures 0 <= IndexWhere(reviews.reviews, HasId(review.id))
    ensures reviews.reviews[IndexWhere(reviews.reviews, HasId(review.id))] == review
  {
    var found := reviews.FindByUserAndWeek(userId, ws);
    if found.Some? {
      review := found.value;
      ghost var i := IndexWhere(reviews.reviews, HasId(review.id));
      assert reviews.reviews[i] == review by {
        var j :| 0 <= j < |reviews.reviews| && reviews.reviews[j] == review;
        assert IdOf(reviews.reviews[i]) == IdOf(reviews.reviews[j]);
      }
      return;
    }
    ghost var before := reviews.reviews;
    assert forall k :: 0 <= k < |before| ==> IdOf(before[k]) < reviews.nextId;
    var created := reviews.Create(userId, ws);
    if created.None? {
      assert false;
    }
    review := created.value;
    assert forall k :: 0 <= k < |before| ==> reviews.reviews[k] == before[k] && !HasId(review.id)(reviews.reviews[k]);
    assert HasId(review.id)(reviews.reviews[|before|]);
  }

  /** The update `GetWeeklyReviewUseCase` makes to an open review: its tracked and aligned
      minutes are recomputed from the week's activities, in place. */
  method Refresh(reviews: WeeklyReviewRepository, review: WeeklyReview, week: seq<Activity>) returns (q: WeeklyReview)
    requires reviews.Valid()
    requires 0 <= IndexWhere(reviews.reviews, HasId(review.id))
    requires reviews.reviews[IndexWhere(reviews.reviews, HasId(review.id))] == review
    modifies reviews
    ensures reviews.Valid() && reviews.nextId == old(reviews.nextId)
    ensures q == Refreshed(review, week)
    ensures reviews.reviews == old(reviews.reviews)[IndexWhere(old(reviews.reviews), HasId(review.id)) := q]
  {
    var updated := reviews.Update(review.id, RefreshInput(week));
    if updated.None? {
      assert false;
    }
    q := updated.value;
  }

  /** `GetWeeklyReviewUseCase.execute` for the week containing `weekStartDate`, or the week
      of `now`. It never fails. A missing review is created first; an open review gets its
      tracked and aligned minutes recomputed and stored; a completed one is returned as it
      is, its metrics frozen. */
  method GetWeeklyReview(reviews: WeeklyReviewRepository, activities: ActivityRepo.ActivityRepository, userId: Id,
                         weekStartDate: Option<Instant>, now: Instant) returns (r: Result<ReviewResponse, DomainError>)
    requires reviews.Valid()
    modifies reviews
    ensures reviews.Valid() && r.Success?
    ensures var ws := GetWeekStart(weekStartDate.GetOr(now));
            var found := old(reviews.FindByUserAndWeek(userId, ws));
            (found.Some? && found.value.isCompleted) ==>
              reviews.reviews == old(reviews.reviews) && r.value == ToResponse(found.value)
    ensures var ws := GetWeekStart(weekStartDate.GetOr(now));
            var found := old(reviews.FindByUserAndWeek(userId, ws));
            (found.Some? && !found.value.isCompleted) ==>
              var i := IndexWhere(old(reviews.reviews), HasId(found.value.id));
              var q := Refreshed(found.value, WeekActivities(activities, userId, ws));
              0 <= i && reviews.reviews == old(reviews.reviews)[i := q] && r.value == ToResponse(q)
    ensures var ws := GetWeekStart(weekStartDate.GetOr(now));
            old(reviews.FindByUserAndWeek(userId, ws)).None? ==>
              var q := Refreshed(NewReview(old(reviews.nextId), userId, ws), WeekActivities(activities, userId, ws));
              reviews.reviews == old(reviews.reviews) + [q] && r.value == ToResponse(q)
  {
    var ws := GetWeekStart(weekStartDate.GetOr(now));
    var week := WeekActivities(activities, userId, ws);
    ghost var found := reviews.FindByUserAndWeek(userId, ws);
    ghost var before := reviews.reviews;
    var review := FindOrCreate(reviews, userId, ws);
    if !review.isCompleted {
      ghost var prior := review;
      review := Refresh(reviews, review, week);
      if found.None? {
        SetAppended(before, prior, review);
      }
    }
    r := Success(ToResponse(review));
  }

  /** `CompleteWeeklyReviewUseCase.execute`, at `now`. The checks run in the order
      ownership, completion, score; any failure changes nothing. On success the review
      holds the lists and the score and is completed; its minutes are unchanged, so a
      second completion fails. */
  method CompleteWeeklyReview(reviews: WeeklyReviewRepository, userId: Id, reviewId: Id,
                              dto: CompleteWeeklyReviewDto, now: Instant) returns (r: Result<ReviewResponse, DomainError>)
    requires reviews.Valid()
    modifies reviews
    ensures reviews.Valid() && reviews.nextId == old(reviews.nextId)
    ensures r.Failure? ==> reviews.reviews == old(reviews.reviews)
    ensures var existing := old(reviews.FindById(reviewId));
            && (existing.None? || existing.value.userId != userId ==> r == Failure(WeeklyReviewNotFound))
            && ((existing.Some? && existing.value.userId == userId && existing.value.isCompleted)
                  ==> r == Failure(WeeklyReviewAlreadyCompleted))
            && ((existing.Some? && existing.value.userId == userId && !existing.value.isCompleted
                 && !IsValidScore(dto.overallScore)) ==> r == Failure(Validation(INVALID_SCORE_MESSAGE)))
            && ((existing.Some? && existing.value.userId == userId && !existing.value.isCompleted
                 && IsValidScore(dto.overallScore)) ==>
                  var q := existing.value.(wins := dto.wins, challenges := dto.challenges,
                                           improvements := dto.improvements, overallScore := Some(dto.overallScore),
                                           isCompleted := true, completedAt := Some(now));
                  var i := IndexWhere(old(reviews.reviews), HasId(reviewId));
                  0 <= i && reviews.reviews == old(reviews.reviews)[i := q] && r == Success(ToResponse(q)))
    ensures r.Success? ==> reviews.FindById(reviewId).Some? && reviews.FindById(reviewId).value.isCompleted
  {
    var existing := reviews.FindById(reviewId);
    if existing.None? || existing.value.userId != userId {
      return Failure(WeeklyReviewNotFound);
    }
    if existing.value.isCompleted {
      return Failure(WeeklyReviewAlreadyCompleted);
    }
    if !IsValidScore(dto.overallScore) {
      return Failure(Validation(INVALID_SCORE_MESSAGE));
    }
    ghost var i := IndexWhere(reviews.reviews, HasId(reviewId));
    assert reviews.reviews[i] == existing.value by {
      var j :| 0 <= j < |reviews.reviews| && reviews.reviews[j] == existing.value;
      assert IdOf(reviews.reviews[i]) == IdOf(reviews.reviews[j]);
    }
    var completed := reviews.Complete(reviewId, UpdateWeeklyReviewInput(None, None, None, Some(dto.wins),
                                                                         Some(dto.challenges), Some(dto.improvements),
                                                                         Some(dto.overallScore)), now);
    if completed.None? {
      assert false;
    }
    assert reviews.reviews[i] == completed.value;
    assert reviews.FindById(reviewId) == Some(completed.value) by {
      var j := IndexWhere(reviews.reviews, HasId(reviewId));
      assert IdOf(reviews.reviews[i]) == IdOf(reviews.reviews[j]);
    }
    r := Success(ToResponse(completed.value));
  }

  /** `GetReviewHistoryUseCase.execute`: one response per review of the user's latest
      `limit` (10 by default), in the repository's order, latest week first. It never
      fails. */
  function GetReviewHistory(reviews: WeeklyReviewRepository, userId: Id, limit: Option<nat>)
    : (r: Result<seq<ReviewResponse>, DomainError>)
    reads reviews
    ensures r.Success?
    ensures |r.value| == |reviews.FindByUser(userId, Some(limit.GetOr(DEFAULT_HISTORY_LIMIT)))|
    ensures |r.value| <= limit.GetOr(DEFAULT_HISTORY_LIMIT)
    ensures forall k :: 0 <= k < |r.value| ==>
              r.value[k] == ToResponse(reviews.FindByUser(userId, Some(limit.GetOr(DEFAULT_HISTORY_LIMIT)))[k])
    ensures forall i, j :: 0 <= i < j < |r.value| ==> r.value[i].weekStart >= r.value[j].weekStart
  {
    var fetched := reviews.FindByUser(userId, Some(limit.GetOr(DEFAULT_HISTORY_LIMIT)));
    Success(Responses(fetched))
  }

  /** One response per review, in order; a latest-first list stays latest first. */
  function Responses(rs: seq<WeeklyReview>): (out: seq<ReviewResponse>)
    ensures |out| == |rs|
    ensures forall k :: 0 <= k < |rs| ==> out[k] == ToResponse(rs[k])
    ensures Sorted(rs, WeekDesc) ==> forall i, j :: 0 <= i < j < |out| ==> out[i].weekStart >= out[j].weekStart
  {
    assert Sorted(rs, WeekDesc) ==> forall i, j :: 0 <= i < j < |rs| ==> WeekDesc(rs[i], rs[j]);
    seq(|rs|, k requires 0 <= k < |rs| => ToResponse(rs[k]))
  }
}
