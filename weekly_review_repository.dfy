/** The weekly-review table: at most one review per (user, week), and a completion that is
    recorded once, with its time. */
module WeeklyReviewRepo {
  import opened Common
  import opened Seqs
  import opened TimeBudgetEntity
  import opened WeeklyReviewEntity

  /** How many reviews `findByUser` returns when no limit is given. */
  const DEFAULT_HISTORY_LIMIT: nat := 10

  datatype UpdateWeeklyReviewInput = UpdateWeeklyReviewInput(
    totalTrackedMinutes: Option<int>,
    priorityAlignedMinutes: Option<int>,
    wastedMinutes: Option<int>,
    wins: Option<seq<string>>,
    challenges: Option<seq<string>>,
    improvements: Option<seq<string>>,
    overallScore: Option<int>)

  function IdOf(r: WeeklyReview): Id { r.id }
  function WeekKey(r: WeeklyReview): (Id, Instant) { (r.userId, r.weekStart) }
  function HasId(id: Id): WeeklyReview -> bool { (r: WeeklyReview) => r.id == id }
  function OfUser(userId: Id): WeeklyReview -> bool { (r: WeeklyReview) => r.userId == userId }
  function PendingOf(userId: Id): WeeklyReview -> bool {
    (r: WeeklyReview) => r.userId == userId && !r.isCompleted
  }
  function AtWeek(userId: Id, weekStart: Instant): WeeklyReview -> bool {
    (r: WeeklyReview) => r.userId == userId && r.weekStart == weekStart
  }

  /** `orderBy: { weekStart: 'desc' }`. */
  function WeekDesc(a: WeeklyReview, b: WeeklyReview): bool { a.weekStart >= b.weekStart }

  /** A stored review sits on a week start, and has a completion time exactly when it is
      completed. */
  predicate Consistent(r: WeeklyReview) {
    IsWeekStart(r.weekStart) && (r.isCompleted <==> r.completedAt.Some?)
  }

  predicate TableValid(reviews: seq<WeeklyReview>, nextId: Id) {
    && KeysUnique(reviews, IdOf)
    && IdsBelow(reviews, IdOf, nextId)
    && KeysUnique(reviews, WeekKey)
    && forall k :: 0 <= k < |reviews| ==> Consistent(reviews[k])
  }

  /** The review `create` stores: the normalised week with the column defaults (no minutes,
      empty lists, no score, open). */
  function NewReview(id: Id, userId: Id, weekStart: Instant): (r: WeeklyReview)
    ensures r.id == id && r.userId == userId && r.weekStart == GetWeekStart(weekStart)
    ensures Consistent(r) && !r.isCompleted
    ensures r.totalTrackedMinutes == 0 && r.priorityAlignedMinutes == 0 && r.wastedMinutes == 0
  {
    WeekStartIdempotent(weekStart);
    WeeklyReview(id, userId, GetWeekStart(weekStart), 0, 0, 0, [], [], [], None, false, None)
  }

  /** The review `update` writes: the defined fields, never the completion state. */
  function ApplyUpdate(r: WeeklyReview, data: UpdateWeeklyReviewInput): (q: WeeklyReview)
    ensures q.id == r.id && q.userId == r.userId && q.weekStart == r.weekStart
    ensures q.isCompleted == r.isCompleted && q.completedAt == r.completedAt
    ensures q.totalTrackedMinutes == (if data.totalTrackedMinutes.Some? then data.totalTrackedMinutes.value else r.totalTrackedMinutes)
    ensures q.priorityAlignedMinutes == (if data.priorityAlignedMinutes.Some? then data.priorityAlignedMinutes.value else r.priorityAlignedMinutes)
    ensures q.wastedMinutes == (if data.wastedMinutes.Some? then data.wastedMinutes.value else r.wastedMinutes)
    ensures q.wins == (if data.wins.Some? then data.wins.value else r.wins)
    ensures q.challenges == (if data.challenges.Some? then data.challenges.value else r.challenges)
    ensures q.improvements == (if data.improvements.Some? then data.improvements.value else r.improvements)
    ensures q.overallScore == (if data.overallScore.Some? then data.overallScore else r.overallScore)
  {
    r.(totalTrackedMinutes := data.totalTrackedMinutes.GetOr(r.totalTrackedMinutes),
       priorityAlignedMinutes := data.priorityAlignedMinutes.GetOr(r.priorityAlignedMinutes),
       wastedMinutes := data.wastedMinutes.GetOr(r.wastedMinutes),
       wins := data.wins.GetOr(r.wins),
       challenges := data.challenges.GetOr(r.challenges),
       improvements := data.improvements.GetOr(r.improvements),
       overallScore := if data.overallScore.Some? then data.overallScore else r.overallScore)
  }

  /** The review `complete` writes: the three lists (empty when absent), the score when
      given, and the completion mark with its time; the minutes are left as they were. */
  function ApplyComplete(r: WeeklyReview, data: UpdateWeeklyReviewInput, now: Instant): (q: WeeklyReview)
    ensures q.id == r.id && q.userId == r.userId && q.weekStart == r.weekStart
    ensures q.totalTrackedMinutes == r.totalTrackedMinutes
    ensures q.priorityAlignedMinutes == r.priorityAlignedMinutes
    ensures q.wastedMinutes == r.wastedMinutes
    ensures q.isCompleted && q.completedAt == Some(now)
    ensures q.wins == (if data.wins.Some? then data.wins.value else [])
    ensures q.challenges == (if data.challenges.Some? then data.challenges.value else [])
    ensures q.improvements == (if data.improvements.Some? then data.improvements.value else [])
    ensures q.overallScore == (if data.overallScore.Some? then data.overallScore else r.overallScore)
  {
    r.(wins := data.wins.GetOr([]), challenges := data.challenges.GetOr([]),
       improvements := data.improvements.GetOr([]),
       overallScore := if data.overallScore.Some? then data.overallScore else r.overallScore,
       isCompleted := true, completedAt := Some(now))
  }

  class WeeklyReviewRepository {
    var reviews: seq<WeeklyReview>
    var nextId: Id

    predicate Valid()
      reads this
    {
      TableValid(reviews, nextId)
    }

    constructor()
      ensures Valid() && reviews == []
    {
      reviews := [];
      nextId := 0;
    }

    function FindById(id: Id): (r: Option<WeeklyReview>)
      reads this
      ensures r.Some? ==> r.value in reviews && r.value.id == id
      ensures r.None? ==> forall q :: q in reviews ==> q.id != id
    {
      Find(reviews, HasId(id))
    }

    /** The user's review for the week containing `weekStart`. */
    function FindByUserAndWeek(userId: Id, weekStart: Instant): (r: Option<WeeklyReview>)
      reads this
      ensures r.Some? ==> r.value in reviews && r.value.userId == userId
                          && r.value.weekStart == GetWeekStart(weekStart)
      ensures r.None? ==> forall q :: q in reviews ==>
                            !(q.userId == userId && q.weekStart == GetWeekStart(weekStart))
    {
      Find(reviews, AtWeek(userId, GetWeekStart(weekStart)))
    }

    /** The user's most recent reviews, latest week first, at most `limit` of them (10 when
        no limit is given). */
    function FindByUser(userId: Id, limit: Option<nat>): (r: seq<WeeklyReview>)
      reads this
      ensures |r| <= limit.GetOr(DEFAULT_HISTORY_LIMIT)
      ensures Sorted(r, WeekDesc)
      ensures forall q :: q in r ==> q in reviews && q.userId == userId
      ensures |r| == |Filter(reviews, OfUser(userId))| || |r| == limit.GetOr(DEFAULT_HISTORY_LIMIT)
      ensures var lim := limit.GetOr(DEFAULT_HISTORY_LIMIT);
              exists all :: multiset(all) == multiset(Filter(reviews, OfUser(userId))) && Sorted(all, WeekDesc)
                            && r == all[..if lim <= |all| then lim else |all|]
    {
      TopBy(Filter(reviews, OfUser(userId)), WeekDesc, limit.GetOr(DEFAULT_HISTORY_LIMIT))
    }

    /** The user's open reviews, latest week first. */
    function FindPendingByUser(userId: Id): (r: seq<WeeklyReview>)
      reads this
      ensures multiset(r) == multiset(Filter(reviews, PendingOf(userId)))
      ensures forall q :: q in r <==> q in reviews && q.userId == userId && !q.isCompleted
      ensures Sorted(r, WeekDesc)
    {
      SortBy(Filter(reviews, PendingOf(userId)), WeekDesc)
    }

    /** `create`; the unique (user, week) constraint rejects a second review for the same
        week. */
    method Create(userId: Id, weekStart: Instant) returns (r: Option<WeeklyReview>)
      requires Valid()
      modifies this
      ensures Valid()
      ensures r.None? <==> old(FindByUserAndWeek(userId, weekStart)).Some?
      ensures r.None? ==> reviews == old(reviews) && nextId == old(nextId)
      ensures r.Some? ==> r.value == NewReview(old(nextId), userId, weekStart)
                          && reviews == old(reviews) + [r.value] && nextId == old(nextId) + 1
    {
      if FindByUserAndWeek(userId, weekStart).Some? {
        return None;
      }
      var q := NewReview(nextId, userId, weekStart);
      reviews := reviews + [q];
      nextId := nextId + 1;
      r := Some(q);
    }

    /** `update`; a missing id is an error and changes nothing. */
    method Update(id: Id, data: UpdateWeeklyReviewInput) returns (r: Option<WeeklyReview>)
      requires Valid()
      modifies this
      ensures Valid() && nextId == old(nextId)
      ensures r.None? <==> old(FindById(id)).None?
      ensures r.None? ==> reviews == old(reviews)
      ensures r.Some? ==>
        var i := IndexWhere(old(reviews), HasId(id));
        0 <= i && r.value == ApplyUpdate(old(reviews)[i], data) && reviews == old(reviews)[i := r.value]
    {
      var i := IndexWhere(reviews, HasId(id));
      if i == -1 {
        return None;
      }
      var q := ApplyUpdate(reviews[i], data);
      reviews := reviews[i := q];
      r := Some(q);
    }

    /** `complete`, stamped with `now`; a missing id is an error and changes nothing. */
    method Complete(id: Id, data: UpdateWeeklyReviewInput, now: Instant) returns (r: Option<WeeklyReview>)
      requires Valid()
      modifies this
      ensures Valid() && nextId == old(nextId)
      ensures r.None? <==> old(FindById(id)).None?
      ensures r.None? ==> reviews == old(reviews)
      ensures r.Some? ==>
        var i := IndexWhere(old(reviews), HasId(id));
        0 <= i && r.value == ApplyComplete(old(reviews)[i], data, now) && reviews == old(reviews)[i := r.value]
    {
      var i := IndexWhere(reviews, HasId(id));
      if i == -1 {
        return None;
      }
      var q := ApplyComplete(reviews[i], data, now);
      reviews := reviews[i := q];
      r := Some(q);
    }

    /** `delete`; a missing id is an error and changes nothing. */
    method Delete(id: Id) returns (deleted: bool)
      requires Valid()
      modifies this
      ensures Valid() && nextId == old(nextId)
      ensures deleted <==> old(FindById(id)).Some?
      ensures !deleted ==> reviews == old(reviews)
      ensures deleted ==> reviews == RemoveAt(old(reviews), IndexWhere(old(reviews), HasId(id)))
    {
      var i := IndexWhere(reviews, HasId(id));
      if i == -1 {
        return false;
      }
      reviews := RemoveAt(reviews, i);
      deleted := true;
    }
  }

  /** The pending listing is the open part of the user's reviews: none of them is
      completed, and every open one is there. */
  lemma PendingAreOpen(repo: WeeklyReviewRepository, userId: Id, q: WeeklyReview)
    requires repo.Valid()
    ensures q in repo.FindPendingByUser(userId) ==> q.completedAt.None?
    ensures q in repo.reviews && q.userId == userId && q.completedAt.None? ==> q in repo.FindPendingByUser(userId)
  {
    if q in repo.reviews {
      var k :| 0 <= k < |repo.reviews| && repo.reviews[k] == q;
      assert Consistent(repo.reviews[k]);
    }
  }
}
