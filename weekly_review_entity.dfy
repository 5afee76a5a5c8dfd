/** The weekly review: tracked, priority-aligned and wasted minutes for one week, and the
    user's retrospective once the review is completed. */
module WeeklyReviewEntity {
  import opened Common
  import Rounding

  datatype WeeklyReview = WeeklyReview(
    id: Id,
    userId: Id,
    weekStart: Instant,
    totalTrackedMinutes: int,
    priorityAlignedMinutes: int,
    wastedMinutes: int,
    wins: seq<string>,
    challenges: seq<string>,
    improvements: seq<string>,
    overallScore: Option<int>,
    isCompleted: bool,
    completedAt: Option<Instant>)

  /** `calculateAlignmentPercentage`: the aligned share of the tracked time, as a whole
      percentage rounded half up; 0 when nothing was tracked. */
  function AlignmentPercentage(totalTracked: int, priorityAligned: int): (r: int)
    ensures totalTracked == 0 ==> r == 0
    ensures totalTracked > 0 ==>
      2 * totalTracked * r - totalTracked <= 200 * priorityAligned < 2 * totalTracked * r + totalTracked
  {
    if totalTracked == 0 then 0 else Rounding.RoundQuot(100 * priorityAligned, totalTracked)
  }

  /** `calculateWastedPercentage`: the same computation with the wasted minutes. */
  function WastedPercentage(totalTracked: int, wasted: int): (r: int)
    ensures totalTracked == 0 ==> r == 0
    ensures totalTracked > 0 ==>
      2 * totalTracked * r - totalTracked <= 200 * wasted < 2 * totalTracked * r + totalTracked
  {
    if totalTracked == 0 then 0 else Rounding.RoundQuot(100 * wasted, totalTracked)
  }

  /** A part of the tracked time is a percentage between 0 and 100. */
  lemma AlignmentInRange(totalTracked: int, priorityAligned: int)
    requires 0 <= priorityAligned <= totalTracked
    ensures 0 <= AlignmentPercentage(totalTracked, priorityAligned) <= 100
  {
    if totalTracked > 0 {
      Rounding.PercentInRange(priorityAligned, totalTracked);
    }
  }

  lemma WastedInRange(totalTracked: int, wasted: int)
    requires 0 <= wasted <= totalTracked
    ensures 0 <= WastedPercentage(totalTracked, wasted) <= 100
  {
    if totalTracked > 0 {
      Rounding.PercentInRange(wasted, totalTracked);
    }
  }

  /** When the part is an exact k percent of the whole, the percentage is k. */
  lemma AlignmentExact(totalTracked: int, k: int)
    requires totalTracked > 0 && (k * totalTracked) % 100 == 0
    ensures AlignmentPercentage(totalTracked, k * totalTracked / 100) == k
  {
    var aligned := k * totalTracked / 100;
    assert 100 * aligned == k * totalTracked;
    Rounding.RoundExact(k, totalTracked);
  }

  /** `isValidScore`: a review score lies in 0..100, both ends included. */
  predicate IsValidScore(score: int) {
    score >= 0 && score <= 100
  }

  /** Both ends of the score scale are accepted and the values just outside are not. */
  lemma ScoreBoundaries()
    ensures IsValidScore(0) && IsValidScore(100)
    ensures !IsValidScore(-1) && !IsValidScore(101)
  {
  }
}
