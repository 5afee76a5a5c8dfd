/** A calendar block: a titled, half-open interval [startTime, endTime) of one user's time. */
module CalendarBlockEntity {
  import opened Common
  import Rounding

  datatype BlockType = Priority | Routine | Protected
  datatype Recurrence = Daily | Weekly | Weekdays | Custom

  datatype CalendarBlock = CalendarBlock(
    id: Id,
    userId: Id,
    title: string,
    startTime: Instant,
    endTime: Instant,
    blockType: BlockType,
    isRecurring: bool,
    recurrence: Option<Recurrence>)

  const MS_PER_MINUTE: int := 1000 * 60

  /** `isValidTimeRange`: the block ends strictly after it starts. */
  predicate IsValidTimeRange(startTime: Instant, endTime: Instant) {
    endTime > startTime
  }

  /** `calculateBlockDuration`: the length in minutes, rounded half up. */
  function BlockDuration(startTime: Instant, endTime: Instant): (r: int)
    ensures 2 * MS_PER_MINUTE * r - MS_PER_MINUTE <= 2 * (endTime - startTime) < 2 * MS_PER_MINUTE * r + MS_PER_MINUTE
  {
    Rounding.RoundQuot(endTime - startTime, MS_PER_MINUTE)
  }

  /** A block spanning a whole number of minutes lasts exactly that many. */
  lemma WholeMinuteDuration(startTime: Instant, minutes: int)
    ensures BlockDuration(startTime, startTime + minutes * MS_PER_MINUTE) == minutes
  {
    Rounding.RoundExact(minutes, MS_PER_MINUTE);
  }

  /** A valid block never has a negative duration. */
  lemma DurationOfValidRange(startTime: Instant, endTime: Instant)
    requires IsValidTimeRange(startTime, endTime)
    ensures BlockDuration(startTime, endTime) >= 0
  {
  }

  /** `blocksOverlap`: each block starts before the other ends. */
  predicate BlocksOverlap(start1: Instant, end1: Instant, start2: Instant, end2: Instant) {
    start1 < end2 && end1 > start2
  }

  /** The block [startTime, endTime) contains the instant `t`. */
  predicate Covers(startTime: Instant, endTime: Instant, t: Instant) {
    startTime <= t < endTime
  }

  /** For valid blocks, overlapping means sharing an instant. */
  lemma OverlapIffSharedInstant(start1: Instant, end1: Instant, start2: Instant, end2: Instant)
    requires IsValidTimeRange(start1, end1) && IsValidTimeRange(start2, end2)
    ensures BlocksOverlap(start1, end1, start2, end2)
            <==> exists t :: Covers(start1, end1, t) && Covers(start2, end2, t)
  {
    if BlocksOverlap(start1, end1, start2, end2) {
      var t := if start1 < start2 then start2 else start1;
      assert Covers(start1, end1, t) && Covers(start2, end2, t);
    }
  }

  /** Overlap does not depend on which block comes first. */
  lemma OverlapSymmetric(start1: Instant, end1: Instant, start2: Instant, end2: Instant)
    ensures BlocksOverlap(start1, end1, start2, end2) == BlocksOverlap(start2, end2, start1, end1)
  {
  }

  /** Blocks that only touch do not overlap, and every valid block overlaps itself. */
  lemma TouchingAndSelfOverlap(start1: Instant, end1: Instant, end2: Instant)
    ensures !BlocksOverlap(start1, end1, end1, end2)
    ensures IsValidTimeRange(start1, end1) <==> BlocksOverlap(start1, end1, start1, end1)
  {
  }
}
