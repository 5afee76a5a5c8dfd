/** An activity: time a user spent on something, filed under a category and dated. */
module ActivityEntity {
  import opened Common

  datatype Activity = Activity(
    id: Id,
    userId: Id,
    timeBudgetId: Option<Id>,
    name: string,
    description: Option<string>,
    categoryId: Id,
    durationMinutes: int,
    date: Instant,
    alignedWithPriorities: bool,
    satisfactionLevel: Option<int>)

  /** `isValidSatisfactionLevel`: a level on the 1..5 scale. */
  predicate IsValidSatisfactionLevel(level: int) {
    level >= 1 && level <= 5
  }

  /** `isValidDuration`: strictly positive minutes. */
  predicate IsValidDuration(minutes: int) {
    minutes > 0
  }

  /** Both ends of the satisfaction scale are accepted and the values just outside are not;
      zero and negative durations are rejected. */
  lemma ValidatorBoundaries(minutes: int)
    ensures IsValidSatisfactionLevel(1) && IsValidSatisfactionLevel(5)
    ensures !IsValidSatisfactionLevel(0) && !IsValidSatisfactionLevel(6)
    ensures minutes <= 0 ==> !IsValidDuration(minutes)
  {
  }
}
