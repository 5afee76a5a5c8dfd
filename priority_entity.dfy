/** A vital priority: one of at most four ranked things a user wants to make time for. */
module PriorityEntity {
  import opened Common

  const MAX_PRIORITIES: int := 4
  const MIN_PRIORITIES: int := 2

  datatype Priority = Priority(
    id: Id,
    userId: Id,
    name: string,
    description: Option<string>,
    order: int,
    allocatedMinutes: int,
    isActive: bool)

  /** `isValidPriorityOrder`: a rank from 1 to MAX_PRIORITIES. */
  predicate IsValidPriorityOrder(order: int) {
    order >= 1 && order <= MAX_PRIORITIES
  }

  /** `isValidAllocatedTime`: zero or more minutes. */
  predicate IsValidAllocatedTime(minutes: int) {
    minutes >= 0
  }

  /** There are exactly four valid ranks, 0 is not one of them, and zero allocated minutes
      is allowed. */
  lemma ValidatorBoundaries(order: int)
    ensures IsValidPriorityOrder(order) <==> order in {1, 2, 3, 4}
    ensures !IsValidPriorityOrder(0) && IsValidAllocatedTime(0)
    ensures MIN_PRIORITIES < MAX_PRIORITIES
  {
  }
}
