/** An elimination: an activity the user has dropped, and the minutes that frees. */
module EliminationEntity {
  import opened Common
  import Seqs

  datatype Elimination = Elimination(
    id: Id,
    userId: Id,
    activityName: string,
    reason: Option<string>,
    recoveredMinutes: int,
    eliminatedAt: Instant)

  function Recovered(e: Elimination): int {
    e.recoveredMinutes
  }

  /** `calculateTotalRecoveredTime`: the recovered minutes summed over the list. */
  function TotalRecoveredTime(eliminations: seq<Elimination>): (r: int)
    ensures eliminations == [] ==> r == 0
  {
    Seqs.SumBy(eliminations, Recovered)
  }

  /** The total of two lists put together is the sum of their totals. */
  lemma TotalOfConcat(a: seq<Elimination>, b: seq<Elimination>)
    ensures TotalRecoveredTime(a + b) == TotalRecoveredTime(a) + TotalRecoveredTime(b)
  {
    Seqs.SumByConcat(a, b, Recovered);
  }

  /** With no negative entries the total is non-negative and bounds every entry. */
  lemma TotalBoundsEntries(eliminations: seq<Elimination>)
    requires forall k :: 0 <= k < |eliminations| ==> eliminations[k].recoveredMinutes >= 0
    ensures TotalRecoveredTime(eliminations) >= 0
    ensures forall k :: 0 <= k < |eliminations| ==>
      eliminations[k].recoveredMinutes <= TotalRecoveredTime(eliminations)
  {
    Seqs.SumByBounds(eliminations, Recovered);
  }

  /** The total does not depend on the order of the list. */
  lemma TotalIgnoresOrder(a: seq<Elimination>, b: seq<Elimination>)
    requires multiset(a) == multiset(b)
    ensures TotalRecoveredTime(a) == TotalRecoveredTime(b)
  {
    Seqs.SumByPermutation(a, b, Recovered);
  }
}
