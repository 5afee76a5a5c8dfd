/** Types shared by every part of the model. */
module Common {
  /** Record identifiers. The database generates them (Prisma uuids); the model's repositories
      draw them from a counter. */
  type Id = nat

  /** A point in time: milliseconds since 1970-01-01T00:00:00.000 in local time. */
  type Instant = int

  /** TypeScript's `T | null` and optional (`?:`) fields. */
  datatype Option<+T> = None | Some(value: T) {
    /** The `??` operator: the value if there is one, otherwise `default`. */
    function GetOr(default: T): (r: T)
      ensures Some? ==> r == value
      ensures None? ==> r == default
    {
      if Some? then value else default
    }
  }
}
