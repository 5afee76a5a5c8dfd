/** The two-variant result every use case returns instead of throwing
    (backend/src/domain/value-objects/result.ts). */
module Results {
  datatype Result<+T, +E> = Success(value: T) | Failure(error: E) {
    /** The `isSuccess` flag: true exactly for a Success. */
    predicate IsSuccess() {
      Success?
    }

    /** The `isFailure` flag: true exactly for a Failure. */
    predicate IsFailure() {
      Failure?
    }
  }

  /** The `success` helper: wraps a value without altering it. */
  function Succeed<T, E>(v: T): (r: Result<T, E>)
    ensures r.IsSuccess() && !r.IsFailure()
    ensures r.value == v
  {
    Success(v)
  }

  /** The `failure` helper: wraps an error without altering it. */
  function Fail<T, E>(e: E): (r: Result<T, E>)
    ensures !r.IsSuccess() && r.IsFailure()
    ensures r.error == e
  {
    Failure(e)
  }
}
