/** What a backend call can come back with, as the collection hooks see it.
    The HTTP exchange itself (src/services/api.ts) is not part of this model:
    each call's outcome is given to the model as a value. */
module Api {

  /** The value a failed call throws: an `Error` (with its message) or
      anything else, for which the hooks fall back to a fixed message. */
  datatype Thrown = ErrorInstance(message: string) | OtherValue

  /** The settled promise of an `apiGet`/`apiPost`/`apiDelete` call. */
  datatype ApiOutcome<+T> = Success(data: T) | Failure(thrown: Thrown)

  /** What a hook's own method hands back: the value it returns, or the
      message of the `Error` it throws. */
  datatype Result<+T> = Ok(value: T) | Err(message: string)

  /** `err instanceof Error ? err.message : fallback`. */
  function MessageOf(t: Thrown, fallback: string): (r: string)
    ensures t.ErrorInstance? ==> r == t.message
    ensures t.OtherValue? ==> r == fallback
  {
    match t
    case ErrorInstance(m) => m
    case OtherValue => fallback
  }
}
