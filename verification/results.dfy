/** Optional values and the typed failures the services raise.

    The backend signals failures by throwing exceptions that carry an HTTP
    status and a message. Here every such exception becomes a `Failure`
    value, and every operation that can throw returns a `Result`.
 */
module Results {

  /** A Java reference that may be null. */
  datatype Option<+T> = None | Some(value: T) {
    function GetOr(default: T): T {
      match this
      case Some(v) => v
      case None => default
    }
  }

  /** The status a failure carries. `Unhandled` is an exception nothing in
      the core catches (a `NumberFormatException` or an
      `IllegalArgumentException` from the paging library), so it reaches the
      framework untranslated. */
  datatype Status = BadRequest | NotFound | Conflict | Unhandled

  datatype Failure = Failure(status: Status, message: string)

  datatype Result<+T> = Ok(value: T) | Err(failure: Failure)
}
