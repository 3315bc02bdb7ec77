/** Optional values and results with an error message: the model's stand-ins for
    `null`/`undefined` and for a thrown `Error`. */
module Wrappers {

  datatype Option<+T> = None | Some(value: T) {
    /** The value, or `default` when absent (JavaScript's `x ?? default`). */
    function GetOr(default: T): T {
      match this
      case Some(v) => v
      case None => default
    }
  }

  /** `Err(message)` stands for an `Error` whose `message` is `message`. */
  datatype Result<+T> = Ok(value: T) | Err(error: string)

  /** Stand-in for the outcome of a backend call that returns nothing: it either
      succeeds or fails with a message (possibly the empty string). */
  datatype Outcome = Succeeded | Failed(message: string)

  /** `err.message || fallback`: an empty message falls back to the default text. */
  function MessageOr(message: string, fallback: string): (r: string)
    ensures r == message || r == fallback
    ensures r == "" ==> fallback == ""
  {
    if message != "" then message else fallback
  }

  /** PostgREST's error message when `.single()` finds no row or several rows. */
  const SingleRowError: string := "JSON object requested, multiple (or no) rows returned"
}
