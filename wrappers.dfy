/** Option and Result: the shapes in which the modelled code reports absent values and failures. */
module Wrappers {

  /** A JavaScript value that may be `null`/`undefined`, or an SQL column that may be NULL. */
  datatype Option<T> = None | Some(value: T) {
    function GetOr(default: T): T {
      if Some? then value else default
    }
  }

  /** The `{ success: true, ... }` / `{ success: false, error }` objects that every data-access
      call of the system returns instead of throwing. */
  datatype Result<T> = Success(value: T) | Failure(error: string)
}
