/** Optional values and HTTP-style outcomes shared by every module. */
module Wrappers {

  /** A value that may be missing: Python's `None`, JavaScript's `null`/`undefined`. */
  datatype Option<+T> = None | Some(value: T) {

    /** The value, or `default` when it is missing. */
    function GetOr(default: T): T {
      if Some? then value else default
    }
  }

  /** The outcome of an endpoint: its value, or the status code and detail of the HTTPException it raises. */
  datatype Response<+T> = Ok(value: T) | Err(code: int, detail: string)
}
