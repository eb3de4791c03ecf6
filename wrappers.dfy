/** Optional values, the error the route handlers raise, and results that carry either. */
module Wrappers {

  /** A value that may be `null` or `undefined` in the service. */
  datatype Option<+T> = None | Some(value: T) {

    /** JavaScript's nullish coalescing `this ?? other`. */
    function OrElse(other: Option<T>): Option<T> {
      if Some? then this else other
    }

    /** `this ?? default` when the fallback is a plain value. */
    function GetOr(default: T): T {
      if Some? then value else default
    }
  }

  /**
   * An error the service throws. `status` is the HTTP status the handler
   * attaches (`err.status = 4xx`); errors thrown without one are answered
   * with 500 by the application's error middleware.
   */
  datatype HttpError = HttpError(status: int, message: string)

  /** An operation that either produces a value or throws an `HttpError`. */
  datatype Result<+T> = Ok(value: T) | Err(error: HttpError)
}
