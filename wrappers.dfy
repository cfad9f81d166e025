/** Option and Result values shared by the whole model. */
module Wrappers {

  /** A value that may be absent: a Python `None`, a missing dictionary key, a JavaScript `null`. */
  datatype Option<+T> = None | Some(value: T) {
    function GetOr(default: T): T {
      match this
      case Some(v) => v
      case None => default
    }
  }

  /** An `HTTPException` raised by a route: its status code and detail message. */
  datatype HttpError = HttpError(status: nat, detail: string)

  /** The outcome of a route handler: the response body, or the HTTP error it raises. */
  datatype Result<+T> = Ok(value: T) | Err(error: HttpError)

  /**
   * An awaited call of the frontend's API client: the response body, or the
   * rejection with its message (the response's `detail` when there is one,
   * else the error's own message).
   */
  datatype ApiReply<+T> = Answered(body: T) | Failed(message: string)

  /** Python and JavaScript falsiness of a string that may be null: absent, or empty. */
  predicate Falsy(s: Option<string>) {
    s.None? || s.value == ""
  }
}
