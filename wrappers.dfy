/** Optional values: a field that a document may lack, a lookup that may miss. */
module Wrappers {

  datatype Option<+T> = None | Some(value: T) {

    /** The value, or `default` when there is none. */
    function GetOr(default: T): T {
      match this
      case Some(v) => v
      case None => default
    }
  }

  /** The outcome of an Express handler: a success response with its HTTP
      status and data, an error response (an error passed to `next`, which the
      global handler answers with its `cause` or 400, or a direct error
      status), or nothing at all (the handler returned without responding). */
  datatype Reply<+T> =
    | Done(status: int, value: T)
    | Fail(status: int, message: string)
    | Hang
}
