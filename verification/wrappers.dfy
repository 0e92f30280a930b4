/** Small failure-carrying datatypes shared by every module of the model. */
module Wrappers {

  /** A value that may be absent: JavaScript's `null` / `undefined`. */
  datatype Option<+T> = None | Some(value: T) {
    function GetOr(default: T): T {
      match this
      case Some(v) => v
      case None => default
    }
  }

  /** The outcome of one write to the hosted store: the row it returned, or
      the message of the error it reported. */
  datatype StoreWrite<+T> = Stored(row: T) | StoreFailed(message: string)

  /** The outcome of a call that returns no row: it either succeeded or
      reported an error message. */
  datatype Outcome = Pass | Fail(message: string)
}
