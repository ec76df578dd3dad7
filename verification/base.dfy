/** Shared vocabulary of the model: optional values and identifiers. */
module Base {

  /** A value that may be missing; stands for `T | undefined` and `T | null`. */
  datatype Option<+T> = None | Some(value: T) {

    /** The wrapped value, or `default` when there is none. */
    function GetOr(default: T): T {
      match this
      case Some(v) => v
      case None => default
    }
  }

  /** User ids are opaque strings ('1', '2', ...). */
  type UserId = string

  /** A record id; generated from the clock in the application, so it is passed in. */
  type Id = string

  /** Milliseconds since the epoch; stands for an ISO timestamp string. */
  type Time = int
}
