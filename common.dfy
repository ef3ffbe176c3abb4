/** Values shared by the app's models: optional values, UUIDs and dates. */
module Common {

  /** Swift's `Optional` and JavaScript's "undefined or a value". */
  datatype Option<+T> = None | Some(value: T) {
    function GetOr(default: T): T {
      match this
      case Some(v) => v
      case None => default
    }
  }

  /** What an awaited backend call gives back: it throws, or it returns a value. */
  datatype Outcome<+T> = Failure | Success(value: T)

  /** A Foundation `UUID`; only equality matters to the model. */
  datatype Uuid = Uuid(bits: nat)

  /** A Foundation `Date`, as a count of seconds; only equality matters to the model. */
  datatype Date = Date(seconds: int)
}
