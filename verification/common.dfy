/** Small shared vocabulary of the inventory server model. */
module Common {

  /** A value that may be absent: a JSON key that was not sent, a row that was not found. */
  datatype Option<T> = None | Some(value: T) {
    /** The value, or `default` when absent (Python's `dict.get(key, default)`). */
    function GetOr(default: T): T {
      match this
      case Some(v) => v
      case None => default
    }
  }

  /**
   * A reading of the server's UTC clock, in whole seconds. The clock is not
   * part of the model: every operation that reads it receives the reading as
   * a parameter.
   */
  type Time = nat
}
