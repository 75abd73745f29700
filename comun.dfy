/** Values shared by the product service and the inventory service. */
module Comun {

  /** A value that may be absent (a Java `null` or an empty `Optional`). */
  datatype Option<+T> = None | Some(value: T) {

    /** The value, or `default` when absent (`x != null ? x : default`). */
    function GetOr(default: T): T {
      if Some? then value else default
    }
  }

  /** The outcome of a service call: a value, or the exception it throws. */
  datatype Result<+T, +E> = Ok(value: T) | Err(error: E)

  /** A `LocalDateTime`. Clocks are outside the model: every operation that
      reads the clock receives the instant as a parameter. */
  type Timestamp = nat

  /** The largest value of Java's `Integer`. */
  const INT_MAX: int := 0x7fff_ffff
}
