/** Small shared vocabulary: optional values and a clock in microseconds. */
module Common {

  datatype Option<+T> = None | Some(value: T)

  /** Microseconds, the resolution of the timestamps the program stores. */
  type Time = int

  const MINUTE: Time := 60_000_000
}
