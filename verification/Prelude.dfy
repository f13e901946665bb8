/** Types shared by every part of the model. */
module Prelude {

  datatype Option<+T> = None | Some(value: T)

  /** A UUID. Only equality and freshness of identifiers matter here. */
  type Id = nat

  /** A point in time, or a duration, in nanoseconds. */
  type Time = int

  const SECOND: Time := 1_000_000_000
  const MINUTE: Time := 60 * SECOND

  type byte = x: int | 0 <= x < 256
}
