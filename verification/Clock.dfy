/** The one clock of the model: times are integers, in microseconds. */
module Clock {

  /** Clock units in one second. */
  const TICK: int := 1_000_000
}
