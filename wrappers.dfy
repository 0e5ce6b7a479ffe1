/** Option and Result, the two sum types the retry library speaks in. */
module Wrappers {

  /** A delay generator's answer: `None` is exhaustion, never an error. */
  datatype Option<+T> = None | Some(value: T)

  /** What one invocation of the retried operation resolves to. */
  datatype Result<+T, +E> = Ok(value: T) | Err(error: E)
}
