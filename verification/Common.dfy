/** Time units, error codes, addresses and results that several components share. */
module Common {
  /** Durations are in nanoseconds. */
  const MICROSECONDS: nat := 1_000
  const MILLISECONDS: nat := 1_000_000
  const SECONDS: nat := 1_000_000_000

  const ERR_NOMEM: int := -501

  type Addr = nat
  const NULL: Addr := 0

  datatype Option<T> = None | Some(value: T)

  /** The errors of the text functions. */
  datatype Error = InvalidArgument | IntegerOverflow

  datatype Result<T> = Ok(value: T) | Err(error: Error)
}
