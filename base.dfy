/** Failure-carrying wrappers and the byte type shared by every module. */
module Base {

  /** Python's `None`-or-value. */
  datatype Option<+T> = None | Some(value: T)

  /** A computation that either returns a value or raises an exception. */
  datatype Result<+T, +E> = Ok(value: T) | Err(error: E)

  /** An octet, as found in Python `bytes`. */
  newtype byte = x: int | 0 <= x < 256
}
