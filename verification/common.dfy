/** Small value types shared by every module of the model. */
module Common {

  /** Go's `uint8`: the type of an account's rank. */
  newtype uint8 = x: int | 0 <= x < 256

  /** A value that may be absent (Go's nil error or nil pointer). */
  datatype Option<+T> = None | Some(value: T)

  /** The (value, error) pair a Go function returns, with exactly one side meaningful. */
  datatype Result<+T, +E> = Success(value: T) | Failure(error: E)
}
