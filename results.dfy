/**
 * The outcome of an operation that may throw: either its value or the
 * exception it raises.
 */
module Results {

  /** The .NET exceptions the codec raises. */
  datatype Exception =
    | InvalidDataException
    | ArgumentOutOfRangeException
    | ArgumentException
    | NotSupportedException
    | IndexOutOfRangeException
    | OverflowException

  datatype Result<T> = Success(value: T) | Failure(error: Exception)

  /** A reference that may be null. */
  datatype Option<T> = None | Some(value: T)
}
