/** Optional values and results, and the errors the two repositories return. */
module Wrappers {

  /** A Go pointer that may be nil: `None` stands for nil. */
  datatype Option<+T> = None | Some(value: T)

  /** A Go `(value, error)` pair where exactly one side is meaningful. */
  datatype Result<+T, +E> = Success(value: T) | Failure(error: E)

  /** The errors the repositories produce or pass on. */
  datatype Error =
    | NotFound(message: string)         // status.Error(codes.NotFound, message)
    | NoRows                            // the driver's sql.ErrNoRows
    | ScanFailed(message: string)       // any other error reported by rows.Scan
    | TimestampOutOfRange(seconds: int) // rejected by the timestamp conversion
}
