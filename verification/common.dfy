/** Primitive types and failure-carrying wrappers shared by every module. */
module Common {

  /** An opaque identifier (a uuid.UUID in the system); fresh ones are supplied by callers. */
  type Uuid = nat

  /** A timestamp; the current time is always supplied by the caller. */
  type Time = int

  /** A price or cost. The system only copies these values, never computes on them. */
  type Money = real

  /** A value that may be absent: a nil pointer in the system. */
  datatype Option<+T> = None | Some(value: T)

  /** A value or the error that replaced it. */
  datatype Result<+T, +E> = Success(value: T) | Failure(error: E)
}
