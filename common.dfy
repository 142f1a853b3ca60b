/** Shared vocabulary: Java's nullable references become `Option`, thrown
    exceptions become `Err` values of `Result` or `Outcome`. */
module Common {

  /** A UUID, represented by its canonical text (what `UUID.toString` gives).
      Parsing text into a UUID is done by callers; see README "Left out". */
  type Uuid = string

  /** Decimal text of a `BigDecimal` or `double` price, kept opaque. */
  type Decimal = string

  datatype Option<+T> = None | Some(value: T)

  /** The exceptions the modelled code throws on purpose. */
  datatype Error =
    | IllegalArgument(message: string)
    | NullPointer

  datatype Result<+T> = Ok(value: T) | Err(error: Error)

  /** Result of a `void` operation that may throw. */
  datatype Outcome = Done | Failed(error: Error)
}
