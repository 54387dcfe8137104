/** Shared value types of the replicated to-do model: identifiers, errors
    and the result shapes used for Go `error` returns and JavaScript throws. */
module Types {

  /** A 128-bit UUID. The all-zero value is `uuid.Nil`. */
  newtype Uuid = x: int | 0 <= x < 0x1_0000_0000_0000_0000_0000_0000_0000_0000

  const NilUuid: Uuid := 0

  /** Error kinds of the core. `CannotBeMerged` is returned (Go) or thrown
      (JavaScript) when two operands of a merge do not share an identifier;
      `NotFound` when an id is absent from a live view. */
  datatype Error = CannotBeMerged | NotFound(id: Uuid)

  /** A value or the error that replaced it. */
  datatype Result<T> = Ok(value: T) | Err(error: Error)

  /** A Go `error` return: `nil` or an error. */
  datatype Outcome = Pass | Fail(error: Error)

  datatype Option<T> = None | Some(value: T)

  /** A sort key together with the time it was last written. */
  datatype OrderValue = OrderValue(value: real, updatedAt: int)

  /** A title together with the time it was last written. */
  datatype Title = Title(value: string, updatedAt: int)
}
