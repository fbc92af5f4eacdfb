/** Shared vocabulary: nullable columns, and the outcome of a transaction that may raise. */
module Prelude {
  datatype Option<+T> = None | Some(value: T) {
    function GetOr(default: T): T {
      match this
      case Some(v) => v
      case None => default
    }
  }

  /** `Err` is a raised exception: the transaction is rolled back and nothing it wrote survives. */
  datatype Result<+T, +E> = Ok(value: T) | Err(error: E)

  /** A row identifier or lease token drawn from the `uuidv7()` supply. */
  type Id = nat

  /** A database clock reading, in an arbitrary fixed unit. */
  type Time = int
}
