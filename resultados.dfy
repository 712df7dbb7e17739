/** Values that stand for what the Java ledger expresses with null references
    and exceptions. */
module Resultados {

  /** A reference argument that may be null: None stands for null. */
  datatype Option<+T> = None | Some(value: T)

  /** The exception classes the ledger throws (or lets through from the
      domain classes). */
  datatype Excepcion =
    | NullPointer            // java.lang.NullPointerException
    | IllegalArgument        // java.lang.IllegalArgumentException
    | OperationNotSupported  // javax.naming.OperationNotSupportedException

  /** The outcome of an operation that returns a value or throws. */
  datatype Result<+T> = Ok(value: T) | Err(error: Excepcion)

  /** The outcome of a void operation that may throw. */
  datatype Outcome = Pass | Fail(error: Excepcion)
}
