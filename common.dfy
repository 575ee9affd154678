/** Option, Result and the exceptions the PHP code throws, as values. */
module Common {

  datatype Option<+T> = None | Some(value: T) {
    function GetOr(default: T): T {
      match this
      case Some(v) => v
      case None => default
    }
  }

  /** The PHP exception classes that the core throws or catches by kind. */
  datatype ExceptionKind =
    | InvalidArgument   // \InvalidArgumentException
    | Runtime           // \RuntimeException
    | Database          // an error raised by the store (PDOException)
    | Handler           // whatever a caller-supplied handler or sender throws

  datatype Throwable = Throwable(kind: ExceptionKind, message: string)

  /** A PHP call that either returns a value or throws. */
  datatype Result<+T> = Ok(value: T) | Err(error: Throwable) {
    predicate IsFailure() { Err? }
    function PropagateFailure<U>(): Result<U>
      requires Err?
    {
      Err(error)
    }
    function Extract(): T
      requires Ok?
    {
      value
    }
  }

  function Max(a: int, b: int): int { if a >= b then a else b }
  function Min(a: int, b: int): int { if a <= b then a else b }
}
