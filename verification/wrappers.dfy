/** Option and Result types used across the model, and the Python exception kinds
    that the modelled code raises. */
module Wrappers {

  datatype Option<+T> = None | Some(value: T) {
    predicate IsFailure() { None? }

    function PropagateFailure<U>(): Option<U>
      requires None?
    {
      None
    }

    function Extract(): T
      requires Some?
    {
      value
    }

    function GetOr(default: T): T {
      match this
      case Some(v) => v
      case None => default
    }
  }

  /** The exceptions raised by the modelled code: `RuntimeError(message)` for the
      router's own usage errors, `ValueError(literal)` for a failed `int(literal)`,
      `TypeError` for a value of the wrong kind (iterating `None`, `int(None)`,
      joining a non-string), `KeyError(key)` for `d[key]` on a missing key. */
  datatype Error = RuntimeError(message: string) | ValueError(literal: string) | TypeError | KeyError(key: string)

  datatype Result<+T> = Ok(value: T) | Err(error: Error) {
    predicate IsFailure() { Err? }

    function PropagateFailure<U>(): Result<U>
      requires Err?
    {
      Err(error)
    }

    function Extract(): T
      requires Ok?
    {
      value
    }
  }
}
