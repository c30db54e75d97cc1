/** Option and Result values, used wherever the game returns None or raises. */
module Wrappers {

  datatype Option<+T> = None | Some(value: T)
  {
    predicate IsFailure() { None? }
    function PropagateFailure<U>(): Option<U>
      requires None?
    { None }
    function Extract(): T
      requires Some?
    { value }
  }

  /** The Python exception a failing operation raises. */
  datatype Error =
    | ValueError(reason: string)
    | TypeError(reason: string)
    | KeyError(key: string)
    | IndexError(reason: string)
    | NotImplementedError(reason: string)
    | AttributeError(reason: string)
    | UnboundLocalError(name: string)

  datatype Result<+T> = Success(value: T) | Failure(error: Error)
  {
    predicate IsFailure() { Failure? }
    function PropagateFailure<U>(): Result<U>
      requires Failure?
    { Failure(this.error) }
    function Extract(): T
      requires Success?
    { value }
  }
}
