/** Option and Result values used throughout the model; Result is
    failure-compatible, so `var x :- F(); ...` propagates the first error. */
module Wrappers {

  datatype Option<+T> = None | Some(value: T) {
    function GetOr(default: T): (r: T) {
      match this
      case Some(v) => v
      case None => default
    }
  }

  /** A compile step either yields a value or fails with the message the
      manifests raise as a Puppet::Error. */
  datatype Result<+T> = Ok(value: T) | Err(msg: string) {
    predicate IsFailure() {
      Err?
    }

    function PropagateFailure<U>(): (r: Result<U>)
      requires Err?
    {
      Err(msg)
    }

    function Extract(): (r: T)
      requires Ok?
    {
      value
    }
  }
}
