/** Option and Result, the two failure-carrying shapes the stages use:
    an opaque collaborator either answers or raises, and a store lookup
    either finds the name or reports it missing. */
module Wrappers {

  datatype Option<+T> = None | Some(value: T) {
    function GetOr(default: T): T {
      match this
      case Some(v) => v
      case None => default
    }
  }

  datatype Result<+T, +E> = Ok(value: T) | Err(error: E)
}
