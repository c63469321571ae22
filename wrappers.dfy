/** Failure-carrying values shared by every module of the model.

    Python code signals failure by raising; here a call that may raise returns an
    `Outcome`, either the value it returned or the exception it raised. */
module Wrappers {

  datatype Option<+T> = None | Some(value: T) {
    function GetOr(default: T): T {
      match this
      case Some(v) => v
      case None => default
    }
  }

  /** The Python exceptions the modelled code raises, or lets escape. */
  datatype Exception =
    | TypeError(message: string)
    | KeyError(key: string)
    | AttributeError(message: string)
    | RuntimeError(message: string)
    | FileNotFoundError(message: string)
    | ValidationError(message: string)
    | RecursionError
    | SystemExit(code: int)

  /** What a Python call did: returned a value, or raised an exception. */
  datatype Outcome<+T> = Returned(value: T) | Raised(exc: Exception)
}
