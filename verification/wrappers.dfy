/** Option and Result values, used for Go's `(value, ok)` and `(value, error)` returns. */
module Wrappers {

  datatype Option<+T> = None | Some(value: T)

  /** An error carries only its message, as Go's `error.Error()` exposes it. */
  datatype Error = Error(msg: string)

  datatype Result<+R> = Success(value: R) | Failure(error: Error)

  /** `errors.Wrap(err, context)` of github.com/pkg/errors: the message becomes "context: cause". */
  function Wrap(context: string, e: Error): (w: Error)
    ensures |w.msg| > |e.msg|
    ensures w.msg[|w.msg| - |e.msg|..] == e.msg
  {
    Error(context + ": " + e.msg)
  }
}
