/** Option, Result and the error values of the model.
    `Error` mirrors how the program builds its errors: a leaf message, or a
    context message wrapped around the error that caused it (the
    `.context(..)` / `.with_context(..)` calls of the program). */
module Wrappers {

  datatype Option<+T> = None | Some(value: T)

  datatype Error = Leaf(msg: string) | Context(msg: string, source: Error)
  {
    /** What `{}` prints for the error: its outermost message only. */
    function Display(): string {
      msg
    }

    /** Every message in the cause chain, outermost first. */
    function Chain(): (c: seq<string>)
      ensures |c| >= 1 && c[0] == msg
    {
      match this
      case Leaf(m) => [m]
      case Context(m, s) => [m] + s.Chain()
    }
  }

  datatype Result<+T> = Ok(value: T) | Err(error: Error)
  {
    /** Wraps the error of a failed result in a context message; `Ok` is untouched. */
    function WithContext(ctx: string): (r: Result<T>)
      ensures Ok? ==> r == this
      ensures Err? ==> r.Err? && r.error.Chain() == [ctx] + error.Chain()
    {
      match this
      case Ok(v) => Ok(v)
      case Err(e) => Err(Context(ctx, e))
    }
  }

  /** The outcome of one call into an external collaborator (the ssh library,
      the OS) that returns nothing on success: `Pass`, or `Fail` with the text
      of the error it reports. */
  datatype Outcome = Pass | Fail(reason: string)
}
