// Optional values and results with a failure channel, used wherever the
// interpreter returns null or throws.
module Wrappers {

  datatype Option<T> = None | Some(value: T)
  {
    function ToSeq(): (s: seq<T>)
      ensures |s| <= 1
      ensures Some? <==> |s| == 1
      ensures Some? ==> s[0] == value
    {
      if Some? then [value] else []
    }
  }

  datatype Result<T, E> = Ok(value: T) | Err(error: E)
  {
    predicate IsFailure() {
      Err?
    }

    function PropagateFailure<U>(): Result<U, E>
      requires Err?
    {
      Err(error)
    }
  }
}
