/** The optional value used wherever the Go code uses a nil pointer. */
module Wrappers {

  datatype Option<+T> = None | Some(value: T)

  /** The values an option holds, as a sequence of length zero or one. */
  function ToSeq<T>(o: Option<T>): (s: seq<T>)
    ensures o.None? <==> s == []
    ensures o.Some? ==> s == [o.value]
  {
    match o
    case None => []
    case Some(v) => [v]
  }
}
