/** The optional value used wherever the handler reads something that may be absent. */
module Wrappers {
  datatype Option<T> = None | Some(value: T)

  /** The option as a sequence of zero or one element. */
  function ToSeq<T>(o: Option<T>): seq<T>
  {
    match o
    case None => []
    case Some(v) => [v]
  }
}
