/** The optional value used for "a rule may or may not raise an alert". */
module Wrappers {

  datatype Option<+T> = None | Some(value: T)

  /** The elements of an option as a sequence: empty or a singleton. */
  function ToSeq<T>(o: Option<T>): (r: seq<T>)
    ensures |r| <= 1
    ensures o.Some? <==> |r| == 1
    ensures o.Some? ==> r[0] == o.value
  {
    match o
    case None => []
    case Some(v) => [v]
  }
}
