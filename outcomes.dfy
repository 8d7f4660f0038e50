/** Option and Result values standing in for Python's None and raised exceptions. */
module Outcomes {

  datatype Option<+T> = None | Some(value: T)

  datatype Result<+R, +E> = Success(value: R) | Failure(error: E)

  /** `prefix` in front of a text that may be missing. */
  function Prepend<T>(prefix: seq<T>, rest: Option<seq<T>>): Option<seq<T>>
  {
    match rest
    case Some(s) => Some(prefix + s)
    case None => None
  }

  /** Two prefixes in turn are one prefix. */
  lemma PrependTwice<T>(a: seq<T>, b: seq<T>, rest: Option<seq<T>>)
    ensures Prepend(a, Prepend(b, rest)) == Prepend(a + b, rest)
  {
    match rest
    case Some(s) => assert a + (b + s) == (a + b) + s;
    case None =>
  }
}
