/** `Option` and `Result`: an absent JavaScript value (`undefined` / `null`)
    is `None`, and an operation that can throw or reject returns a `Result`;
    plus the duplicate-free sequences that stand for
    JavaScript sets and key lists. */
module Wrappers {

  datatype Option<+T> = None | Some(value: T) {

    /** The wrapped value, or `default` when absent (the `??` operator). */
    function GetOr(default: T): T
    {
      match this
      case Some(v) => v
      case None => default
    }
  }

  datatype Result<+R, +E> = Success(value: R) | Failure(error: E)

  /** No element occurs twice: a JavaScript `Set` kept as a sequence in
      insertion order, or a list of object keys. */
  predicate Distinct<T(==)>(s: seq<T>)
  {
    forall i, j :: 0 <= i < j < |s| ==> s[i] != s[j]
  }
}
