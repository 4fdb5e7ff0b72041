/** Small failure-carrying datatypes shared by every module of the model. */
module Base {

  /** A value that may be absent: JavaScript's `undefined`/`null`, Python's `None`. */
  datatype Option<+T> = None | Some(value: T) {

    /** The carried value, or `default` when absent. */
    function GetOr(default: T): T {
      match this
      case Some(v) => v
      case None => default
    }
  }

  /** Either a value or an error. */
  datatype Result<+R, +E> = Ok(value: R) | Err(error: E)

  /** The larger of two integers. */
  function Max(a: int, b: int): int {
    if a < b then b else a
  }

  /** The smaller of two integers. */
  function Min(a: int, b: int): int {
    if a < b then a else b
  }

  /** Joining sequences does not depend on grouping. */
  lemma ConcatAssoc<T>(x: seq<T>, y: seq<T>, z: seq<T>)
    ensures x + (y + z) == (x + y) + z
  {
  }

  /** No element occurs twice. */
  predicate NoDuplicates<T(==)>(s: seq<T>) {
    forall i, j :: 0 <= i < j < |s| ==> s[i] != s[j]
  }
}
