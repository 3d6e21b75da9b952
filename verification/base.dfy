/** Failure-aware wrappers and small predicates shared by every module of the model. */
module Base {

  /** A value that may be missing: pandas' NaN / NaT is `None`. */
  datatype Option<T> = None | Some(value: T)

  /** The outcome of an operation that the original raises an exception for. */
  datatype Result<T, E> = Success(value: T) | Failure(error: E)

  /** No element occurs twice: a column index, a list of group keys. */
  ghost predicate Distinct<K>(ks: seq<K>)
  {
    forall i, j :: 0 <= i < j < |ks| ==> ks[i] != ks[j]
  }
}
