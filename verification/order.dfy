/** Strict total orders, the only kind of ordering the pipeline sorts by. */
module Order {

  /** `less` is irreflexive, transitive and relates every two distinct values. */
  ghost predicate StrictTotalOrder<T(!new)>(less: (T, T) -> bool)
  {
    && (forall a :: !less(a, a))
    && (forall a, b, c :: less(a, b) && less(b, c) ==> less(a, c))
    && (forall a, b :: a != b ==> less(a, b) || less(b, a))
  }

  /** The usual order on integers, as a first-class value. */
  predicate IntLess(a: int, b: int)
  {
    a < b
  }

  lemma IntLessIsStrictTotal()
    ensures StrictTotalOrder(IntLess)
  {
  }
}
