/** Shared by the bookkeeping modules. */
module Common {

  datatype Option<T> = None | Some(value: T)

  /** No value is listed under two keys. */
  ghost predicate Injective(m: map<nat, nat>)
  {
    forall p, q | p in m && q in m && p != q :: m[p] != m[q]
  }
}
