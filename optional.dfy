/** A document that may or may not exist: the result of a store read. */
module Optional {

  datatype Option<T> = None | Some(value: T)

  /** Reads key `k` of a collection; an absent document is `None`. */
  function Lookup<V>(m: map<string, V>, k: string): Option<V>
  {
    if k in m then Some(m[k]) else None
  }
}
