/** A value that may be missing: a null pointer, or a call that panics instead of returning. */
module Common {
  datatype Option<T> = None | Some(value: T)
}
