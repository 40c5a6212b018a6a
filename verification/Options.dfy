/** A value that may be missing: a null pointer, or no result. */
module Options {
  datatype Option<T> = None | Some(value: T)
}
