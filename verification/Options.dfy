/** A value that may be absent: a nil pointer, a missing field, an answer that never came. */
module Options {
  datatype Option<T> = None | Some(value: T)
}
