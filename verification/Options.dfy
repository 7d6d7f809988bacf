/** A value that may be missing: a null pointer, an unset register, a failed parse. */
module Options {
  datatype Option<T> = None | Some(value: T)
}
