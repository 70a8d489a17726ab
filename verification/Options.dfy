/** A value that may be missing: a null pointer, or a reserved number such as -1. */
module Options {

  datatype Option<T> = None | Some(value: T)
}
