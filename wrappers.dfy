/** An optional value: a pointer that may be NULL, a table slot that may be empty. */
module Wrappers {
  datatype Option<T> = None | Some(value: T)
}
