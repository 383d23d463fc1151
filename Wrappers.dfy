/** `Option`, for the results that may be absent: a converged iterate and a
    decimal digit. */
module Wrappers {
  datatype Option<T> = None | Some(value: T)
}
