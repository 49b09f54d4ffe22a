/** The optional value used wherever the analytics code returns `None` or
    skips an input. */
module Wrappers {
  datatype Option<T> = None | Some(v: T)
}
