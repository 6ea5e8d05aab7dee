/** The optional value used for "no apartment found" and similar absent results. */
module Wrappers {
  datatype Option<T> = None | Some(value: T)
}
