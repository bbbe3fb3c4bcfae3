/** A value that may be missing: a JavaScript null, or an axis that is not drawn. */
module Wrappers {
  datatype Option<T> = None | Some(value: T)
}
