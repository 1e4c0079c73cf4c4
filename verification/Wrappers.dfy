/** A value that may be missing: `undefined`, `null`, or a result that was not produced. */
module Wrappers {
  datatype Option<T> = None | Some(value: T)
}
