/** Values that may be missing: `null`, `undefined`, SQL `NULL`. */
module Wrappers {
  datatype Option<+T> = None | Some(value: T)
}
