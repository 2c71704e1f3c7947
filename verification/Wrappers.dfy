/** The optional values of the source: `undefined`, or a value. */
module Wrappers {
  datatype Option<+T> = None | Some(value: T)
}
