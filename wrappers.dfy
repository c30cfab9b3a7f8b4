/** An optional value: Go's "nil or a value" and "found or not" results. */
module Wrappers {

  datatype Option<+T> = None | Some(value: T)
}
