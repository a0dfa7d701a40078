/** A value that may be absent: JavaScript's `undefined` for a query that has no data yet. */
module Wrappers {
  datatype Option<+T> = None | Some(value: T)
}
