/** An optional value: a Go pointer that may be nil, or a lookup that may miss. */
module Wrappers {
  datatype Option<+T> = None | Some(value: T)
}
