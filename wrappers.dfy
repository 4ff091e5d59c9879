/** A value that may be absent: JavaScript's `false`/`undefined` stand-ins. */
module Wrappers {

  datatype Option<T> = None | Some(value: T)
}
