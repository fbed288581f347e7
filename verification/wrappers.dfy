/** An optional value: JavaScript's `undefined` / `null` where the source returns or holds one. */
module Wrappers {
  datatype Option<+T> = None | Some(value: T)
}
