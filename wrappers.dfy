/** The optional value used for JavaScript's `null` / `undefined` / "not found". */
module Wrappers {
  datatype Option<+T> = None | Some(value: T)
}
