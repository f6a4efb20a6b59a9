/** The absent-or-present value used for the timer handle and for optional
    page elements (JavaScript's `null`/`undefined`). */
module Wrappers {
  datatype Option<+T> = None | Some(value: T)
}
