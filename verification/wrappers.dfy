/** Option, standing in for JavaScript's `null`. */
module Wrappers {

  /** `None` plays the part of JavaScript's `null`. */
  datatype Option<+T> = None | Some(value: T)
}
