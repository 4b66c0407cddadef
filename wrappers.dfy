/** The `undefined`-or-value wrapper used throughout the model. */
module Wrappers {

  datatype Option<+T> = None | Some(value: T)
}
