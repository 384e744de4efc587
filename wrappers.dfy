/** Option, the value-or-nothing wrapper used for every "not found" in the model. */
module Wrappers {

  datatype Option<+T> = None | Some(value: T)
}
