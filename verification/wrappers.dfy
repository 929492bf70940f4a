/** A nullable reference, as the scripts use `null` for a missing component or object. */
module Wrappers {

  datatype Option<+T> = None | Some(value: T)
}
