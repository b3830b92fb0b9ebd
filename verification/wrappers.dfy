/** The absent-or-present value used where the firmware returns a NULL pointer on failure. */
module Wrappers {

  datatype Option<+T> = None | Some(value: T)
}
