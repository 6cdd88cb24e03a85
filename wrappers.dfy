/** The optional-value type used for nullable state and pending timers. */
module Wrappers {

  datatype Option<+T> = None | Some(value: T)
}
