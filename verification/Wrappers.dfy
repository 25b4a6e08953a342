/** The option type used where the modelled code returns null, undefined or throws. */
module Wrappers {
  datatype Option<+T> = None | Some(value: T)
}
