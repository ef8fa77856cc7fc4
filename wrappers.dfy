/** The optional-value type used for every Python `None`-or-value result. */
module Wrappers {

  datatype Option<+T> = None | Some(value: T)
}
