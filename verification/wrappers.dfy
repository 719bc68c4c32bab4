/** The option type used for nullable columns and absent answers. */
module Wrappers {
  datatype Option<+T> = None | Some(value: T)
}
