/** PHP's `null` next to a present value, for request keys and object fields that may be unset. */
module Wrappers {

  datatype Option<+T> = None | Some(value: T)
}
