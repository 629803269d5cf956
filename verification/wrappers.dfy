/** Ruby's `nil` as a value: a carrier lookup, a decoded ID or an extracted
    context may be absent. */
module Wrappers {

  datatype Option<+T> = None | Some(value: T)
}
