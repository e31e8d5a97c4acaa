/** Optional values, standing for Swift optionals (`T?`) throughout the model. */
module Wrappers {

  datatype Option<+T> = None | Some(value: T)
}
