/** Optional values, for the fields the platform's payloads may leave null or undefined. */
module Wrappers {

  datatype Option<+T> = None | Some(value: T)
}
