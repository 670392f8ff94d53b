/** Optional values, for C functions that signal "no value" with a status code. */
module Wrappers {
  datatype Option<T> = None | Some(value: T)
}
