/** Optional values: a JavaScript `undefined`/absent field or a missing reply. */
module Wrappers {
  datatype Option<T> = None | Some(value: T)
}
