/** Optional values: JavaScript's `undefined` for an absent date or date list. */
module Wrappers {

  datatype Option<+T> = None | Some(value: T)
}
