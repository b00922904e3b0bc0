/** Optional values, standing for JavaScript's `null` / `undefined` where a field may be absent. */
module Wrappers {

  datatype Option<+T> = None | Some(value: T)
}
