/** Optional values. A JavaScript object field that is `undefined` (or a form
    field that is `null`) is `None`. */
module Wrappers {

  datatype Option<+T> = None | Some(value: T)
}
