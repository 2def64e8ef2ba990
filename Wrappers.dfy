/** Optional values: a JavaScript `undefined`/`null`/`NaN` is `None`. */
module Wrappers {

  datatype Option<+T> = None | Some(value: T)
}
