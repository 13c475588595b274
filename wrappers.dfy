/** Optional values, standing for the `null`/`undefined` of the modelled code. */
module Wrappers {

  /** `None` is the absent value; `Some(v)` carries `v`. */
  datatype Option<+T> = None | Some(value: T)
}
