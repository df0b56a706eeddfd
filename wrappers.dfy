/** Optional values: `None` stands for JavaScript's `null`, `undefined` or `NaN`
    depending on where it is used; each use site says which. */
module Wrappers {

  datatype Option<+T> = None | Some(value: T)
}
