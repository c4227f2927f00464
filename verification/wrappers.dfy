/** Optional values, standing in for TypeScript's optional fields and
    `undefined`/`null` results. */
module Wrappers {

  datatype Option<+T> = None | Some(value: T)
}
