/** Optional values and success-or-error results, used where the TypeScript
    code has `undefined`/`null` fields or rejected promises. */
module Wrappers {

  datatype Option<+T> = None | Some(value: T)

  datatype Result<+R, +E> = Success(value: R) | Failure(error: E)
}
