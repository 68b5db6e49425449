/** The optional value used for JavaScript's `undefined`/`null` results and absent fields. */
module Wrappers {

  datatype Option<+T> = None | Some(value: T)
}
