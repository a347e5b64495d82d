/** The absence value used throughout: JavaScript's `undefined`/`null` results
    and caught exceptions are modelled as `None`. */
module Wrappers {

  datatype Option<+T> = None | Some(value: T)
}
