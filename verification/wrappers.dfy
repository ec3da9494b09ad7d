/** The optional-value type used by the allocation ledger and the wire-block outcome. */
module Wrappers {

  /** `None` when there is no value, `Some(v)` otherwise. */
  datatype Option<+T> = None | Some(value: T)
}
