/** Option for the source's `T | null`, and the outcome of evaluating a JavaScript expression that may throw. */
module Wrappers {

  datatype Option<+T> = None | Some(value: T)

  /** `Value(v)`: the expression evaluated to `v`; `TypeError`: it threw (for example, a method called on `undefined`). */
  datatype Evaluation<+T> = Value(v: T) | TypeError
}
