/** Small failure-carrying datatypes shared by the other modules. */
module Wrappers {

  /** JavaScript's `null`/`undefined` versus a present value. */
  datatype Option<+T> = None | Some(value: T)

  /** The outcome of evaluating a JavaScript expression: it either completes
      normally with a value or throws. */
  datatype Completion<+T> = Normal(value: T) | Thrown(error: string)
}
