/** Small failure-carrying datatypes shared by every other module. */
module Wrappers {

  /** A value that may be absent: JavaScript's `null` beside a present value. */
  datatype Option<+T> = None | Some(value: T)

  /** How one awaited HTTP call settled: the server's response body, or a
      rejected promise (transport error, non-2xx status, ...). No handler
      looks at the reason of a rejection, so it is not recorded. */
  datatype Response<+T> = Ok(value: T) | Failed
}
