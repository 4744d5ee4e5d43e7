/** Option type shared by the components. */
module Wrappers {

  /** A value that may be absent: `undefined` state, a request that was not sent,
      a count that was not reported. */
  datatype Option<+T> = None | Some(value: T)
}
