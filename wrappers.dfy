/** Small value types shared by the modules of this model. */
module Wrappers {

  /** An optional value; None stands for Go's nil slice, map or error. */
  datatype Option<+T> = None | Some(value: T)

  /** A Go `error` value that the code only carries or prints, never inspects. */
  datatype Error = Error(message: string)
}
