/** The optional value used wherever the instrument code either produces a
    result or fails (an exception, or a NaN-filled numpy array). */
module Wrappers {
  datatype Option<+T> = None | Some(value: T)
}
