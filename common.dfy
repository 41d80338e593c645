/** Values shared by every module of the model. */
module Common {

  /** A value that may be absent: JavaScript's `undefined` on one side, the value on the other. */
  datatype Option<+T> = None | Some(value: T)
}
