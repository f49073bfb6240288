/** Small helpers shared by the modules of this model. */
module Common {

  /** A value that may be absent: `undefined` or `null` on the JavaScript side. */
  datatype Option<T> = None | Some(value: T)
}
