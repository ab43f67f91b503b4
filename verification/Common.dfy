/** Types shared by several modules. */
module Common {
  datatype Option<+T> = None | Some(value: T)
  datatype Result<+T> = Ok(value: T) | Failed
}
