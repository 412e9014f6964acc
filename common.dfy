/** Small helper datatypes shared by the other modules. */
module Common {

  datatype Option<+T> = None | Some(value: T)

  /** A value or the error that replaced it (a raised exception in the source). */
  datatype Result<+T, +E> = Ok(value: T) | Err(error: E)

  function Min(a: nat, b: nat): nat
  {
    if a <= b then a else b
  }
}
