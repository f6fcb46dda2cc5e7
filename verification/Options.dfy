/** Results that may be missing. */
module Options {
  datatype Option<+T> = None | Some(value: T)

  datatype Result<+T, +E> = Ok(value: T) | Err(error: E)

  function OrElse<T>(option: Option<T>, otherwise: T): T {
    if option.Some? then option.value else otherwise
  }
}
