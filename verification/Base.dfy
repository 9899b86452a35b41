module Base {
  datatype Option<+T> = None | Some(value: T)

  function OrElse<T>(o: Option<T>, default: T): T {
    if o.Some? then o.value else default
  }
}
