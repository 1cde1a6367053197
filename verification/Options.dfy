module Options {
  datatype Option<+T> = None | Some(value: T)

  /** The value, if there is one. */
  function Listed<T>(o: Option<T>): seq<T> { if o.Some? then [o.value] else [] }
}
