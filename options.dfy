/** An optional value: `None` marks a raised error or the absence of a
    result. */
module Options {
  datatype Option<T> = None | Some(value: T)
}
