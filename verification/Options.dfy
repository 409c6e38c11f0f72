/** The one optional-value type shared by the project. */
module Options {
  datatype Option<+T> = None | Some(value: T)

  /** The value if there is one, the given default otherwise. */
  function OrElse<T>(o: Option<T>, d: T): T {
    match o
    case Some(v) => v
    case None => d
  }
}
