/** An optional value: `null`/`undefined` in the editor's state and results. */
module Optional {
  datatype Option<+T> = None | Some(value: T)

  /** The value held, or `default` when there is none. */
  function OrElse<T>(given: Option<T>, default: T): T {
    match given
    case Some(v) => v
    case None => default
  }
}
