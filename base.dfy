/** Shared helper types. */
module Base {

  /** A value that may be absent: a JavaScript `null`/`undefined`, or the
      outcome of a remote call that failed. */
  datatype Option<T> = None | Some(value: T)
}
