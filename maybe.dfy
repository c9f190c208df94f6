/** Optional values and backend outcomes. A JavaScript `null`/`undefined`
    becomes `None`; a backend call that can fail becomes a `Result`. */
module Maybe {

  datatype Option<+T> = None | Some(value: T)

  /** The outcome of a backend call: its data, or the error's message. */
  datatype Result<+T> = Ok(value: T) | Err(message: string)
}
