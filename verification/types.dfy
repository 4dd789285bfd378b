/** Optional values and success-or-exception values: the model's stand-ins for
    Kotlin's nullable types and for exceptions a call throws. */
module Types {

  /** A Kotlin `T?`; `None` plays the part of `null`. */
  datatype Option<T> = None | Some(value: T) {

    /** Kotlin's elvis operator, `x ?: default`. */
    function OrElse(default: T): T {
      match this
      case Some(v) => v
      case None => default
    }
  }

  /** What a call returns (`Ok`) or the exception it throws (`Err`). */
  datatype Result<T, E> = Ok(value: T) | Err(error: E)
}
