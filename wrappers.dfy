/** Optional values and results with an error, standing for Java's null and for thrown exceptions. */
module Wrappers {

  datatype Option<+T> = None | Some(value: T) {
    /** The value, or `default` when there is none (Java's `Optional.orElse`). */
    function GetOr(default: T): T {
      match this
      case Some(v) => v
      case None => default
    }
  }

  datatype Result<+T, +E> = Ok(value: T) | Err(error: E)
}

/** The Java throwables the core can raise that the model keeps as error values. */
module Failures {

  datatype Throwable =
    | IllegalStateException             // `Validate.validState` failed
    | StringIndexOutOfBoundsException   // `substring` past the end of a string
    | StackOverflowError                // unbounded recursion over a cyclic `extends` chain
}
