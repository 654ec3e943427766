/** Option and Result, as every other module uses them. */
module Outcomes {

  datatype Option<+T> = None | Some(value: T) {
    /** The value if there is one, `default` otherwise: the `??` of the source. */
    function Or(default: T): T {
      match this
      case Some(v) => v
      case None => default
    }
  }

  datatype Result<+T, +E> = Ok(value: T) | Err(error: E)
}
