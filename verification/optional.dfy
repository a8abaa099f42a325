/** Optional values and success/failure results. They stand for the source's
    optional properties (`x?: T`, `undefined`, JSON `null`) and for errors
    that are thrown and caught. */
module Optional {

  datatype Option<+T> = None | Some(value: T) {

    /** The value, or `default` when absent: the source's fallback to a
        default for values whose only falsy form is absence. */
    function GetOr(default: T): T
    {
      match this
      case Some(v) => v
      case None => default
    }
  }

  /** Either a value or the error a call would have thrown. */
  datatype Result<+T, +E> = Success(value: T) | Failure(error: E)
}
