/** Optional values and the outcome of an operation that may throw.
    `Outcome` stands for a settled JavaScript promise: `Ok` when it resolved,
    `Err` when it rejected (network failure, unparsable body, thrown TypeError). */
module Results {

  datatype Option<+T> = None | Some(value: T) {

    /** The `??` operator: the value, or `default` when it is null or undefined. */
    function GetOr(default: T): (r: T)
      ensures Some? ==> r == value
      ensures None? ==> r == default
    {
      match this
      case Some(v) => v
      case None => default
    }
  }

  datatype Outcome<+T> = Ok(value: T) | Err
}
