/** A value that may be absent: the model's stand-in for a missing pandas
    cell (NaN), such as an unknown tier or the mean of an empty group. */
module Maybe {

  datatype Option<+T> = None | Some(value: T) {

    /** Returns the wrapped value, or `default` when there is none. */
    function GetOr(default: T): T {
      match this
      case Some(v) => v
      case None => default
    }
  }
}
