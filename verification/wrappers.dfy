/** Optional values, used wherever the source has a missing key, `null`,
    `undefined`, `None` or a failed parse (`NaN`, `ValueError`). */
module Wrappers {

  datatype Option<+T> = None | Some(value: T) {

    /** The value, or `default` when there is none (`x ?? default`, `d.get(k, default)`). */
    function GetOr(default: T): T
    {
      match this
      case Some(v) => v
      case None => default
    }
  }
}
