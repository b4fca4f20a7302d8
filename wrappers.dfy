/** Optional values, used wherever the source reads a possibly missing property. */
module Wrappers {
  datatype Option<T> = None | Some(value: T)
  {
    /** JavaScript's `x || d` on a possibly missing value. */
    function GetOr(default: T): T
    {
      match this
      case None => default
      case Some(v) => v
    }
  }
}
