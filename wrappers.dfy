/** Optional values: Kotlin's nullable types and Go's "value or panic" results. */
module Wrappers {
  datatype Option<T> = None | Some(value: T)
  {
    /** Kotlin's elvis operator `x ?: d`. */
    function GetOr(default: T): T
    {
      if Some? then value else default
    }
  }
}
