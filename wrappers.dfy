/** Optional values, for the nullable columns and lookups of the system. */
module Wrappers {

  datatype Option<+T> = None | Some(value: T)

  /** The value, or `default` when there is none: a sent field, or the value already stored. */
  function UnwrapOr<T>(o: Option<T>, default: T): T
  {
    match o
    case Some(v) => v
    case None => default
  }

}
