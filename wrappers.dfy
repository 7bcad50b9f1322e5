/** The optional value used for `Option` returns and for the placer's panics. */
module Wrappers {

  datatype Option<+T> = None | Some(value: T)
  {
    /** The wrapped value, or `default` when there is none (`unwrap_or`). */
    function GetOr(default: T): T
    {
      match this
      case Some(v) => v
      case None => default
    }
  }
}
