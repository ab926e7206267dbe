/** Option and Result: the `null`-or-value and `{success, data, error}` shapes of the source. */
module Wrappers {

  datatype Option<+T> = None | Some(value: T)
  {
    function GetOr(default: T): T
    {
      match this
      case Some(v) => v
      case None => default
    }
  }

  /** The `{ success: true, data }` / `{ success: false, error }` return convention. */
  datatype Result<+T> = Ok(value: T) | Err(error: string)
}
