/** A nullable column or a lookup that may find nothing, and a call that may throw. */
module Options {
  datatype Option<+T> = None | Some(value: T) {
    function GetOr(default: T): T {
      if Some? then value else default
    }
  }

  datatype Outcome<+T> = Ok(result: T) | Refused
}
