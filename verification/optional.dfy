/** Values that may be absent: JavaScript's `null` / `undefined` for one field. */
module Optional {
  datatype Option<+T> = None | Some(value: T) {
    /** The value, or `default` when absent (the `x || default` idiom on objects). */
    function GetOr(default: T): T {
      match this
      case Some(v) => v
      case None => default
    }
  }

  /** JavaScript truthiness of an optional string: absent and `""` are both falsy. */
  predicate Truthy(s: Option<string>) {
    s.Some? && s.value != ""
  }
}

/** What an awaited API call produced: the decoded body, or the reason the promise was rejected. */
module Remote {
  /** Why an awaited call was rejected. */
  datatype Failure =
    | HttpStatus(code: int)   // the server answered with a non-2xx status (`error.response.status`)
    | NoResponse              // timeout or unreachable host: `error.response` is undefined
    | TypeError               // a field of an absent object was read while handling the body

  datatype Outcome<+T> = Ok(value: T) | Err(failure: Failure)
}
