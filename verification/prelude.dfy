/** Values shared by every handler: optional request fields, JavaScript truthiness of a
    string field, and the HTTP reply a handler sends. */
module Prelude {

  datatype Option<+T> = None | Some(value: T)

  /** A handler's answer: a success status with its JSON body, or an error status with
      the message the handler sends. */
  datatype Reply<+T> = Ok(status: int, value: T) | Err(status: int, message: string)
  {
    function Status(): int {
      match this
      case Ok(s, _) => s
      case Err(s, _) => s
    }
  }

  /** `if (field)` on an optional request string: absent and "" are both falsy. */
  predicate Truthy(s: Option<string>) {
    s.Some? && s.value != ""
  }

  /** `a || b` on optional strings: the first operand when it is truthy. */
  function OrElse(a: Option<string>, b: string): (r: string)
    ensures Truthy(a) ==> r == a.value
    ensures !Truthy(a) ==> r == b
  {
    if Truthy(a) then a.value else b
  }

  /** A template literal `${x}` of an optional value: an absent value prints "undefined". */
  function Interpolate(s: Option<string>): (r: string)
    ensures s.Some? ==> r == s.value
    ensures s.None? ==> r == "undefined"
  {
    match s
    case Some(v) => v
    case None => "undefined"
  }
}
