/**
 * Values shared by the three handlers: JSON scalars with JavaScript's
 * truthiness, HTTP responses with their JSON bodies, and the user an
 * authentication session yields.
 */
module Web {

  datatype Option<+T> = None | Some(value: T) {
    function GetOr(default: T): T {
      match this
      case Some(v) => v
      case None => default
    }
  }

  /**
   * A JSON scalar as a handler sees it after `JSON.parse` and destructuring.
   * `Undefined` is a property the object does not have.  JavaScript numbers
   * are modelled as integers (no fractions, no NaN).
   */
  datatype Value = Undefined | Null | Bool(b: bool) | Num(n: int) | Str(s: string)

  /** JavaScript truthiness: `undefined`, `null`, `false`, `0` and `""` are falsy. */
  predicate Truthy(v: Value) {
    match v
    case Undefined => false
    case Null => false
    case Bool(b) => b
    case Num(n) => n != 0
    case Str(s) => s != ""
  }

  /** JavaScript's `a || b` on values. */
  function Or(a: Value, b: Value): Value {
    if Truthy(a) then a else b
  }

  /** The JSON bodies the handlers produce: `{ok: true}`, `{ok: false, reason}`, or any other JSON text. */
  datatype Body = OkBody | FailBody(reason: string) | OtherBody(json: string)

  datatype Response = Response(status: int, body: Body)

  /** The user `supabase.auth.getUser()` returns for a valid session. */
  datatype User = User(id: string)
}
