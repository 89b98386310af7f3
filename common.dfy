/** Values shared by the server and the client: optional values, JavaScript's
    rounding functions, the loosely typed values a JSON payload carries, and the
    risk levels both streak classifiers produce. */
module Common {

  datatype Option<+T> = None | Some(value: T) {
    /** `x || d` / `x ?? d` for a value that is either present or absent. */
    function GetOr(default: T): T {
      match this
      case Some(v) => v
      case None => default
    }
  }

  /** Distance between two day numbers or two timestamps, `Math.abs(a - b)`. */
  function Abs(x: int): (r: nat)
    ensures r == x || r == -x
  {
    if x < 0 then -x else x
  }

  /** `Math.ceil`: the least integer not below `x`. */
  function Ceil(x: real): (c: int)
    ensures x <= c as real < x + 1.0
  {
    -((-x).Floor)
  }

  /** `Math.round`: the nearest integer, halves rounded towards +infinity. */
  function Round(x: real): (r: int)
    ensures x - 0.5 < r as real <= x + 0.5
  {
    (x + 0.5).Floor
  }

  /** A field of a JSON request body as JavaScript sees it: a number, NaN, a
      string, or absent (`undefined`/`null`/`false`). */
  datatype JsValue = Num(v: real) | NaN | Text(s: string) | Absent

  /** JavaScript truthiness of such a value, as used by `a || b`. */
  predicate Truthy(x: JsValue) {
    match x
    case Num(v) => v != 0.0
    case NaN => false
    case Text(s) => s != ""
    case Absent => false
  }

  /** `typeof x === 'number' && !isNaN(x)`. */
  predicate IsNumber(x: JsValue) {
    x.Num?
  }

  /** The risk levels shown next to a streak. */
  datatype Risk = Safe | Warning | Danger | Lost

  /** How alarming a risk level is, from safe (0) to lost (3). */
  function Severity(r: Risk): nat {
    match r
    case Safe => 0
    case Warning => 1
    case Danger => 2
    case Lost => 3
  }
}
