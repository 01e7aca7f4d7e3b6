/** Values shared by every part of the model: optional and failing results, and
    the dynamically-typed values that flow through the Python dictionaries
    (query records, decoded JSON, result records). */
module Common {

  datatype Option<+T> = None | Some(value: T)

  /** `Failure` carries what the source reports for a raised exception,
      usually `str(e)`. */
  datatype Result<+T, +E> = Success(value: T) | Failure(error: E)

  /** A JSON-like Python value: what `json.load`/`json.loads` produce and what
      the record dictionaries hold. Numbers that JSON writes with a fraction
      are `Float`. */
  datatype Value =
    | Null
    | Bool(b: bool)
    | Int(i: int)
    | Float(x: real)
    | Str(s: string)
    | List(items: seq<Value>)
    | Dict(entries: map<string, Value>)

  /** Python truthiness of a value (`if v:`). */
  predicate Truthy(v: Value) {
    match v
    case Null => false
    case Bool(b) => b
    case Int(i) => i != 0
    case Float(x) => x != 0.0
    case Str(s) => s != ""
    case List(items) => items != []
    case Dict(entries) => entries != map[]
  }

  /** Python's `max(0, n)`. */
  function NonNeg(n: int): (r: nat)
    ensures r >= n && (r == 0 || r == n)
  {
    if n < 0 then 0 else n
  }
}
