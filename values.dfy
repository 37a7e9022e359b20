/** Values shared by the client and the server: an option type, a result
    type, and the JSON values that `json.loads` produces on either side. */
module Values {

  datatype Option<+T> = None | Some(value: T)

  datatype Result<+T, +E> = Success(value: T) | Failure(error: E)

  /** A decoded JSON value, as Python sees it after `json.loads`:
      an `int`, a `float`, a `bool`, a `str`, `None`, a `list` or a `dict`.
      Floats are carried as reals. They are only compared (with 1.0 and
      with their own floor), never computed with. */
  datatype Value =
    | IntV(i: int)
    | FloatV(f: real)
    | BoolV(b: bool)
    | StrV(s: string)
    | NullV
    | ListV(items: seq<Value>)
    | ObjectV(fields: map<string, Value>)

  /** Python's `v == 1` on a decoded JSON value. `True == 1` and
      `1.0 == 1` both hold in Python, so a JSON `true` or `1.0` compares
      equal to 1 just like the integer 1; every other value does not. */
  predicate EqualsOne(v: Value): (r: bool)
    ensures r <==> v == IntV(1) || v == FloatV(1.0) || v == BoolV(true)
  {
    match v
    case IntV(i) => i == 1
    case FloatV(f) => f == 1.0
    case BoolV(b) => b
    case _ => false
  }
}
