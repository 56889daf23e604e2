/** Python-like values as the recognition client hands them back, with the
    truth-value and `dict.get` rules the identifier relies on. */
module Values {

  datatype Option<+T> = None | Some(value: T)

  /** A JSON-shaped Python value. The recognition response, and every field
      read out of it, is one of these (`Null` is Python's `None`). */
  datatype Value =
    | Null
    | Bool(b: bool)
    | Num(n: int)
    | Str(s: string)
    | List(items: seq<Value>)
    | Dict(entries: map<string, Value>)

  /** Python's truth value of `v`, as used by `if v:` and `not v`. */
  predicate Truthy(v: Value) {
    match v
    case Null => false
    case Bool(b) => b
    case Num(n) => n != 0
    case Str(s) => s != ""
    case List(items) => items != []
    case Dict(entries) => entries != map[]
  }

  /** `m.get(key, default)`: the stored value when the key is present, even
      when that value is `None`; the default only when the key is absent. */
  function Get(m: map<string, Value>, key: string, default: Value): Value {
    if key in m then m[key] else default
  }
}
