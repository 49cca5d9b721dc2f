/** JSON-shaped values as the handlers see them: request bodies, table rows
    and response payloads are objects mapping column names to scalars. */
module Json {

  datatype Option<+T> = None | Some(value: T)

  /** A JSON scalar. Timestamps are integer clock readings (`Num`). */
  datatype Value = Null | Bool(b: bool) | Num(n: int) | Str(s: string)

  /** A JSON object: a request body or a table row. */
  type Row = map<string, Value>

  /** JavaScript truthiness of a value that is present. */
  predicate Truthy(v: Value) {
    match v
    case Null => false
    case Bool(b) => b
    case Num(n) => n != 0
    case Str(s) => s != ""
  }

  /** Destructuring `const { k } = body`: `None` stands for `undefined`. */
  function Field(body: Row, k: string): (r: Option<Value>)
    ensures r.Some? <==> k in body
    ensures r.Some? ==> r.value == body[k]
  {
    if k in body then Some(body[k]) else None
  }

  /** `x || fallback` on a field that may be undefined. */
  function OrElse(v: Option<Value>, fallback: Value): (r: Value)
    ensures v.Some? && Truthy(v.value) ==> r == v.value
    ensures (v.None? || !Truthy(v.value)) ==> r == fallback
  {
    if v.Some? && Truthy(v.value) then v.value else fallback
  }

  /** A field serialised into an insert: an undefined one is omitted, so the
      column takes its default, which is `null`. */
  function OrNull(v: Option<Value>): (r: Value)
    ensures v.Some? ==> r == v.value
    ensures v.None? ==> r == Null
  {
    if v.Some? then v.value else Null
  }

  /** `{ k: v }` when `v` is defined, `{}` otherwise (JSON drops undefined). */
  function Entry(k: string, v: Option<Value>): (r: Row)
    ensures k in r <==> v.Some?
    ensures r.Keys <= {k}
    ensures v.Some? ==> r[k] == v.value
  {
    if v.Some? then map[k := v.value] else map[]
  }
}
