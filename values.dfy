/** JavaScript values as they appear in decoded token claims and in attribute records. */
module Values {

  /** An optional argument or property: None when it is `undefined`. */
  datatype Option<T> = None | Some(value: T)

  /** A JSON value. Numbers are modelled as integers. */
  datatype Json =
    | Null
    | Bool(b: bool)
    | Num(n: int)
    | Str(s: string)
    | Arr(items: seq<Json>)
    | Obj(fields: map<string, Json>)

  /** JavaScript truthiness of a value: what `if (v)` tests. */
  predicate Truthy(v: Json) {
    match v
    case Null => false
    case Bool(b) => b
    case Num(n) => n != 0
    case Str(s) => s != ""
    case Arr(_) => true
    case Obj(_) => true
  }

  /** JavaScript strict equality `v === true`: only the boolean literal passes. */
  predicate StrictlyTrue(v: Json)
  {
    v.Bool? && v.b
  }

  /** Strict equality with `true` is stronger than truthiness, and strictly so. */
  lemma StrictlyTrueIsTruthy(v: Json)
    ensures StrictlyTrue(v) ==> Truthy(v)
    ensures StrictlyTrue(v) <==> v == Bool(true)
  {
  }
}
