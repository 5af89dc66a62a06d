/** JSON values as Python holds them: an object is a mapping, an integer is unbounded, and a float
    is the token `float.__repr__` gives it. */
module JsonValues {
  import opened Options
  import opened PyText
  import opened NumberTokens

  datatype Json =
    | Null
    | Bool(b: bool)
    | Int(n: int)
    | Float(token: string)
    | NonFinite(token: string)
    | Str(s: PyStr)
    | Arr(items: seq<Json>)
    | Obj(fields: map<PyStr, Json>)

  /** How the platform reads a float token: the `repr` of the nearest double, nothing on overflow. */
  type FloatReader = string -> Option<string>

  predicate FloatToken(t: string) {
    MatchesNumber(t) && ('.' in t || 'e' in t || 'E' in t)
  }

  /** A `repr` is a float token that reads back as itself. */
  ghost predicate LawfulReader(fl: FloatReader) {
    forall t: string :: fl(t).Some? ==> FloatToken(fl(t).value) && fl(fl(t).value) == fl(t)
  }

  /** The floats in `v` are `repr`s. */
  ghost predicate Lawful(fl: FloatReader, v: Json) {
    match v
    case Float(t) => FloatToken(t) && fl(t) == Some(t)
    case Arr(items) => forall i :: 0 <= i < |items| ==> Lawful(fl, items[i])
    case Obj(fields) => forall k :: k in fields ==> Lawful(fl, fields[k])
    case _ => true
  }

  /** `v` has canonical bytes: every float is finite and no string holds a lone surrogate. */
  predicate Encodable(v: Json) {
    match v
    case NonFinite(_) => false
    case Str(s) => Clean(s)
    case Arr(items) => forall i :: 0 <= i < |items| ==> Encodable(items[i])
    case Obj(fields) => forall k :: k in fields ==> Clean(k) && Encodable(fields[k])
    case _ => true
  }
}
