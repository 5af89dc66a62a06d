/** `json.dumps(..., sort_keys=True, separators=(",", ":"), ensure_ascii=False, allow_nan=False)` */
module JsonPrinter {
  import opened Options
  import opened PyText
  import opened JsonValues
  import opened Utf8

  function DigitChar(d: int): char
    requires 0 <= d < 10
  {
    ('0' as int + d) as char
  }

  function HexChar(d: int): char
    requires 0 <= d < 16
  {
    if d < 10 then DigitChar(d) else ('a' as int + d - 10) as char
  }

  function Dec(n: nat): string {
    if n < 10 then [DigitChar(n)] else Dec(n / 10) + [DigitChar(n % 10)]
  }

  function IntText(n: int): string {
    if n < 0 then "-" + Dec(-n) else Dec(n)
  }

  function EscapeChar(c: CodePoint): string
    requires !Surrogate(c)
  {
    if c == 0x22 then "\\\""
    else if c == 0x5C then "\\\\"
    else if c == 0x0A then "\\n"
    else if c == 0x0D then "\\r"
    else if c == 0x09 then "\\t"
    else if c == 0x0C then "\\f"
    else if c == 0x08 then "\\b"
    else if c < 0x20 then "\\u00" + [HexChar(c / 16), HexChar(c % 16)]
    else [c as char]
  }

  function Escape(s: PyStr): string
    requires Clean(s)
  {
    if s == [] then "" else EscapeChar(s[0]) + Escape(s[1..])
  }

  function StringText(s: PyStr): string
    requires Clean(s)
  {
    "\"" + (Escape(s) + "\"")
  }

  function Print(v: Json): string
    requires Encodable(v)
    decreases v, 1, 0
  {
    match v
    case Null => "null"
    case Bool(b) => if b then "true" else "false"
    case Int(n) => IntText(n)
    case Float(t) => t
    case Str(s) => StringText(s)
    case Arr(items) => "[" + ItemsText(items)
    case Obj(fields) => "{" + FieldsText(v, SortedKeys(fields.Keys))
  }

  /** The items and the closing bracket. */
  function ItemsText(items: seq<Json>): string
    requires forall i :: 0 <= i < |items| ==> Encodable(items[i])
    decreases items, 0, 0
  {
    if items == [] then "]"
    else Print(items[0]) + (if |items| == 1 then "]" else "," + ItemsText(items[1..]))
  }

  /** The fields named by `keys`, in that order, and the closing brace. */
  function FieldsText(v: Json, keys: seq<PyStr>): string
    requires v.Obj? && Encodable(v) && (forall k :: k in keys ==> k in v.fields)
    decreases v, 0, |keys|
  {
    if keys == [] then "}"
    else
      StringText(keys[0]) + (":" + (Print(v.fields[keys[0]]) +
        (if |keys| == 1 then "}" else "," + FieldsText(v, keys[1..]))))
  }

  /** `canonical_json_bytes(obj)`, nothing when it raises `SchemaError`. */
  function CanonicalBytes(v: Json): Option<seq<byte>> {
    if Encodable(v) then Some(Encode(Print(v))) else None
  }
}
