/** Values exchanged over the dashboard's socket, as the JavaScript front end
    and the Python back end see them after JSON decoding. Numbers are
    integers here (every identifier and counter in the core is one). */
module Json {
  import opened Strings
  import opened Wrappers

  datatype Json =
    | Undefined                       // a JavaScript property that is absent
    | Null                            // JSON null, Python None
    | Bool(b: bool)
    | Num(n: int)
    | Str(s: string)
    | Arr(items: seq<Json>)
    | Obj(fields: map<string, Json>)

  /** One incoming socket frame: either `JSON.parse` threw, or it gave a value. */
  datatype Incoming = Malformed | Parsed(data: Json)

  /** Reading `v[key]` in JavaScript on a value that is neither null nor
      undefined: a missing property, or a property of a non-object, is
      undefined. */
  function Get(v: Json, key: string): (r: Json)
    ensures v.Obj? && key in v.fields ==> r == v.fields[key]
    ensures !v.Obj? ==> r == Undefined
  {
    if v.Obj? && key in v.fields then v.fields[key] else Undefined
  }

  /** The value a handler reads fields from, or None when reading a field
      throws: the frame did not parse, or it parsed to `null`, whose
      properties cannot be read. Either way the handler's `catch` runs. */
  function Payload(e: Incoming): (r: Option<Json>)
    ensures r.Some? <==> e.Parsed? && e.data != Null
  {
    if e.Parsed? && e.data != Null then Some(e.data) else None
  }

  /** JavaScript truthiness. */
  predicate Truthy(v: Json)
  {
    match v
    case Undefined => false
    case Null => false
    case Bool(b) => b
    case Num(n) => n != 0
    case Str(s) => s != []
    case Arr(_) => true
    case Obj(_) => true
  }

  /** Python truthiness of the same decoded value (empty containers are
      false in Python, true in JavaScript). */
  predicate PyTruthy(v: Json)
  {
    match v
    case Undefined => false
    case Null => false
    case Bool(b) => b
    case Num(n) => n != 0
    case Str(s) => s != []
    case Arr(items) => items != []
    case Obj(fields) => fields != map[]
  }

  /** JavaScript `String(v)`: also what an object key `{[v]: ...}` becomes. */
  function ToStr(v: Json): (r: string)
    ensures v.Str? ==> r == v.s
    ensures v.Num? ==> r == IntToDecimal(v.n)
  {
    match v
    case Undefined => "undefined"
    case Null => "null"
    case Bool(b) => if b then "true" else "false"
    case Num(n) => IntToDecimal(n)
    case Str(s) => s
    case Arr(items) => JoinElements(items, ",")
    case Obj(_) => "[object Object]"
  }

  /** `items.join(sep)`: null and undefined elements become empty strings. */
  function JoinElements(items: seq<Json>, sep: string): string
    decreases items
  {
    if items == [] then []
    else
      var head := if items[0].Null? || items[0].Undefined? then [] else ToStr(items[0]);
      if |items| == 1 then head else head + sep + JoinElements(items[1..], sep)
  }

  /** JavaScript `typeof v === "string"`. */
  predicate IsString(v: Json) { v.Str? }

  /** `Array.isArray(v)`. */
  predicate IsArray(v: Json) { v.Arr? }

  /** Python `str(v)` of a decoded value, as an f-string renders it: exact
      for strings, integers, booleans and `None`; lists and dicts are shown
      only by their brackets. */
  function PyStr(v: Json): (r: string)
    ensures v.Str? ==> r == v.s
    ensures v.Num? ==> r == IntToDecimal(v.n)
  {
    match v
    case Undefined => "None"
    case Null => "None"
    case Bool(b) => if b then "True" else "False"
    case Num(n) => IntToDecimal(n)
    case Str(s) => s
    case Arr(_) => "[...]"
    case Obj(_) => "{...}"
  }

  /** An outgoing frame `{command, args}`, before `JSON.stringify`. */
  datatype Outgoing = Outgoing(command: string, args: seq<Json>)
}
