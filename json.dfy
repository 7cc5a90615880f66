/**
 * The values that cross the wire once a body has been decoded, and the
 * native (non-taxonomy) Python exceptions the core observes.
 *
 * Python's json module keeps int, float and bool apart, and the validators
 * of jarpc/format.py depend on that (an integer `ts` is rejected), so the
 * datatype does too.
 */
module Json {

  datatype Json =
    | JNull
    | JBool(b: bool)
    | JInt(i: int)
    | JFloat(f: real)
    | JString(s: string)
    | JArray(items: seq<Json>)
    | JObject(fields: map<string, Json>)

  /** A native exception: its class name and its str() text. */
  datatype Exception = Exception(cls: string, text: string)

  /** What the pluggable `loads` function made of a message body. */
  datatype Decoded = Parsed(value: Json) | Unparsable(exc: Exception)

  /** The name Python reports for the type of a decoded value. */
  function TypeName(j: Json): string
  {
    match j
    case JNull => "NoneType"
    case JBool(_) => "bool"
    case JInt(_) => "int"
    case JFloat(_) => "float"
    case JString(_) => "str"
    case JArray(_) => "list"
    case JObject(_) => "dict"
  }

  /** `d.get(k)`: the stored value, or None when the key is absent. */
  function Get(d: map<string, Json>, k: string): (v: Json)
    ensures k !in d ==> v == JNull
    ensures k in d ==> v == d[k]
  {
    if k in d then d[k] else JNull
  }

  /** The text `f'{e.__class__.__name__}: {e}'` used wherever an exception becomes data. */
  function Describe(e: Exception): string
  {
    e.cls + ": " + e.text
  }
}
