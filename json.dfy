/**
 * The value produced by Python's `json.loads`, and the Python-level tests the
 * parsers apply to it: `dict.get`, truthiness, `isinstance(v, int)` (true for
 * booleans too, since `bool` is a subclass of `int`), numeric tests and `str`.
 */
module Json {
  import opened PyText

  datatype JsonValue =
    | JNull
    | JBool(b: bool)
    | JInt(i: int)
    | JFloat(r: real)
    | JString(s: string)
    | JArray(items: seq<JsonValue>)
    | JObject(fields: map<string, JsonValue>)

  /** `d.get(key)`: a missing key reads as `None`. */
  function Get(d: map<string, JsonValue>, key: string): (v: JsonValue)
    ensures key !in d ==> v == JNull
    ensures key in d ==> v == d[key]
  {
    if key in d then d[key] else JNull
  }

  /** `d.get(key, default)`. */
  function GetOr(d: map<string, JsonValue>, key: string, default: JsonValue): (v: JsonValue)
    ensures key !in d ==> v == default
    ensures key in d ==> v == d[key]
  {
    if key in d then d[key] else default
  }

  /** `bool(v)`: None, False, 0, 0.0 and empty containers are false. */
  predicate Truthy(v: JsonValue) {
    match v
    case JNull => false
    case JBool(b) => b
    case JInt(i) => i != 0
    case JFloat(r) => r != 0.0
    case JString(s) => s != []
    case JArray(a) => a != []
    case JObject(m) => m != map[]
  }

  /** The integer value when `isinstance(v, int)` holds (booleans are 0 and 1). */
  predicate IsInt(v: JsonValue) {
    v.JInt? || v.JBool?
  }

  function IntValue(v: JsonValue): int
    requires IsInt(v)
  {
    if v.JInt? then v.i else if v.b then 1 else 0
  }

  /** `isinstance(v, (int, float))`. */
  predicate IsNumber(v: JsonValue) {
    v.JInt? || v.JFloat? || v.JBool?
  }

  /** `float(v)` for a number. */
  function FloatValue(v: JsonValue): real
    requires IsNumber(v)
  {
    match v
    case JInt(i) => i as real
    case JFloat(r) => r
    case JBool(b) => if b then 1.0 else 0.0
  }

  /** `isinstance(v, str)` with a non-blank value (`not v.strip()` is false). */
  predicate IsNonBlankString(v: JsonValue) {
    v.JString? && Strip(v.s) != []
  }

  /** Whether `hash(v)` succeeds: lists and dicts are unhashable. */
  predicate Hashable(v: JsonValue) {
    !v.JArray? && !v.JObject?
  }

  /**
   * `str(v)`.  Strings, None, booleans and integers are rendered here;
   * `otherRepr` stands for CPython's rendering of floats, lists and dicts.
   */
  function Str(v: JsonValue, otherRepr: JsonValue -> string): (r: string)
    ensures v.JString? ==> r == v.s
    ensures v.JNull? ==> r == "None"
  {
    match v
    case JString(s) => s
    case JNull => "None"
    case JBool(b) => if b then "True" else "False"
    case JInt(i) => IntToString(i)
    case _ => otherRepr(v)
  }
}
