/**
 * JSON values as `json.loads` (backend) and `response.json()` (page) return
 * them: every value a JSON text can hold. Python's parser gives an `int` for
 * a number written without a fraction or exponent and a `float` otherwise, so
 * the two are kept apart; JavaScript reads both as one kind of number.
 */
module JsonData {

  /** A JSON value; an object maps keys to values. */
  datatype Json = JNull | JBool(b: bool) | JInt(i: int) | JFloat(f: real) | JStr(s: string) | JArr(items: seq<Json>) | JObj(fields: map<string, Json>)

  /** `d.get(key, default)` on a dict `d`: a present key gives its value, even a null one. */
  function Get(fields: map<string, Json>, key: string, default: Json): (r: Json)
    ensures key in fields ==> r == fields[key]
    ensures key !in fields ==> r == default
  {
    if key in fields then fields[key] else default
  }

  /** The fields of a dict, and none for any other value. */
  function FieldsOf(v: Json): map<string, Json> {
    if v.JObj? then v.fields else map[]
  }

  /** The range of SQLite's INTEGER: sqlite3 raises OverflowError on an `int` outside it. */
  const MinInt64: int := -0x8000_0000_0000_0000
  const MaxInt64: int := 0x7FFF_FFFF_FFFF_FFFF

  /**
   * A value sqlite3 binds as an SQL parameter: None, a bool, a float, an `int`
   * within 64 bits, or a str (a list, a dict or a wider `int` raises).
   */
  predicate Scalar(v: Json) {
    v.JNull? || v.JBool? || v.JFloat? || v.JStr? || (v.JInt? && MinInt64 <= v.i <= MaxInt64)
  }

  /** The name of the Python type json.loads gives a value. */
  function TypeName(v: Json): string {
    match v
    case JNull => "NoneType"
    case JBool(_) => "bool"
    case JInt(_) => "int"
    case JFloat(_) => "float"
    case JStr(_) => "str"
    case JArr(_) => "list"
    case JObj(_) => "dict"
  }
}
