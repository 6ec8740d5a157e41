/**
  Decoded JSON values as the scheduling provider returns them, and the
  Python operations the client and the booking service apply to them
  (`d.get(k, default)`, `d[k]`, truthiness, iteration, `str()`).
  Each operation that would raise in Python on a value of the wrong shape
  (KeyError, TypeError, AttributeError) returns `Err` with a description.
 */
module JsonData {
  import opened Wrappers
  import opened Text

  /** JSON numbers are modelled as integers. */
  datatype Json =
    | JNull
    | JBool(b: bool)
    | JNum(n: int)
    | JStr(s: string)
    | JArr(items: seq<Json>)
    | JObj(fields: map<string, Json>)

  /** Python truthiness of the decoded value (`None`, `False`, `0`, `""`, `[]`, `{}` are falsy). */
  predicate Truthy(j: Json) {
    match j
    case JNull => false
    case JBool(b) => b
    case JNum(n) => n != 0
    case JStr(s) => s != ""
    case JArr(xs) => |xs| > 0
    case JObj(m) => |m| > 0
  }

  /** `j.get(key, default)`: only dictionaries have `get`. */
  function Get(j: Json, key: string, default: Json): (r: Result<Json, string>)
    ensures r.Ok? <==> j.JObj?
    ensures r.Ok? && key in j.fields ==> r.value == j.fields[key]
    ensures r.Ok? && key !in j.fields ==> r.value == default
  {
    match j
    case JObj(m) => Ok(if key in m then m[key] else default)
    case _ => Err("AttributeError: object has no attribute 'get'")
  }

  /** `j[key]` for a string key: a dictionary that holds the key, else KeyError/TypeError. */
  function Index(j: Json, key: string): (r: Result<Json, string>)
    ensures r.Ok? <==> j.JObj? && key in j.fields
    ensures r.Ok? ==> r.value == j.fields[key]
  {
    if j.JObj? && key in j.fields then Ok(j.fields[key])
    else if j.JObj? then Err("KeyError: '" + key + "'")
    else Err("TypeError: value is not subscriptable by '" + key + "'")
  }

  /** A value the code goes on to treat as text (`.lower()`, `.split()`, `.replace()`). */
  function AsText(j: Json): (r: Result<string, string>)
    ensures r.Ok? <==> j.JStr?
    ensures r.Ok? ==> r.value == j.s
  {
    match j
    case JStr(s) => Ok(s)
    case _ => Err("AttributeError: value is not a string")
  }

  /**
    The elements a Python `for` loop visits before the loop body first fails.
    A list yields its items. An empty string or dictionary yields nothing.
    A non-empty string or dictionary yields strings (characters or keys),
    which every loop body in this code then indexes or calls `.get` on and so fails:
    that is reported here, before any element is visited.
    Other values are not iterable.
   */
  function Elements(j: Json): (r: Result<seq<Json>, string>)
    ensures j.JArr? ==> r == Ok(j.items)
    ensures !j.JArr? && Truthy(j) ==> r.Err?
    ensures !j.JArr? && r.Ok? ==> r.value == []
  {
    match j
    case JArr(xs) => Ok(xs)
    case JStr(s) => if s == "" then Ok([]) else Err("TypeError: string elements are not records")
    case JObj(m) => if |m| == 0 then Ok([]) else Err("TypeError: dictionary keys are not records")
    case _ => Err("TypeError: value is not iterable")
  }

  /** Python's `str()` of a scalar; lists and dictionaries get a placeholder rendering. */
  function Display(j: Json): (r: string)
    ensures j.JStr? ==> r == j.s
    ensures j.JNum? ==> r == IntToString(j.n)
  {
    match j
    case JNull => "None"
    case JBool(b) => if b then "True" else "False"
    case JNum(n) => IntToString(n)
    case JStr(s) => s
    case JArr(_) => "[...]"
    case JObj(_) => "{...}"
  }
}
