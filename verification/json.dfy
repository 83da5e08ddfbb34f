/** Decoded JSON values as Python sees them after `json.loads`, with the few dict/truthiness
    operations the engine applies to them. */
module Json {
  import opened Wrappers

  /** A decoded JSON value. JSON numbers with a fraction or exponent become `JReal`
      (Python floats, modelled as reals); all other numbers become `JInt`. */
  datatype Json =
    | JNull
    | JBool(b: bool)
    | JInt(i: int)
    | JReal(r: real)
    | JStr(s: string)
    | JArr(items: seq<Json>)
    | JObj(fields: map<string, Json>)

  /** Python truthiness (`bool(value)`). */
  predicate Truthy(j: Json) {
    match j
    case JNull => false
    case JBool(b) => b
    case JInt(i) => i != 0
    case JReal(r) => r != 0.0
    case JStr(s) => |s| > 0
    case JArr(a) => |a| > 0
    case JObj(m) => |m| > 0
  }

  /** `isinstance(value, int)`; Python's `bool` is a subclass of `int`, so `True` reads as 1. */
  function AsPyInt(j: Json): (r: Option<int>)
    ensures r.Some? <==> j.JInt? || j.JBool?
    ensures j.JInt? ==> r == Some(j.i)
  {
    match j
    case JInt(i) => Some(i)
    case JBool(b) => Some(if b then 1 else 0)
    case _ => None
  }

  /** `d.get(key, default)` on a dict. */
  function Get(fields: map<string, Json>, key: string, default: Json): (r: Json)
    ensures key in fields ==> r == fields[key]
    ensures key !in fields ==> r == default
  {
    if key in fields then fields[key] else default
  }
}

/** The library calls the engine makes but that the model does not define, passed in as
    functions: JSON decoding (with its error message) and encoding, `str()` of a decoded
    value, `re.search`, the `calculator` tool's arithmetic evaluator and the string-to-float
    reading of pydantic. */
module Externals {
  import opened Wrappers
  import opened Json

  datatype Externals = Externals(
    /** `json.loads(text)`; `None` is a `JSONDecodeError`. */
    loads: string -> Option<Json>,
    /** `str(exc)` of the `JSONDecodeError` that `json.loads(text)` raises. */
    loadsError: string -> string,
    /** `json.dumps(value)`. */
    dumps: Json -> string,
    /** `str(value)` of a decoded value that is not a string. */
    show: Json -> string,
    /** `re.search(pattern, text, flags=re.MULTILINE) is not None`; `Failure` is `re.error`. */
    regexSearch: (string, string) -> Result<bool>,
    /** The `calculator` tool's evaluator; `Failure` carries the `ToolExecutionError` message. */
    calculator: string -> Result<real>,
    /** A string read as a `float` field reads it in pydantic's lax mode; `None` when it is
        rejected or is not finite (an infinity or NaN fails every range check anyway). */
    parseFloat: string -> Option<real>
  )

  /** `str(value)`: a string is itself, anything else goes through `show`. */
  function PyStr(ext: Externals, j: Json): (r: string)
    ensures j.JStr? ==> r == j.s
  {
    if j.JStr? then j.s else ext.show(j)
  }
}
