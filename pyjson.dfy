/** The Python values a JSON decoder produces, the parts of Python's data model the
    generators touch (truthiness, `type(x).__name__`, `dict.get`), and the two Python
    built-ins the model takes as given: `json.loads` and `str`. */
module PyJson {
  import opened Wrappers

  /** A decoded JSON value. Objects are dictionaries from key to value; key order
      (which Python keeps) is not part of this model. */
  datatype Json =
    | Null
    | Bool(b: bool)
    | Int(i: int)
    | Float(x: real)
    | Str(s: string)
    | Arr(items: seq<Json>)
    | Obj(fields: map<string, Json>)

  /** Python's `bool(x)`: `None`, `False`, zero, and empty strings, lists and dicts are false. */
  predicate Truthy(j: Json) {
    match j
    case Null => false
    case Bool(b) => b
    case Int(i) => i != 0
    case Float(x) => x != 0.0
    case Str(s) => s != []
    case Arr(items) => items != []
    case Obj(fields) => fields != map[]
  }

  /** `type(x).__name__` */
  function TypeName(j: Json): string {
    match j
    case Null => "NoneType"
    case Bool(_) => "bool"
    case Int(_) => "int"
    case Float(_) => "float"
    case Str(_) => "str"
    case Arr(_) => "list"
    case Obj(_) => "dict"
  }

  /** `d.get(key, default)` */
  function Get(fields: map<string, Json>, key: string, default: Json): (r: Json)
    ensures key in fields ==> r == fields[key]
    ensures key !in fields ==> r == default
  {
    if key in fields then fields[key] else default
  }

  /** The built-ins whose behaviour the model takes as given: `loads` is `json.loads`
      with its exception turned into `None`, `render` is `str()` of a decoded value. */
  datatype Builtins = Builtins(loads: string -> Option<Json>, render: Json -> string)

  /** `str()` of a string is the string itself, as it is in Python. */
  ghost predicate RendersText(render: Json -> string) {
    forall s :: render(Str(s)) == s
  }

  /** `json.loads` rejects the empty text, as every JSON decoder does. */
  predicate RejectsEmpty(b: Builtins) {
    b.loads("") == None
  }
}
