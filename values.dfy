/**
 * The loosely typed data the tool passes around: values read from YAML or
 * JSON, the exceptions the code raises, and Python's truthiness rule.
 */
module Values {
  import opened Wrappers

  /** A YAML/JSON value as the stack code sees it. */
  datatype Value =
    | Str(s: string)
    | Int(i: int)
    | Bool(b: bool)
    | Null
    | Strs(items: seq<string>)
    | Dict(entries: map<string, Value>)

  /** An instance or HA-group body: property name to value. */
  type Spec = map<string, Value>

  /** The exceptions the modelled code can raise. */
  datatype Error =
    | KeyError(key: string)
    | TypeError(what: string)
    | ValueError(what: string)
    | IndexError(what: string)
    | AttributeError(what: string)
    | VmNotFound
    | VmNeedStop
    | VmConfigGet
    | RemoteError(what: string)
    | FileNotFound(path: string)
    | UnboundLocal(name: string)
    | SystemExit(code: int)

  type Outcome<T> = Result<T, Error>

  /** Python's `bool(v)`. */
  predicate Truthy(v: Value) {
    match v
    case Str(s) => s != []
    case Int(i) => i != 0
    case Bool(b) => b
    case Null => false
    case Strs(items) => items != []
    case Dict(m) => m != map[]
  }

  /** `spec[key]`, raising KeyError when the key is missing. */
  function Field(spec: Spec, key: string): (r: Outcome<Value>)
    ensures r.Ok? <==> key in spec
    ensures r.Ok? ==> r.value == spec[key]
    ensures r.Err? ==> r.error == KeyError(key)
  {
    if key in spec then Ok(spec[key]) else Err(KeyError(key))
  }

  /** A value used where the code needs a `str`. */
  function AsText(v: Value): (r: Outcome<string>)
    ensures r.Ok? <==> v.Str?
    ensures r.Ok? ==> r.value == v.s
  {
    if v.Str? then Ok(v.s) else Err(TypeError("expected str"))
  }

  /** A value used where the code needs an `int`; a Python bool is an int. */
  function AsInt(v: Value): (r: Outcome<int>)
    ensures r.Ok? <==> v.Int? || v.Bool?
    ensures v.Int? ==> r == Ok(v.i)
    ensures v.Bool? ==> r == Ok(if v.b then 1 else 0)
  {
    match v
    case Int(i) => Ok(i)
    case Bool(b) => Ok(if b then 1 else 0)
    case _ => Err(TypeError("expected int"))
  }
}
