/** The configuration values a parsed YAML/JSON/TOML file is made of. */
module Values {

  /** A configuration value: a scalar, a list, or a mapping from string keys to values.
      Python's `None` is `Null`; any other opaque Python object would be a scalar too. */
  datatype Value =
    | Null
    | Bool(b: bool)
    | Int(i: int)
    | Float(f: real)
    | Str(s: string)
    | List(items: seq<Value>)
    | Dict(entries: map<string, Value>)

  /** A configuration mapping (a Python `dict` with string keys). */
  type Mapping = map<string, Value>

  /** Python truthiness: `None`, `False`, zero and empty containers are falsy. */
  predicate Truthy(v: Value)
  {
    match v
    case Null => false
    case Bool(b) => b
    case Int(i) => i != 0
    case Float(f) => f != 0.0
    case Str(s) => |s| > 0
    case List(xs) => |xs| > 0
    case Dict(m) => |m| > 0
  }

  /** A value the merge neither recurses into nor combines: it is simply overwritten. */
  predicate IsScalar(v: Value)
  {
    !v.Dict? && !v.List?
  }
}
