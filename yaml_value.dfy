/**
 * The Python objects that `yaml.safe_load` produces, as one value type.
 *
 * A float is kept as its Python `repr` text: Python 3 renders a float with
 * `str(x) == repr(x)`, and the repr identifies the float uniquely, so equality
 * of `Float` values is equality of Python floats.
 */
module YamlValue {

  datatype Value =
    | Null
    | Bool(b: bool)
    | Int(i: int)
    | Float(repr: string)
    | Str(s: string)
    | List(items: seq<Value>)
    | Map(entries: map<Value, Value>)

  /** The exact Python type of a value, as `type(value)` reports it. */
  datatype PyType = NoneType | BoolType | IntType | FloatType | StrType | ListType | DictType

  function TypeOf(v: Value): PyType {
    match v
    case Null => NoneType
    case Bool(_) => BoolType
    case Int(_) => IntType
    case Float(_) => FloatType
    case Str(_) => StrType
    case List(_) => ListType
    case Map(_) => DictType
  }
}
