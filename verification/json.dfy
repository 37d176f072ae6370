/**
 * JavaScript values as far as the search core distinguishes them: documents
 * coming back from the index are objects whose fields hold these values.
 */
module Json {

  import opened Wrappers

  /** A JavaScript value. Arrays are arrays of numbers (vectors), the only kind the core reads. */
  datatype Value =
    | Undefined
    | Null
    | Bool(b: bool)
    | Num(n: real)
    | Str(s: string)
    | NumArray(items: seq<real>)

  /** A plain JavaScript object, such as a document's `_source`. */
  type Object = map<string, Value>

  /** JavaScript truthiness: what `if (v)`, `!v` and `filter(Boolean)` test. */
  predicate Truthy(v: Value)
  {
    match v
    case Undefined => false
    case Null => false
    case Bool(b) => b
    case Num(n) => n != 0.0
    case Str(s) => |s| > 0
    case NumArray(_) => true
  }

  /** Truthiness of an optional string, e.g. a request field or a hit's `_id`. */
  predicate TruthyString(s: Option<string>)
  {
    s.Some? && |s.value| > 0
  }
}
