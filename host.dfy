/** Values that cross the webview channel or come back from the host's
    configuration store, with the few JavaScript semantics the extension
    relies on (truthiness, `typeof`, property access), and the user-facing
    notifications that `showError` / `showInfo` raise. */
module Host {

  /** A JavaScript value as it can appear in a webview message, a handler
      result or a configuration entry. Numbers are reals (NaN and -0 are not
      represented); functions never cross the channel. */
  datatype Value =
    | Undefined
    | Null
    | Bool(b: bool)
    | Num(n: real)
    | Str(s: string)
    | Arr(items: seq<Value>)
    | Obj(fields: map<string, Value>)

  /** A value that may be missing (`null` or `undefined` in the source). */
  datatype Option<T> = None | Some(value: T)

  /** How a JavaScript evaluation ended: with a value, or with a TypeError. */
  datatype Completion<T> = Normal(value: T) | Thrown

  /** A notification shown to the user by the host window. */
  datatype Notice = ErrorNotice(text: Value) | InfoNotice(text: Value)

  /** JavaScript's ToBoolean. */
  predicate Truthy(v: Value)
    ensures Truthy(v) ==> !v.Undefined? && !v.Null?
    ensures v.Arr? || v.Obj? ==> Truthy(v)
  {
    match v
    case Undefined => false
    case Null => false
    case Bool(b) => b
    case Num(n) => n != 0.0
    case Str(s) => s != ""
    case Arr(_) => true
    case Obj(_) => true
  }

  /** JavaScript's `typeof` on the values above (`null` is an "object"). */
  function Typeof(v: Value): (t: string)
    ensures t == "object" <==> v.Null? || v.Arr? || v.Obj?
    ensures t == "undefined" <==> v.Undefined?
  {
    match v
    case Undefined => "undefined"
    case Null => "object"
    case Bool(_) => "boolean"
    case Num(_) => "number"
    case Str(_) => "string"
    case Arr(_) => "object"
    case Obj(_) => "object"
  }

  /** The property names the extension reads from handler results. Neither
      is a built-in or inherited member of any value, so reading one is
      reading an own data field. */
  predicate IsPlainFieldName(name: string)
  {
    name == "code" || name == "message"
  }

  /** Property access `v.name` for a plain field name: `null` and
      `undefined` throw, a missing field reads as `undefined`. */
  function GetProperty(v: Value, name: string): (r: Completion<Value>)
    requires IsPlainFieldName(name)
    ensures r.Thrown? <==> v.Null? || v.Undefined?
    ensures r.Normal? && r.value != Undefined ==> v.Obj? && name in v.fields && v.fields[name] == r.value
  {
    match v
    case Undefined => Thrown
    case Null => Thrown
    case Obj(fields) => Normal(if name in fields then fields[name] else Undefined)
    case _ => Normal(Undefined)
  }

  /** The loose comparison `v >= k` against a number literal, for number
      operands; any other operand compares false here. */
  predicate AtLeast(v: Value, k: real)
    ensures AtLeast(v, k) ==> v.Num?
    ensures AtLeast(v, k) && k > 0.0 ==> Truthy(v)
  {
    v.Num? && v.n >= k
  }

  /** The loose comparison `v < k` against a number literal, for number
      operands; any other operand compares false here. */
  predicate Below(v: Value, k: real)
    ensures v.Num? ==> (Below(v, k) <==> !AtLeast(v, k))
    ensures !v.Num? ==> !Below(v, k) && !AtLeast(v, k)
  {
    v.Num? && v.n < k
  }
}
