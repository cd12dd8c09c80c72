/** JavaScript values as they occur in the parsed JSON of the places API and
    in the records the server sends back: enough of the language's value
    model to state lookups, optional chaining and truthiness exactly. */
module JsValue {

  datatype Option<T> = None | Some(value: T)

  datatype Value =
    | Undefined
    | Null
    | Bool(b: bool)
    | Num(n: real)
    | Str(s: string)
    | Arr(items: seq<Value>)
    | Obj(fields: map<string, Value>)

  /** A plain object: property name to value. A property that is absent reads as `undefined`. */
  type Object = map<string, Value>

  /** JavaScript truthiness (`NaN` is not representable here). */
  predicate Truthy(v: Value) {
    match v
    case Undefined => false
    case Null => false
    case Bool(b) => b
    case Num(n) => n != 0.0
    case Str(s) => s != ""
    case _ => true
  }

  /** `a || b`: the left operand when it is truthy, else the right one. */
  function Or(a: Value, b: Value): Value {
    if Truthy(a) then a else b
  }

  /** `o.k` on a plain object. */
  function Get(o: Object, k: string): Value {
    if k in o then o[k] else Undefined
  }

  /** `v?.k`: a property of an object; `undefined` for anything else. */
  function Member(v: Value, k: string): Value {
    match v
    case Obj(f) => Get(f, k)
    case _ => Undefined
  }

  /** The property name an index becomes: its decimal digits. */
  function IndexKey(i: nat): (r: string)
    ensures r != [] && forall c :: c in r ==> '0' <= c <= '9'
    ensures i < 10 ==> r == [(48 + i) as char]
    decreases i
  {
    if i < 10 then [(48 + i) as char] else IndexKey(i / 10) + [(48 + i % 10) as char]
  }

  /** `v?.[i]`: an element of an array, a one-character string, or the
      object's property named by the index; `undefined` for anything else. */
  function At(v: Value, i: nat): Value {
    match v
    case Arr(items) => if i < |items| then items[i] else Undefined
    case Str(s) => if i < |s| then Str([s[i]]) else Undefined
    case Obj(f) => Get(f, IndexKey(i))
    case _ => Undefined
  }
}
