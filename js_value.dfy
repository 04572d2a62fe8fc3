/** JavaScript values as the front-end services handle them, with the
    coercions the source relies on: truthiness, `typeof`, `String(v)`,
    `Number(v)` and `String.prototype.substring`.

    The conversions the engine performs between numbers and text, and JSON
    parsing and printing, are not written out: they are the fields of a
    `Runtime` record that every model taking them receives as a parameter.
    Infinities are not modelled; `Num` is a finite number. */
module JsValue {
  import opened Text

  datatype Value =
    | Undefined
    | Null
    | Bool(b: bool)
    | Num(n: real)
    | NaN
    | Str(s: string)
    | Arr(elems: seq<Value>)
    | Obj(fields: map<string, Value>)

  /** The engine's conversions: `StringToNumber` (its result is read as
      `NaN` unless it is a `Num`), `Number.prototype.toString`,
      `JSON.stringify` of an object or array, `JSON.parse` (`None` where it
      throws), `parseInt` and `parseFloat`. */
  datatype Runtime = Runtime(
    numberOfString: string -> Value,
    stringOfNumber: real -> string,
    stringify: Value -> string,
    parse: string -> Option<Value>,
    parseInt: string -> Value,
    parseFloat: string -> Value)

  /** `Boolean(v)`. */
  predicate Truthy(v: Value) {
    match v
    case Undefined => false
    case Null => false
    case Bool(b) => b
    case Num(n) => n != 0.0
    case NaN => false
    case Str(s) => s != ""
    case Arr(_) => true
    case Obj(_) => true
  }

  /** `typeof v === 'object'`: null, arrays and plain objects. */
  predicate IsObjectType(v: Value) {
    v.Null? || v.Arr? || v.Obj?
  }

  predicate IsNumberType(v: Value) {
    v.Num? || v.NaN?
  }

  /** `obj[key]` for a property read: the own field of a plain object,
      `undefined` otherwise. */
  function Get(v: Value, key: string): Value {
    if v.Obj? && key in v.fields then v.fields[key] else Undefined
  }

  /** `a || b`. */
  function Or(a: Value, b: Value): (r: Value)
    ensures Truthy(a) ==> r == a
    ensures !Truthy(a) ==> r == b
  {
    if Truthy(a) then a else b
  }

  /** `String(v)`. */
  function ToStr(v: Value, rt: Runtime): string
    decreases v
  {
    match v
    case Undefined => "undefined"
    case Null => "null"
    case Bool(b) => if b then "true" else "false"
    case Num(n) => rt.stringOfNumber(n)
    case NaN => "NaN"
    case Str(s) => s
    case Arr(es) => JoinElements(es, rt)
    case Obj(_) => "[object Object]"
  }

  /** `Array.prototype.join(',')`: `null` and `undefined` elements print as
      nothing. */
  function JoinElements(es: seq<Value>, rt: Runtime): string
    decreases es
  {
    if es == [] then ""
    else
      var first := if es[0].Null? || es[0].Undefined? then "" else ToStr(es[0], rt);
      if |es| == 1 then first else first + "," + JoinElements(es[1..], rt)
  }

  /** `StringToNumber(s)`: a finite number or `NaN`. */
  function NumberOfString(s: string, rt: Runtime): (r: Value)
    ensures r.Num? || r.NaN?
  {
    var r := rt.numberOfString(s);
    if r.Num? then r else NaN
  }

  /** `Number(v)`. A plain object prints as `"[object Object]"`, which is not
      a numeral, so it converts to `NaN`. */
  function ToNumber(v: Value, rt: Runtime): (r: Value)
    ensures r.Num? || r.NaN?
  {
    match v
    case Undefined => NaN
    case Null => Num(0.0)
    case Bool(b) => Num(if b then 1.0 else 0.0)
    case Num(n) => v
    case NaN => NaN
    case Str(s) => NumberOfString(s, rt)
    case Arr(_) => NumberOfString(ToStr(v, rt), rt)
    case Obj(_) => NaN
  }

  /** Truncation toward zero of a finite number. */
  function Trunc(r: real): int {
    if r >= 0.0 then r.Floor else -((-r).Floor)
  }

  /** `ToIntegerOrInfinity(ToNumber(v))` for a finite result: `NaN` gives 0. */
  function ToInteger(v: Value, rt: Runtime): int {
    var n := ToNumber(v, rt);
    if n.Num? then Trunc(n.n) else 0
  }

  /** `s.substring(0, end)`. */
  function Substring0(s: string, end: Value, rt: Runtime): (r: string)
    ensures |r| <= |s| && r == s[..|r|]
    ensures ToNumber(end, rt).NaN? ==> r == ""
  {
    Take(s, ToInteger(end, rt))
  }
}
