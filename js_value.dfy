/**
 * The JavaScript values that `JSON.parse` produces, with the operations the
 * product handlers apply to them: truthiness, `||`, strict comparison with a
 * string, `Array.isArray`, property reads (plain ones, which throw on `null`
 * and `undefined`, and optional-chaining ones, which do not) and `parseFloat`
 * of an arbitrary value.
 */
module JsValue {
  import opened JsString
  import opened JsNumber

  /** A parsed JSON value, plus `undefined`, the result of reading a missing
      property. Object members are keyed by name; when a JSON text repeats a
      name, `JSON.parse` keeps the last one, which is the entry stored here. */
  datatype Value =
    | Undefined
    | Null
    | Bool(b: bool)
    | Num(x: real)
    | Str(s: string)
    | Arr(items: seq<Value>)
    | Obj(props: map<string, Value>)

  /** The outcome of JavaScript code that may throw a TypeError. */
  datatype Completion<+T> = Normal(value: T) | Threw

  /** JavaScript truthiness: `undefined`, `null`, `false`, `0` and `""` are
      falsy; every array and object, even an empty one, is truthy. */
  predicate Truthy(v: Value) {
    match v
    case Undefined => false
    case Null => false
    case Bool(b) => b
    case Num(x) => x != 0.0
    case Str(s) => s != ""
    case Arr(_) => true
    case Obj(_) => true
  }

  predicate Nullish(v: Value) {
    v.Undefined? || v.Null?
  }

  /** `a || b`: the first operand if it is truthy, else the second. */
  function Or(a: Value, b: Value): (r: Value)
    ensures r == a || r == b
    ensures Truthy(a) ==> r == a
    ensures !Truthy(a) ==> r == b
  {
    if Truthy(a) then a else b
  }

  /** Reading property `key` of a non-nullish value. Only objects carry the
      properties the scraper reads (`@type`, `sku`, `offers`, `image`, ...);
      strings, numbers, booleans and arrays have none of these names, so the
      read gives `undefined`. */
  function Member(v: Value, key: string): (r: Value)
    ensures !v.Obj? ==> r == Undefined
    ensures v.Obj? && key !in v.props ==> r == Undefined
    ensures v.Obj? && key in v.props ==> r == v.props[key]
  {
    if v.Obj? && key in v.props then v.props[key] else Undefined
  }

  /** A plain read `v[key]`: throws a TypeError on `null` and `undefined`. */
  function Get(v: Value, key: string): (r: Completion<Value>)
    ensures r.Threw? <==> Nullish(v)
    ensures r.Normal? ==> r.value == Member(v, key)
  {
    if Nullish(v) then Threw else Normal(Member(v, key))
  }

  /** An optional-chaining read `v?.[key]`: `undefined` on a nullish value. */
  function OptGet(v: Value, key: string): (r: Value)
    ensures Nullish(v) ==> r == Undefined
    ensures !Nullish(v) ==> r == Member(v, key)
  {
    if Nullish(v) then Undefined else Member(v, key)
  }

  /** `v === s` for a string literal `s`. */
  predicate StrictEqStr(v: Value, s: string) {
    v == Str(s)
  }

  /** A value whose `@type` property is the string `Product`. */
  predicate HasProductType(v: Value) {
    StrictEqStr(Member(v, "@type"), "Product")
  }

  /** Only an object can be typed `Product`, so such a value is truthy and
      reading its properties never throws. */
  lemma ProductTypedIsObject(v: Value)
    requires HasProductType(v)
    ensures v.Obj? && Truthy(v) && !Nullish(v)
  {
  }

  /** `parseFloat(v)` for any value: `parseFloat` first converts its argument
      to a string. A number converts to text that reads back as the same
      number; `true`, `false`, `null`, `undefined` and `[object Object]` read
      as NaN; an array converts to its elements joined by `,`, where `null`
      and `undefined` elements become empty text, and since `,` ends every
      numeric literal only the first element's text is read. */
  function ParseFloatValue(v: Value): Number {
    match v
    case Num(x) => Finite(x)
    case Str(s) => ParseFloat(s)
    case Arr(items) =>
      if |items| == 0 || Nullish(items[0]) then NaN else ParseFloatValue(items[0])
    case _ => NaN
  }
}
