/** The JavaScript values that travel in the JSON bodies of this application, with the
    JavaScript rules the code relies on: truthiness, conversion to text inside a template
    literal, and reading a property that may be absent. */
module JsValues {
  import opened Decimal

  /** A JSON-decoded value. `Undefined` stands for a property that is absent. Numbers are
      integral in this model. */
  datatype JsValue = Undefined | Null | Bool(b: bool) | Num(n: int) | Str(s: string)

  /** The falsy values of JavaScript that can occur here. */
  const FalsyValues: set<JsValue> := {Undefined, Null, Bool(false), Num(0), Str("")}

  /** JavaScript truthiness: every value outside `FalsyValues` is truthy. */
  predicate Truthy(v: JsValue)
    ensures Truthy(v) <==> v !in FalsyValues
  {
    match v
    case Undefined => false
    case Null => false
    case Bool(b) => b
    case Num(n) => n != 0
    case Str(s) => s != ""
  }

  /** `String(v)`, which is what `${v}` in a template literal produces. */
  function ToJsString(v: JsValue): (r: string)
    ensures r == "" <==> v == Str("")
    ensures v.Str? ==> r == v.s
    ensures v.Num? ==> r == IntToDecimal(v.n)
  {
    match v
    case Undefined => "undefined"
    case Null => "null"
    case Bool(b) => if b then "true" else "false"
    case Num(n) => IntToDecimal(n)
    case Str(s) => s
  }

  /** A JSON object as a property map. */
  type JsObject = map<string, JsValue>

  /** `o[key]`: an absent property reads as `undefined`. */
  function Prop(o: JsObject, key: string): (v: JsValue)
    ensures key !in o ==> v == Undefined
    ensures key in o ==> v == o[key]
  {
    if key in o then o[key] else Undefined
  }

}
