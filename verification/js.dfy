/**
 * The slice of JavaScript value semantics the routes and pages rely on:
 * the values a parsed JSON request body can hold, truthiness (`!x`, `x && y`,
 * `x ? a : b`), nullishness (`x ?? y`) and reading an absent key as `undefined`.
 */
module Js {

  /** A JavaScript value as found in a parsed JSON body. Numbers are integers
      here; `Obj` stands for every array and object (always truthy). */
  datatype JsValue = Undefined | Null | Bool(b: bool) | Num(n: int) | Str(s: string) | Obj

  /** The properties of a request body; a key that is not present reads as `undefined`. */
  type Body = map<string, JsValue>

  /** ECMAScript ToBoolean. */
  predicate Truthy(v: JsValue)
  {
    match v
    case Undefined => false
    case Null => false
    case Bool(b) => b
    case Num(n) => n != 0
    case Str(s) => s != ""
    case Obj => true
  }

  /** The values for which `v ?? d` yields `d`. */
  predicate Nullish(v: JsValue)
  {
    v.Undefined? || v.Null?
  }

  /** Property access `body.key`. */
  function Field(body: Body, key: string): (v: JsValue)
    ensures key !in body ==> v == Undefined
    ensures key in body ==> v == body[key]
  {
    if key in body then body[key] else Undefined
  }
}
