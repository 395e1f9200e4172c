/** The part of JavaScript's value semantics that the dish controller relies on:
    truthiness, `Number.isInteger`, strict equality with a string, and property
    lookup on a plain object parsed from a JSON request body. */
module JsValues {

  /** A value that can appear as a property of a request body. `Obj` stands for
      any object or array (always truthy, never strictly equal to a string).
      NaN and the two infinities are not represented. */
  datatype Value = Undefined | Null | Bool(b: bool) | Num(x: real) | Str(s: string) | Obj

  /** A plain object: property names to values. */
  type Object = map<string, Value>

  /** JavaScript truthiness of a value. */
  predicate Truthy(v: Value) {
    match v
    case Undefined => false
    case Null => false
    case Bool(b) => b
    case Num(x) => x != 0.0
    case Str(s) => s != ""
    case Obj => true
  }

  /** `Number.isInteger(v)`: true only of a number with no fractional part. */
  predicate IsInteger(v: Value) {
    v.Num? && v.x.Floor as real == v.x
  }

  /** The JavaScript number that denotes the mathematical integer `n`. */
  function IntValue(n: int): Value {
    Num(n as real)
  }

  /** Property access `o[key]`: `undefined` when the property is absent. */
  function Get(o: Object, key: string): Value {
    if key in o then o[key] else Undefined
  }

  /** The falsy values are exactly `undefined`, `null`, `false`, `0` and `""`. */
  lemma FalsyValues(v: Value)
    ensures !Truthy(v) <==> v in {Undefined, Null, Bool(false), Num(0.0), Str("")}
  {
  }

  /** `Number.isInteger` holds exactly of the numbers that denote an integer. */
  lemma IsIntegerIffIntValue(v: Value)
    ensures IsInteger(v) <==> exists n :: v == IntValue(n)
  {
    if IsInteger(v) {
      assert v == IntValue(v.x.Floor);
    }
  }
}
