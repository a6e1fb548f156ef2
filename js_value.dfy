/**
 * The JavaScript values an assertion function is called with, and the
 * language operations the assertion applies to them: truthiness, logical
 * negation, nullish coalescing and object spread.
 */
module JsValue {

  /** Numbers are restricted to integers: NaN and -0 are not modelled. */
  datatype Value =
    | Undefined
    | Null
    | Bool(b: bool)
    | Int(i: int)
    | Str(s: string)
    | Obj(fields: map<string, Value>)
    | Arr(elems: seq<Value>)

  /** ToBoolean (ECMA-262 section 7.1.2): every object and array is truthy, even an empty one. */
  predicate Truthy(v: Value) {
    match v
    case Undefined => false
    case Null => false
    case Bool(b) => b
    case Int(i) => i != 0
    case Str(s) => s != ""
    case Obj(_) => true
    case Arr(_) => true
  }

  /** The members of the `Falsy` type declared next to the assertion type: false, 0, "", null and undefined. */
  predicate InFalsyType(v: Value) {
    v == Bool(false) || v == Int(0) || v == Str("") || v == Null || v == Undefined
  }

  /** The `Falsy` type lists exactly the values that do not trigger an assertion. */
  lemma FalsyTypeIsExact(v: Value)
    ensures !Truthy(v) <==> InFalsyType(v)
  {
  }

  /** `null` and `undefined`, the values `??` replaces. */
  predicate Nullish(v: Value) {
    v.Undefined? || v.Null?
  }

  /** `!v`: always a boolean, of the opposite truthiness. */
  function Not(v: Value): (r: Value)
    ensures r.Bool? && (Truthy(r) <==> !Truthy(v))
  {
    Bool(!Truthy(v))
  }

  /** `a ?? b`. */
  function Coalesce(a: Value, b: Value): Value {
    if Nullish(a) then b else a
  }

  /** The own properties `{...v}` copies: the fields of an object, none for null, undefined, booleans and numbers. */
  function Spread(v: Value): map<string, Value> {
    if v.Obj? then v.fields else map[]
  }
}
