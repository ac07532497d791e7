/**
 * JavaScript values, as far as the Edm.String type looks at them.
 *
 * Numbers are exact: a finite value is a real, and the three
 * non-finite IEEE values are their own cases, so the comparisons the
 * type performs (`> 0`, truthiness) need no floating point.
 */
module JsValues {

  /** A JavaScript number. Negative zero is not distinguished from zero:
      none of the operations modelled here can tell them apart. */
  datatype Number = Finite(value: real) | NaN | PosInfinity | NegInfinity

  /** A JavaScript value. `Obj` stands for every object (plain objects,
      arrays, functions); its map holds the properties a read would find,
      own or inherited, and `conversion` tells how converting it to a
      primitive (through `Symbol.toPrimitive`, `valueOf` and `toString`)
      ends. */
  datatype JsValue =
    | Undefined
    | Null
    | Bool(b: bool)
    | Num(num: Number)
    | Str(s: string)
    | BigInt(i: int)
    | Sym(description: string)
    | Obj(props: map<string, JsValue>, conversion: Conversion)

  /** How converting an object to a primitive ends: with a primitive; with
      a TypeError raised by the engine, because no conversion method yields
      a primitive (as for `Object.create(null)`, or when `valueOf` and
      `toString` both return objects); or with the value a user-defined
      conversion method throws, which then propagates unchanged. */
  datatype Conversion = Converts | EngineTypeError | Throws(thrown: JsValue)

  /** The abstract operation ToBoolean: what `if (v)` decides. */
  predicate Truthy(v: JsValue)
  {
    match v
    case Undefined => false
    case Null => false
    case Bool(b) => b
    case Num(n) => !(n.NaN? || n == Finite(0.0))
    case Str(s) => s != ""
    case BigInt(i) => i != 0
    case Sym(_) => true
    case Obj(_, _) => true
  }

  /** String concatenation `"..." + v` throws: a Symbol cannot be
      converted to a string, nor can an object whose conversion to a
      primitive does not end with one. Every other value converts. */
  predicate ConcatThrows(v: JsValue)
  {
    v.Sym? || (v.Obj? && !v.conversion.Converts?)
  }

  /** `typeof v === "number"` followed by `v > 0`. A NaN compares false. */
  predicate IsPositiveNumber(v: JsValue)
  {
    v.Num? && (v.num.PosInfinity? || (v.num.Finite? && v.num.value > 0.0))
  }

  /** The property read `v[key]` on a value that is neither `undefined`
      nor `null`. Primitive wrappers carry no properties named like the
      ones read here, so only objects yield something other than
      `undefined`; a missing property reads as `undefined`. */
  function Get(v: JsValue, key: string): JsValue
  {
    if v.Obj? && key in v.props then v.props[key] else Undefined
  }
}
