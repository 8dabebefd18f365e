/**
 * The value structs of src/js_value.rs and their `JsType` coercions: `as_bool` (ToBoolean) and
 * `as_number` (ToNumber). Each struct becomes one constructor of `JsStruct`; a coercion returns
 * the `JsBool` or `JsNumber` struct, as the Rust trait does.
 */
module JsTypes {
  import opened Wrappers
  import opened F64

  datatype JsStruct =
    | JsBool(val: bool)
    | JsError(message: string)
    | JsNull
    | JsNumber(num: Number)
    | JsObject
    | JsString(text: string)
    | JsSymbol(description: string)
    | JsUndefined

  /**
   * ToBoolean. The result is false exactly for false, null, undefined, either zero, NaN and the
   * empty string; every other value, symbols, objects and errors included, is true.
   */
  function AsBool(v: JsStruct): (r: JsStruct)
    ensures r.JsBool?
    ensures !r.val <==>
      || v == JsBool(false) || v.JsNull? || v.JsUndefined?
      || (v.JsNumber? && (IsZero(v.num) || v.num.NaN?))
      || v == JsString("")
  {
    match v
    case JsBool(_) => v
    case JsError(_) => JsBool(true)
    case JsNull => JsBool(false)
    case JsNumber(n) =>
      if Eq(n, Zero) || Eq(n, NegZero) || n.NaN? then JsBool(false) else JsBool(true)
    case JsObject => JsBool(true)
    case JsString(s) => if |s| == 0 then JsBool(false) else JsBool(true)
    case JsSymbol(_) => JsBool(true)
    case JsUndefined => JsBool(false)
  }

  /**
   * ToNumber. `parse` stands for Rust's `str::parse::<f64>`, which this model does not define:
   * `Some(n)` for a string it accepts, `None` for one it rejects.
   */
  function AsNumber(v: JsStruct, parse: string -> Option<Number>): (r: JsStruct)
    ensures r.JsNumber?
  {
    match v
    case JsBool(b) => if b then JsNumber(One) else JsNumber(Zero)
    case JsError(_) => JsNumber(NaN)
    case JsNull => JsNumber(Zero)
    case JsNumber(_) => v
    case JsObject => JsNumber(NaN)
    case JsString(s) =>
      if |s| == 0 then JsNumber(Zero)
      else (match parse(s)
        case Some(n) => JsNumber(n)
        case None => JsNumber(NaN))
    case JsSymbol(_) => JsNumber(NaN)
    case JsUndefined => JsNumber(NaN)
  }

  /** `JsBool::as_bool` is the identity and `JsBool::as_number` maps true to 1, false to 0. */
  lemma BoolCoercions(b: bool, parse: string -> Option<Number>)
    ensures AsBool(JsBool(b)) == JsBool(b)
    ensures AsNumber(JsBool(b), parse) == JsNumber(if b then One else Zero)
  {
  }

  /** A boolean survives the round trip through a number. */
  lemma BoolNumberRoundTrip(b: bool, parse: string -> Option<Number>)
    ensures AsBool(AsNumber(JsBool(b), parse)) == JsBool(b)
  {
  }

  /** A number is false exactly when it is 0, -0 or NaN. */
  lemma NumberTruthiness(n: Number)
    ensures AsBool(JsNumber(n)) == JsBool(!(n == Zero || n == NegZero || n.NaN?))
  {
  }

  /** A string is false exactly when empty; symbols, objects and errors are always true. */
  lemma PointerLikeTruthiness(s: string)
    ensures AsBool(JsString(s)).val <==> s != ""
    ensures AsBool(JsSymbol(s)).val && AsBool(JsError(s)).val && AsBool(JsObject).val
  {
  }

  /** null and undefined are both false. */
  lemma NullishFalse()
    ensures AsBool(JsNull) == JsBool(false) && AsBool(JsUndefined) == JsBool(false)
  {
  }

  /** `JsNumber::as_number` is the identity. */
  lemma NumberIdentity(n: Number, parse: string -> Option<Number>)
    ensures AsNumber(JsNumber(n), parse) == JsNumber(n)
  {
  }

  /** null is 0; undefined, objects, symbols and errors are NaN. */
  lemma NonNumericKinds(s: string, parse: string -> Option<Number>)
    ensures AsNumber(JsNull, parse) == JsNumber(Zero)
    ensures AsNumber(JsUndefined, parse).num.NaN? && AsNumber(JsObject, parse).num.NaN?
    ensures AsNumber(JsSymbol(s), parse).num.NaN? && AsNumber(JsError(s), parse).num.NaN?
  {
  }

  /** The empty string is 0, a string the parser accepts is its value, any other string NaN. */
  lemma StringToNumber(s: string, parse: string -> Option<Number>)
    ensures s == "" ==> AsNumber(JsString(s), parse) == JsNumber(Zero)
    ensures s != "" && parse(s).Some? ==> AsNumber(JsString(s), parse) == JsNumber(parse(s).value)
    ensures s != "" && parse(s).None? ==> AsNumber(JsString(s), parse) == JsNumber(NaN)
  {
  }
}
