/**
 * Coercions of backend variables, as src/coerce/mod.rs defines `as_bool` for `JsVar`, plus the
 * numeric coercion the evaluator imports beside it and the coercions of heap payloads.
 *
 * The numeric coercion of a variable and the payload coercions live in a revision of the backend
 * that is not part of this model; here they follow the per-kind rules of src/js_value.rs, and a
 * pointer-tagged variable seen without its payload is NaN.
 */
module Coerce {
  import opened Wrappers
  import opened F64
  import opened Types
  import JsTypes

  /** `JsVar::as_bool`: a match on the scalar tag; every pointer is true whatever it points to. */
  function AsBool(v: JsVar): bool
  {
    match v.t
    case JsBool(b) => b
    case JsUndef => false
    case JsNull => false
    case JsNum(n) => if Eq(n, Zero) || Eq(n, NegZero) || n.NaN? then false else true
    case JsPtr(_) => true
  }

  /** `JsVar::as_number` on the scalar part. */
  function AsNumber(v: JsVar): Number
  {
    match v.t
    case JsBool(b) => if b then One else Zero
    case JsUndef => NaN
    case JsNull => Zero
    case JsNum(n) => n
    case JsPtr(_) => NaN
  }

  /** The js_value.rs struct a scalar tag corresponds to; a bare pointer counts as an object. */
  function ScalarStruct(t: JsType): JsTypes.JsStruct
  {
    match t
    case JsBool(b) => JsTypes.JsBool(b)
    case JsUndef => JsTypes.JsUndefined
    case JsNull => JsTypes.JsNull
    case JsNum(n) => JsTypes.JsNumber(n)
    case JsPtr(_) => JsTypes.JsObject
  }

  /** The js_value.rs struct a payload corresponds to; functions and natives are objects. */
  function PayloadStruct(p: Payload): JsTypes.JsStruct
  {
    match p
    case JsSym(s) => JsTypes.JsSymbol(s)
    case JsStr(s) => JsTypes.JsString(s)
    case JsObj(_) => JsTypes.JsObject
    case JsFn(_) => JsTypes.JsObject
    case NativeFn(_) => JsTypes.JsObject
    case NativeVar(_) => JsTypes.JsObject
  }

  /** The boolean coercion of a payload. */
  function PtrAsBool(p: Payload): bool
  {
    JsTypes.AsBool(PayloadStruct(p)).val
  }

  /** The numeric coercion of a payload; `parse` is Rust's `str::parse::<f64>`. */
  function PtrAsNumber(p: Payload, parse: string -> Option<Number>): Number
  {
    JsTypes.AsNumber(PayloadStruct(p), parse).num
  }

  /** `JsBool(b)` coerces to b; `JsUndef` and `JsNull` coerce to false. */
  lemma ScalarTruthiness(b: bool, binding: Binding)
    ensures AsBool(JsVar(binding, JsBool(b))) == b
    ensures !AsBool(JsVar(binding, JsUndef)) && !AsBool(JsVar(binding, JsNull))
  {
  }

  /** `JsNum(n)` coerces to false exactly when n is 0, -0 or NaN. */
  lemma NumberTruthiness(n: Number, binding: Binding)
    ensures !AsBool(JsVar(binding, JsNum(n))) <==> n == Zero || n == NegZero || n.NaN?
  {
  }

  /**
   * Every pointer-tagged variable is true, whatever its payload: even one whose payload is the
   * empty string, which js_value.rs would call false.
   */
  lemma PointerAlwaysTrue(tag: PtrTag, binding: Binding)
    ensures AsBool(JsVar(binding, JsPtr(tag)))
    ensures !PtrAsBool(JsStr(""))
  {
  }

  /**
   * On scalar tags, this module's coercions agree with those of js_value.rs, for both booleans and
   * numbers; for pointers the boolean rule deliberately differs.
   */
  lemma {:induction false} AgreesWithJsValue(v: JsVar, parse: string -> Option<Number>)
    ensures !v.t.JsPtr? ==> AsBool(v) == JsTypes.AsBool(ScalarStruct(v.t)).val
    ensures AsNumber(v) == JsTypes.AsNumber(ScalarStruct(v.t), parse).num
  {
    match v.t
    case JsNum(n) => JsTypes.NumberTruthiness(n);
    case _ =>
  }
}
