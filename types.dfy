/**
 * The run-time value types the interpreter borrows from its scope/allocation backend: a variable
 * is a binding plus a scalar tag (`JsVar`, `JsType`), and a pointer-tagged variable is paired with a
 * heap payload (`JsPtrEnum`). Only the shape the interpreter's code relies on is modelled.
 */
module Types {
  import opened Wrappers
  import opened F64
  import Ast

  /**
   * The name a variable is stored under. `Anon` is the binding `JsVar::new` gives a fresh value;
   * no lookup by name ever finds it.
   */
  datatype Binding = Named(name: string) | Anon

  /** The kind of payload a pointer-tagged variable refers to (`JsPtrTag`). */
  datatype PtrTag = SymTag | StrTag | ObjTag | FnTag | NativeFnTag | NativeVarTag

  /** The scalar part of a value: booleans, numbers, null and undefined inline, or a pointer. */
  datatype JsType = JsBool(b: bool) | JsUndef | JsNull | JsNum(n: Number) | JsPtr(tag: PtrTag)

  datatype JsVar = JsVar(binding: Binding, t: JsType)

  /** The heap payload of a pointer-tagged variable (`JsPtrEnum`). */
  datatype Payload =
    | JsSym(symText: string)
    | JsStr(text: string)
    | JsObj(obj: ObjStruct)
    | JsFn(func: FnStruct)
    | NativeFn(fnName: string)
    | NativeVar(varName: string)

  /** An object: an optional prototype, a kind name such as "Object" or "array", and its keys. */
  datatype ObjStruct = ObjStruct(proto: Option<Binding>, name: string, dict: map<string, Slot>)

  /** A user function: its optional name, its parameter names and its body. */
  datatype FnStruct = FnStruct(name: Option<string>, params: seq<string>, body: Ast.Stmt)

  /** A variable together with its payload, as the backend stores and loads it. */
  datatype Slot = Slot(v: JsVar, ptr: Option<Payload>)

  /** `JsVar::new(t)`: a value under a fresh anonymous binding. */
  function NewVar(t: JsType): (v: JsVar)
    ensures v.t == t && v.binding.Anon?
  {
    JsVar(Anon, t)
  }

  /** The derived `==` on `JsType`: tag by tag, with Rust's f64 `==` on numbers. */
  predicate TypeEq(a: JsType, b: JsType)
  {
    if a.JsNum? && b.JsNum? then F64.Eq(a.n, b.n) else a == b
  }

  /** The derived `==` on `JsVar`: same binding and equal scalar parts. */
  predicate VarEq(a: JsVar, b: JsVar)
  {
    a.binding == b.binding && TypeEq(a.t, b.t)
  }
}
