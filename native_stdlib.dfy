/**
 * `isNaN` of src/native/stdlib.rs: it repeats the argument dispatch of `Number` in
 * src/native/types.rs and answers whether the number it reaches is NaN.
 */
module NativeStdlib {
  import opened Wrappers
  import opened F64
  import opened Types
  import Coerce
  import JsErrors
  import NativeTypes

  /** `is_nan`: its own copy of `number`'s dispatch, then the NaN test. */
  function IsNaN(host: NativeTypes.Host, args: seq<NativeTypes.Arg>): (r: Result<NativeTypes.Arg, JsErrors.JsError>)
    ensures r.Ok? ==> r.value.v.t.JsBool? && r.value.ptr.None?
    ensures args == [] ==> r == Ok(Slot(NewVar(JsBool(false)), None))
  {
    var n: Result<Number, JsErrors.JsError> :=
      if args == [] then Ok(Zero)
      else if NativeTypes.IsArray(args[0]) then
        match NativeTypes.ArrayToStringHelper(host, args[0].v, args[0].ptr.value.obj)
        case Err(e) => Err(e)
        case Ok(s) => Ok(Coerce.PtrAsNumber(JsStr(s), host.parse))
      else if args[0].ptr.Some? then Ok(Coerce.PtrAsNumber(args[0].ptr.value, host.parse))
      else Ok(Coerce.AsNumber(args[0].v));
    match n
    case Err(e) => Err(e)
    case Ok(f) => Ok(Slot(NewVar(JsBool(f.NaN?)), None))
  }

  /** `isNaN(args)` is exactly "`Number(args)` is NaN", errors included. */
  lemma IsNaNIsNumberIsNaN(host: NativeTypes.Host, args: seq<NativeTypes.Arg>)
    ensures NativeTypes.Number(host, args).Err? <==> IsNaN(host, args).Err?
    ensures NativeTypes.Number(host, args).Err? ==> IsNaN(host, args).error == NativeTypes.Number(host, args).error
    ensures NativeTypes.Number(host, args).Ok? ==>
      IsNaN(host, args).value.v.t.b == NativeTypes.Number(host, args).value.v.t.n.NaN?
  {
  }
}
