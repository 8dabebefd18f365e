/**
 * The built-in conversion functions of src/native/types.rs (`Object`, `Boolean`, `Number`,
 * `String`). Each receives its arguments as (variable, optional payload) pairs, looks only at
 * the first, and answers a pair of the same shape.
 *
 * The backend's string and number conversions and the array printer are not part of this model;
 * they are the fields of a `Host`.
 */
module NativeTypes {
  import opened Wrappers
  import opened F64
  import opened Types
  import Coerce
  import JsTypes
  import JsErrors

  /** A value passed to or returned from a native function: a variable and its optional payload. */
  type Arg = Slot

  /**
   * The backend operations the built-ins call: `parse` is `str::parse::<f64>`, `typeText` and
   * `payloadText` are `as_string` on a scalar and on a payload, and `arrayToString` is the array
   * printer `array_to_string` called with an array as `this` and no arguments.
   */
  datatype Host = Host(
    parse: string -> Option<Number>,
    typeText: JsType -> string,
    payloadText: Payload -> string,
    arrayToString: (JsVar, ObjStruct) -> Result<Arg, JsErrors.JsError>)

  /** An argument whose payload is an object with a prototype and the kind name "array". */
  predicate IsArray(a: Arg)
  {
    a.ptr.Some? && a.ptr.value.JsObj? && a.ptr.value.obj.proto.Some? && a.ptr.value.obj.name == "array"
  }

  /** The empty object a bare `Object()` allocates. */
  const EmptyObject: ObjStruct := ObjStruct(None, "Object", map[])

  /** `object`: the first argument unchanged, or a fresh empty object of kind "Object". */
  function Object(args: seq<Arg>): (r: Result<Arg, JsErrors.JsError>)
    ensures r.Ok?
    ensures args != [] ==> r.value == args[0]
    ensures args == [] ==> r.value == Slot(NewVar(JsPtr(ObjTag)), Some(JsObj(EmptyObject)))
  {
    if args == [] then Ok(Slot(NewVar(JsPtr(ObjTag)), Some(JsObj(EmptyObject))))
    else Ok(args[0])
  }

  /** `boolean`: the payload's coercion when there is one, else the variable's; false with no argument. */
  function Boolean(args: seq<Arg>): (r: Result<Arg, JsErrors.JsError>)
    ensures r.Ok? && r.value.v.t.JsBool? && r.value.ptr.None?
    ensures args == [] ==> !r.value.v.t.b
    ensures args != [] && args[0].ptr.Some? ==> r.value.v.t.b == Coerce.PtrAsBool(args[0].ptr.value)
    ensures args != [] && args[0].ptr.None? ==> r.value.v.t.b == Coerce.AsBool(args[0].v)
  {
    var b :=
      if args == [] then false
      else if args[0].ptr.Some? then Coerce.PtrAsBool(args[0].ptr.value)
      else Coerce.AsBool(args[0].v);
    Ok(Slot(NewVar(JsBool(b)), None))
  }

  /** `array_to_string_helper`: the printer's payload text when it answers one, else its scalar's. */
  function ArrayToStringHelper(host: Host, v: JsVar, obj: ObjStruct): (r: Result<string, JsErrors.JsError>)
    ensures host.arrayToString(v, obj).Err? ==> r == Err(host.arrayToString(v, obj).error)
    ensures host.arrayToString(v, obj).Ok? ==>
      var out := host.arrayToString(v, obj).value;
      r == Ok(if out.ptr.Some? then host.payloadText(out.ptr.value) else host.typeText(out.v.t))
  {
    match host.arrayToString(v, obj)
    case Err(e) => Err(e)
    case Ok(out) => Ok(if out.ptr.Some? then host.payloadText(out.ptr.value) else host.typeText(out.v.t))
  }

  /** `number`: an array through its text, else the payload's coercion, else the variable's; 0 with no argument. */
  function Number(host: Host, args: seq<Arg>): (r: Result<Arg, JsErrors.JsError>)
    ensures r.Ok? ==> r.value.v.t.JsNum? && r.value.ptr.None?
    ensures r.Err? ==> args != [] && IsArray(args[0])
    ensures args == [] ==> r == Ok(Slot(NewVar(JsNum(Zero)), None))
    ensures args != [] && !IsArray(args[0]) && args[0].ptr.Some? ==>
      r == Ok(Slot(NewVar(JsNum(Coerce.PtrAsNumber(args[0].ptr.value, host.parse))), None))
    ensures args != [] && !IsArray(args[0]) && args[0].ptr.None? ==>
      r == Ok(Slot(NewVar(JsNum(Coerce.AsNumber(args[0].v))), None))
    ensures args != [] && IsArray(args[0]) ==>
      (r.Ok? <==> ArrayToStringHelper(host, args[0].v, args[0].ptr.value.obj).Ok?)
  {
    var n: Result<Number, JsErrors.JsError> :=
      if args == [] then Ok(Zero)
      else if IsArray(args[0]) then
        match ArrayToStringHelper(host, args[0].v, args[0].ptr.value.obj)
        case Err(e) => Err(e)
        case Ok(s) => Ok(Coerce.PtrAsNumber(JsStr(s), host.parse))
      else if args[0].ptr.Some? then Ok(Coerce.PtrAsNumber(args[0].ptr.value, host.parse))
      else Ok(Coerce.AsNumber(args[0].v));
    match n
    case Err(e) => Err(e)
    case Ok(f) => Ok(Slot(NewVar(JsNum(f)), None))
  }

  /** `string`: the same dispatch for text; always a string-tagged pointer with a string payload. */
  function String(host: Host, args: seq<Arg>): (r: Result<Arg, JsErrors.JsError>)
    ensures r.Ok? ==> r.value.v.t == JsPtr(StrTag) && r.value.ptr.Some? && r.value.ptr.value.JsStr?
    ensures r.Err? ==> args != [] && IsArray(args[0])
    ensures args == [] ==> r == Ok(Slot(NewVar(JsPtr(StrTag)), Some(JsStr(""))))
  {
    var s: Result<string, JsErrors.JsError> :=
      if args == [] then Ok("")
      else if IsArray(args[0]) then ArrayToStringHelper(host, args[0].v, args[0].ptr.value.obj)
      else if args[0].ptr.Some? then Ok(host.payloadText(args[0].ptr.value))
      else Ok(host.typeText(args[0].v.t));
    match s
    case Err(e) => Err(e)
    case Ok(text) => Ok(Slot(NewVar(JsPtr(StrTag)), Some(JsStr(text))))
  }

  /** An array argument is converted through the number its text parses to. */
  lemma ArraysConvertThroughText(host: Host, a: Arg, rest: seq<Arg>)
    requires IsArray(a)
    requires ArrayToStringHelper(host, a.v, a.ptr.value.obj).Ok?
    ensures var text := ArrayToStringHelper(host, a.v, a.ptr.value.obj).value;
      && Number(host, [a] + rest).Ok?
      && (text == "" ==> Number(host, [a] + rest).value.v.t.n == Zero)
      && (text != "" && host.parse(text).None? ==> Number(host, [a] + rest).value.v.t.n.NaN?)
      && (text != "" && host.parse(text).Some? ==> Number(host, [a] + rest).value.v.t.n == host.parse(text).value)
  {
    var text := ArrayToStringHelper(host, a.v, a.ptr.value.obj).value;
    JsTypes.StringToNumber(text, host.parse);
  }

  /**
   * Without payloads, `Boolean` and `Number` agree on every non-pointer argument: the boolean is
   * false exactly when the number is a zero or NaN.
   */
  lemma BooleanMatchesNumber(host: Host, v: JsVar, rest: seq<Arg>)
    requires !v.t.JsPtr?
    ensures var n := Number(host, [Slot(v, None)] + rest).value.v.t.n;
      !Boolean([Slot(v, None)] + rest).value.v.t.b <==> n == Zero || n == NegZero || n.NaN?
  {
    var args := [Slot(v, None)] + rest;
    assert args[0] == Slot(v, None);
  }

  /** A pointer-tagged argument without a payload is true but not a number, so the agreement stops there. */
  lemma BarePointerDisagrees(host: Host, tag: PtrTag)
    ensures Boolean([Slot(NewVar(JsPtr(tag)), None)]).value.v.t.b
    ensures Number(host, [Slot(NewVar(JsPtr(tag)), None)]).value.v.t.n.NaN?
  {
  }

  /** A string payload is false exactly when empty, whatever the variable's tag says. */
  lemma BooleanOfStringPayload(v: JsVar, s: string)
    ensures Boolean([Slot(v, Some(JsStr(s)))]).value.v.t.b <==> s != ""
  {
    JsTypes.PointerLikeTruthiness(s);
  }

  /**
   * `String` of a string payload is the host's text for that payload (the text itself whenever the
   * host prints a string as itself), and `Object` hands its argument back.
   */
  lemma StringAndObjectPassThrough(host: Host, v: JsVar, s: string)
    ensures String(host, [Slot(v, Some(JsStr(s)))]) == Ok(Slot(NewVar(JsPtr(StrTag)), Some(JsStr(host.payloadText(JsStr(s))))))
    ensures host.payloadText(JsStr(s)) == s ==>
      String(host, [Slot(v, Some(JsStr(s)))]) == Ok(Slot(NewVar(JsPtr(StrTag)), Some(JsStr(s))))
    ensures Object([Slot(v, Some(JsStr(s)))]) == Ok(Slot(v, Some(JsStr(s))))
  {
  }
}
