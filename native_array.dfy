/**
 * The `length` setter of arrays (src/native/array.rs): it validates the new length, then adds
 * the index keys between the old and the new length, bound to undefined, or removes them.
 *
 * Index keys are the decimal text of the index. The object is received by value, so the model
 * hands the updated object back beside the setter's result.
 */
module NativeArray {
  import opened Wrappers
  import opened F64
  import opened Types
  import Coerce

  const InvalidLength: string := "Invalid array length"
  const NotAnObject: string := "Trying to set array length, but `this` is not an object"
  const ThisIsNone: string := "Trying to set array length, but `this` is None"

  /** The numeric value of a (variable, payload) pair: the payload's when there is one. */
  function ValueAsNumber(a: Slot, parse: string -> Option<Number>): Number
  {
    if a.ptr.Some? then Coerce.PtrAsNumber(a.ptr.value, parse) else Coerce.AsNumber(a.v)
  }

  /** `n != n.trunc()`: true of NaN and of finite numbers with a fractional part. */
  predicate TruncDiffers(n: Number)
  {
    n.NaN? || (n.Finite? && n.value != n.value.Floor as real)
  }

  /** The setter's guard: not normal and not zero, or sign bit set, or not integral. */
  predicate RejectedLength(n: Number)
  {
    !(IsNormal(n) || Eq(n, Zero)) || SignNegative(n) || TruncDiffers(n)
  }

  /** The guard rejects exactly NaN, the infinities, -0, negatives and fractions. */
  lemma RejectedLengthMeans(n: Number)
    ensures !RejectedLength(n) <==> n == Zero || (n.Finite? && n.value > 0.0 && n.value == n.value.Floor as real)
    ensures RejectedLength(NaN) && RejectedLength(PosInf) && RejectedLength(NegInf) && RejectedLength(NegZero)
  {
  }

  /** The key of index i: the text of `i as f64`, its decimal digits. */
  function IndexKey(i: int): string
  {
    IntToString(i)
  }

  /** An index key is how an integral number prints. */
  lemma IndexKeyIsNumberText(i: int, fracText: real -> string)
    ensures IndexKey(i) == ToText(FromInt(i), fracText)
  {
    assert (i as real).Floor == i;
  }

  /** The keys of the indices lo..hi-1. */
  function IndexKeys(lo: int, hi: int): set<string>
  {
    set i | lo <= i < hi :: IndexKey(i)
  }

  /** A key names an index of lo..hi-1 exactly when it is that index's canonical text. */
  lemma IndexKeysMembership(k: string, lo: int, hi: int)
    ensures k in IndexKeys(lo, hi) <==>
      ParseInt(k).Some? && lo <= ParseInt(k).value < hi && IndexKey(ParseInt(k).value) == k
  {
    if k in IndexKeys(lo, hi) {
      var i :| lo <= i < hi && IndexKey(i) == k;
      IntRoundTrip(i);
    }
  }

  lemma IndexKeysStep(lo: int, hi: int)
    requires lo <= hi
    ensures IndexKeys(lo, hi + 1) == IndexKeys(lo, hi) + {IndexKey(hi)}
  {
  }

  lemma IndexKeysEmpty(lo: int, hi: int)
    requires hi <= lo
    ensures IndexKeys(lo, hi) == {}
  {
  }

  /** The value `add_key` stores under a new index: undefined, no payload. */
  const Undef: Slot := Slot(NewVar(JsUndef), None)

  /** The dictionary after adding the keys of lo..hi-1. */
  function Grown(d: map<string, Slot>, lo: int, hi: int): map<string, Slot>
  {
    d + map k | k in IndexKeys(lo, hi) :: Undef
  }

  /** The dictionary after removing the keys of lo..hi-1. */
  function Shrunk(d: map<string, Slot>, lo: int, hi: int): map<string, Slot>
  {
    d - IndexKeys(lo, hi)
  }

  lemma GrownStep(d: map<string, Slot>, lo: int, hi: int)
    requires lo <= hi
    ensures Grown(d, lo, hi + 1) == Grown(d, lo, hi)[IndexKey(hi) := Undef]
  {
    IndexKeysStep(lo, hi);
  }

  lemma ShrunkStep(d: map<string, Slot>, lo: int, hi: int)
    requires lo <= hi
    ensures Shrunk(d, lo, hi + 1) == Shrunk(d, lo, hi) - {IndexKey(hi)}
  {
    IndexKeysStep(lo, hi);
  }

  /**
   * `array_length_setter`: the new length must pass the guard and `this` must be an object; the
   * dictionary grows from the old length to the new one or shrinks from the old down to the new,
   * both taken `as i32`, and the result is the new length with no payload.
   */
  function SetLength(parse: string -> Option<Number>, oldLen: Slot, target: Option<Payload>, newLen: Slot): (r: Result<(Slot, ObjStruct), string>)
    ensures RejectedLength(ValueAsNumber(newLen, parse)) ==> r == Err(InvalidLength)
    ensures !RejectedLength(ValueAsNumber(newLen, parse)) ==>
      && (target.None? ==> r == Err(ThisIsNone))
      && (target.Some? && !target.value.JsObj? ==> r == Err(NotAnObject))
      && (target.Some? && target.value.JsObj? ==> r.Ok?)
    ensures r.Ok? ==>
      && r.value.0 == Slot(NewVar(JsNum(ValueAsNumber(newLen, parse))), None)
      && r.value.1.proto == target.value.obj.proto && r.value.1.name == target.value.obj.name
  {
    var n := ValueAsNumber(newLen, parse);
    if RejectedLength(n) then Err(InvalidLength)
    else
      var o := ValueAsNumber(oldLen, parse);
      match target
      case None => Err(ThisIsNone)
      case Some(JsObj(obj)) =>
        var ni, oi := AsI32(n), AsI32(o);
        var d1 := if Lt(o, n) then Grown(obj.dict, oi, ni) else obj.dict;
        var d2 := if Lt(n, o) then Shrunk(d1, ni, oi) else d1;
        Ok((Slot(NewVar(JsNum(n)), None), obj.(dict := d2)))
      case Some(_) => Err(NotAnObject)
  }

  /** The setter itself: the two `for` loops add and remove one key at a time. */
  method ArrayLengthSetter(parse: string -> Option<Number>, oldLen: Slot, target: Option<Payload>, newLen: Slot)
    returns (r: Result<(Slot, ObjStruct), string>)
    ensures r == SetLength(parse, oldLen, target, newLen)
  {
    var n := ValueAsNumber(newLen, parse);
    if RejectedLength(n) {
      return Err(InvalidLength);
    }
    var o := ValueAsNumber(oldLen, parse);
    if target.None? {
      return Err(ThisIsNone);
    }
    if !target.value.JsObj? {
      return Err(NotAnObject);
    }
    var obj := target.value.obj;
    var ni, oi := AsI32(n), AsI32(o);
    var d := obj.dict;
    if Lt(o, n) {
      d := AddIndexKeys(d, oi, ni);
    }
    if Lt(n, o) {
      d := RemoveIndexKeys(d, ni, oi);
    }
    r := Ok((Slot(NewVar(JsNum(n)), None), obj.(dict := d)));
  }

  /** The growing loop: `add_key` of each index of lo..hi-1, bound to undefined. */
  method AddIndexKeys(d0: map<string, Slot>, lo: int, hi: int) returns (d: map<string, Slot>)
    ensures d == Grown(d0, lo, hi)
  {
    if hi <= lo {
      IndexKeysEmpty(lo, hi);
      return d0;
    }
    IndexKeysEmpty(lo, lo);
    d := d0;
    var i := lo;
    while i < hi
      invariant lo <= i <= hi
      invariant d == Grown(d0, lo, i)
    {
      GrownStep(d0, lo, i);
      d := d[IndexKey(i) := Undef];
      i := i + 1;
    }
  }

  /** The shrinking loop: `dict.remove` of each index of lo..hi-1. */
  method RemoveIndexKeys(d0: map<string, Slot>, lo: int, hi: int) returns (d: map<string, Slot>)
    ensures d == Shrunk(d0, lo, hi)
  {
    if hi <= lo {
      IndexKeysEmpty(lo, hi);
      return d0;
    }
    IndexKeysEmpty(lo, lo);
    d := d0;
    var i := lo;
    while i < hi
      invariant lo <= i <= hi
      invariant d == Shrunk(d0, lo, i)
    {
      ShrunkStep(d0, lo, i);
      d := d - {IndexKey(i)};
      i := i + 1;
    }
  }

  /**
   * What the setter does to the dictionary, with o and n the old and new lengths as i32: growing
   * binds each new index key to undefined, shrinking removes each index key at or above n, equal
   * lengths change nothing, and no key outside o..n-1 or n..o-1 is touched.
   */
  lemma SetterEffect(parse: string -> Option<Number>, oldLen: Slot, target: Option<Payload>, newLen: Slot, k: string)
    requires SetLength(parse, oldLen, target, newLen).Ok?
    ensures var n, o := ValueAsNumber(newLen, parse), ValueAsNumber(oldLen, parse);
      var ni, oi := AsI32(n), AsI32(o);
      var before, after := target.value.obj.dict, SetLength(parse, oldLen, target, newLen).value.1.dict;
      && (Lt(o, n) && k in IndexKeys(oi, ni) ==> k in after && after[k] == Undef)
      && (Lt(n, o) && k in IndexKeys(ni, oi) ==> k !in after)
      && (!Lt(o, n) && !Lt(n, o) ==> after == before)
      && (k !in IndexKeys(oi, ni) && k !in IndexKeys(ni, oi) ==>
            (k in after <==> k in before) && (k in before ==> after[k] == before[k]))
  {
  }

  /** Keys that are not the canonical text of an integer, such as "length", are never touched. */
  lemma NonIndexKeysUntouched(parse: string -> Option<Number>, oldLen: Slot, target: Option<Payload>, newLen: Slot, k: string)
    requires SetLength(parse, oldLen, target, newLen).Ok?
    requires ParseInt(k).None? || IndexKey(ParseInt(k).value) != k
    ensures var before, after := target.value.obj.dict, SetLength(parse, oldLen, target, newLen).value.1.dict;
      (k in after <==> k in before) && (k in before ==> after[k] == before[k])
  {
    var n, o := ValueAsNumber(newLen, parse), ValueAsNumber(oldLen, parse);
    IndexKeysMembership(k, AsI32(o), AsI32(n));
    IndexKeysMembership(k, AsI32(n), AsI32(o));
    SetterEffect(parse, oldLen, target, newLen, k);
  }

  /** Setting the length of a two-element array to 4 adds "2" and "3"; setting it back removes them. */
  lemma ResizeExample(arr: ObjStruct, parse: string -> Option<Number>)
    requires arr.dict.Keys == {"0", "1", "length"}
    ensures var grown := SetLength(parse, Slot(NewVar(JsNum(FromInt(2))), None), Some(JsObj(arr)),
                                   Slot(NewVar(JsNum(FromInt(4))), None));
      && grown.Ok? && grown.value.1.dict.Keys == {"0", "1", "2", "3", "length"}
      && grown.value.1.dict["3"] == Undef
      && var shrunk := SetLength(parse, Slot(NewVar(JsNum(FromInt(4))), None), Some(JsObj(grown.value.1)),
                                 Slot(NewVar(JsNum(FromInt(2))), None));
      && shrunk.Ok? && shrunk.value.1.dict.Keys == arr.dict.Keys
  {
    assert IndexKey(2) == "2" && IndexKey(3) == "3";
    IndexKeysStep(2, 2);
    IndexKeysStep(2, 3);
    IndexKeysEmpty(2, 2);
  }
}
