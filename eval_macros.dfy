/**
 * The helper macros of the statement evaluator (src/eval/macros.rs): a numeric comparison, the
 * unary sign operators, and the postfix and prefix increment and decrement operators, which
 * update a variable in the scope store.
 */
module EvalMacros {
  import opened Wrappers
  import opened F64
  import opened Types
  import opened Scopes
  import Ast
  import Coerce

  /** Why evaluation stops: a Rust panic with its message, or the step bound ran out. */
  datatype Fault = Panic(msg: string) | OutOfFuel

  /** This revision's `as_number`, which returns the number as a scalar tag. */
  function AsNumberType(v: JsVar): (r: JsType)
    ensures r.JsNum?
  {
    JsNum(Coerce.AsNumber(v))
  }

  /** `eval_cmp`: compares the numeric coercions with `out`, or is false when one is not a number. */
  function Cmp(v1: JsVar, v2: JsVar, out: (Number, Number) -> bool): JsType
  {
    match (AsNumberType(v1), AsNumberType(v2))
    case (JsNum(f1), JsNum(f2)) => JsBool(out(f1, f2))
    case _ => JsBool(false)
  }

  /** The false fallback of `eval_cmp` is unreachable: the comparison always decides. */
  lemma CmpDecides(v1: JsVar, v2: JsVar, out: (Number, Number) -> bool)
    ensures Cmp(v1, v2, out) == JsBool(out(Coerce.AsNumber(v1), Coerce.AsNumber(v2)))
  {
  }

  /** With Rust's `<`, `eval_cmp` compares numerically, and is false when NaN is involved. */
  lemma CmpLessThan(v1: JsVar, v2: JsVar)
    ensures Cmp(v1, v2, Lt) == JsBool(Lt(Coerce.AsNumber(v1), Coerce.AsNumber(v2)))
    ensures Cmp(NewVar(JsUndef), v2, Lt) == JsBool(false)
    ensures Cmp(NewVar(JsNum(FromInt(2))), NewVar(JsNum(FromInt(3))), Lt) == JsBool(true)
  {
  }

  /**
   * `eval_float_sign` applied to an evaluated operand: a number goes through `op`, anything else
   * becomes NaN without coercion.
   */
  function FloatSign(t: JsType, op: Number -> Number): (r: JsType)
    ensures r.JsNum?
    ensures t.JsNum? ==> r.n == op(t.n)
    ensures !t.JsNum? ==> r.n.NaN?
  {
    match t
    case JsNum(f) => JsNum(op(f))
    case _ => JsNum(NaN)
  }

  /** The value an expression evaluates to, and the store after it. */
  datatype ExpOut = ExpOut(v: JsVar, frames: seq<Frame>)

  function UndefinedVariable(name: string): Fault
  {
    Panic("undefined variable `" + name + "`")
  }

  const PostfixLhsError: Fault := Panic("Invalid left-hand side expression in postfix operation")
  const PrefixLhsError: Fault := Panic("Invalid left-hand side expression in prefix operation")

  /**
   * `eval_float_post_op`: the operand must be a variable holding a number f; f's successor under
   * `step` is stored under the name and f itself is the value.
   */
  function PostOp(operand: Ast.Exp, frames: seq<Frame>, step: Number -> Number): (r: Result<ExpOut, Fault>)
    requires |frames| > 0
    ensures r.Ok? <==> operand.Var? && Get(frames, operand.name).Some? && Get(frames, operand.name).value.JsNum?
    ensures r.Ok? ==>
      var f := Get(frames, operand.name).value.n;
      && r.value.v == NewVar(JsNum(f))
      && Get(r.value.frames, operand.name) == Some(JsNum(step(f)))
      && |r.value.frames| == |frames|
      && forall other :: other != operand.name ==> Lookup(r.value.frames, Named(other)) == Lookup(frames, Named(other))
    ensures !operand.Var? ==> r == Err(PostfixLhsError)
    ensures operand.Var? && r.Err? ==> r.error == UndefinedVariable(operand.name)
  {
    match operand
    case Var(x) =>
      (match Get(frames, x)
       case Some(JsNum(f)) =>
         Ok(ExpOut(NewVar(JsNum(f)), InsertF(frames, x, Slot(JsVar(Named(x), JsNum(step(f))), None))))
       case _ => Err(UndefinedVariable(x)))
    case _ => Err(PostfixLhsError)
  }

  /**
   * `eval_float_pre_op`: as the postfix form, except that the value is the stored successor
   * rather than the old number.
   */
  function PreOp(operand: Ast.Exp, frames: seq<Frame>, step: Number -> Number): (r: Result<ExpOut, Fault>)
    requires |frames| > 0
    ensures r.Ok? <==> operand.Var? && Get(frames, operand.name).Some? && Get(frames, operand.name).value.JsNum?
    ensures r.Ok? ==>
      var f := Get(frames, operand.name).value.n;
      && r.value.v == NewVar(JsNum(step(f)))
      && Get(r.value.frames, operand.name) == Some(JsNum(step(f)))
      && |r.value.frames| == |frames|
      && forall other :: other != operand.name ==> Lookup(r.value.frames, Named(other)) == Lookup(frames, Named(other))
    ensures !operand.Var? ==> r == Err(PrefixLhsError)
    ensures operand.Var? && r.Err? ==> r.error == UndefinedVariable(operand.name)
  {
    match operand
    case Var(x) =>
      (match Get(frames, x)
       case Some(JsNum(f)) =>
         Ok(ExpOut(NewVar(JsNum(step(f))), InsertF(frames, x, Slot(JsVar(Named(x), JsNum(step(f))), None))))
       case _ => Err(UndefinedVariable(x)))
    case _ => Err(PrefixLhsError)
  }

  /** `x => x + 1.0` and `x => x - 1.0`, the steps of `++` and `--`. */
  function Increment(f: Number): Number
  {
    Add(f, One)
  }

  function Decrement(f: Number): Number
  {
    Sub(f, One)
  }

  /** Postfix and prefix forms store the same thing; they differ only in the value they yield. */
  lemma PostAndPreAgreeOnStore(operand: Ast.Exp, frames: seq<Frame>, step: Number -> Number)
    requires |frames| > 0
    ensures PostOp(operand, frames, step).Ok? == PreOp(operand, frames, step).Ok?
    ensures PostOp(operand, frames, step).Ok? ==>
      && PostOp(operand, frames, step).value.frames == PreOp(operand, frames, step).value.frames
      && PreOp(operand, frames, step).value.v.t == JsNum(step(PostOp(operand, frames, step).value.v.t.n))
  {
  }

  /** With a = 1 stored, `a++` yields 1 and leaves 2; then `++a` yields 3; then `a--` yields 3. */
  lemma IncrementExample()
    ensures var frames := [map["a" := Slot(JsVar(Named("a"), JsNum(One)), None)]];
      && var r1 := PostOp(Ast.Var("a"), frames, Increment);
      && r1.Ok? && r1.value.v.t == JsNum(One)
      && Get(r1.value.frames, "a") == Some(JsNum(FromInt(2)))
      && var r2 := PreOp(Ast.Var("a"), r1.value.frames, Increment);
      && r2.Ok? && r2.value.v.t == JsNum(FromInt(3))
      && var r3 := PostOp(Ast.Var("a"), r2.value.frames, Decrement);
      && r3.Ok? && r3.value.v.t == JsNum(FromInt(3))
      && Get(r3.value.frames, "a") == Some(JsNum(FromInt(2)))
  {
  }

  /** The macros as they run on a scope manager, updating it in place. */
  method PostOpM(sm: ScopeManager, operand: Ast.Exp, step: Number -> Number) returns (r: Result<JsVar, Fault>)
    requires sm.Valid()
    modifies sm
    ensures var spec := PostOp(operand, old(sm.frames), step);
      && (spec.Ok? ==> r == Ok(spec.value.v) && sm.frames == spec.value.frames)
      && (spec.Err? ==> r == Err(spec.error) && sm.frames == old(sm.frames))
    ensures sm.Valid()
  {
    if !operand.Var? {
      return Err(PostfixLhsError);
    }
    var x := operand.name;
    var t := sm.GetType(x);
    if t.Some? && t.value.JsNum? {
      var f := t.value.n;
      sm.Insert(x, JsNum(step(f)));
      r := Ok(NewVar(JsNum(f)));
    } else {
      r := Err(UndefinedVariable(x));
    }
  }

  method PreOpM(sm: ScopeManager, operand: Ast.Exp, step: Number -> Number) returns (r: Result<JsVar, Fault>)
    requires sm.Valid()
    modifies sm
    ensures var spec := PreOp(operand, old(sm.frames), step);
      && (spec.Ok? ==> r == Ok(spec.value.v) && sm.frames == spec.value.frames)
      && (spec.Err? ==> r == Err(spec.error) && sm.frames == old(sm.frames))
    ensures sm.Valid()
  {
    if !operand.Var? {
      return Err(PrefixLhsError);
    }
    var x := operand.name;
    var t := sm.GetType(x);
    if t.Some? && t.value.JsNum? {
      var f := t.value.n;
      sm.Insert(x, JsNum(step(f)));
      r := Ok(NewVar(JsNum(step(f))));
    } else {
      r := Err(UndefinedVariable(x));
    }
  }
}
