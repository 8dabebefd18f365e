/**
 * The evaluator of src/eval/mod.rs as it runs: methods that update a ScopeManager in place,
 * evaluate argument lists and object fields in loops, drain the argument list into the callee's
 * fresh scope, and run a `while` statement as a loop over its mutable return slot.
 *
 * Each method is proved to compute the function of module Semantics with the same name: same
 * value, same return signal, same store afterwards, and the same fault.
 */
module Eval {
  import opened Wrappers
  import opened Types
  import opened Ast
  import opened Scopes
  import opened EvalMacros
  import opened Semantics
  import F64
  import Coerce

  /** What `eval_stmt` returns: the statement's value and its return signal. */
  datatype Completion = Completion(v: JsVar, ret: Option<JsVar>)

  /** The method's result and store are the ones the function describes; a fault is the same fault. */
  ghost predicate ExpAgrees(r: Result<JsVar, Fault>, spec: Result<ExpOut, Fault>, frames: seq<Frame>)
  {
    match spec
    case Ok(o) => r == Ok(o.v) && frames == o.frames
    case Err(f) => r == Err(f)
  }

  ghost predicate ExpsAgrees(r: Result<seq<JsVar>, Fault>, spec: Result<ExpsOut, Fault>, frames: seq<Frame>)
  {
    match spec
    case Ok(o) => r == Ok(o.vs) && frames == o.frames
    case Err(f) => r == Err(f)
  }

  ghost predicate StmtAgrees(r: Result<Completion, Fault>, spec: Result<StmtOut, Fault>, frames: seq<Frame>)
  {
    match spec
    case Ok(o) => r == Ok(Completion(o.v, o.ret)) && frames == o.frames
    case Err(f) => r == Err(f)
  }

  /** The values `vs` already computed, in front of those of the rest of the list. */
  ghost function Prepend(vs: seq<JsVar>, rest: Result<ExpsOut, Fault>): Result<ExpsOut, Fault>
  {
    match rest
    case Ok(o) => Ok(ExpsOut(vs + o.vs, o.frames))
    case Err(f) => Err(f)
  }

  /** The last step of a call expression: look the callee's binding up and call what it holds. */
  ghost function Invoke(b: Binding, vs: seq<JsVar>, st: seq<Frame>, fuel: nat): Result<ExpOut, Fault>
    requires |st| > 0
  {
    match Lookup(st, b)
    case Some(Slot(_, Some(JsFn(fn)))) =>
      if fuel == 0 then Err(OutOfFuel) else CallFunction(fn, vs, st, fuel - 1)
    case Some(_) => Err(InvalidCallObject)
    case None => Err(NotDefined)
  }

  /** A call expression in three steps: the callee, then the arguments, then `Invoke`. */
  ghost function CallSteps(callee: Exp, args: seq<Exp>, st: seq<Frame>, fuel: nat): Result<ExpOut, Fault>
    requires |st| > 0
  {
    match EvalExp(callee, st, fuel)
    case Err(f) => Err(f)
    case Ok(o1) =>
      match EvalExps(args, o1.frames, fuel)
      case Err(f) => Err(f)
      case Ok(o2) => Invoke(o1.v.binding, o2.vs, o2.frames, fuel)
  }

  lemma CallUnfold(callee: Exp, args: seq<Exp>, st: seq<Frame>, fuel: nat)
    requires |st| > 0
    ensures EvalExp(Call(callee, args), st, fuel) == CallSteps(callee, args, st, fuel)
  {
  }

  lemma WhileUnfold(c: Exp, block: Stmt, st: seq<Frame>, fuel: nat)
    requires |st| > 0
    ensures EvalStmt(While(c, block), st, fuel) == EvalWhile(c, block, st, fuel, None)
  {
  }

  /** `eval_string` on the parser's verdict: a statement that does not parse is a panic. */
  method EvalString(sm: ScopeManager, parsed: Option<Stmt>, fuel: nat) returns (r: Result<JsVar, Fault>)
    requires sm.Valid()
    modifies sm
    ensures parsed.None? ==> r == Err(Panic("parse error")) && sm.frames == old(sm.frames)
    ensures parsed.Some? ==> var spec := EvalStmt(parsed.value, old(sm.frames), fuel);
      && (spec.Ok? ==> r == Ok(spec.value.v) && sm.frames == spec.value.frames)
      && (spec.Err? ==> r == Err(spec.error))
    ensures sm.Valid()
  {
    if parsed.None? {
      return Err(Panic("parse error"));
    }
    var c := EvalStmtM(sm, parsed.value, fuel);
    r := if c.Ok? then Ok(c.value.v) else Err(c.error);
  }

  method EvalStmtM(sm: ScopeManager, s: Stmt, fuel: nat) returns (r: Result<Completion, Fault>)
    requires sm.Valid()
    modifies sm
    ensures StmtAgrees(r, EvalStmt(s, old(sm.frames), fuel), sm.frames)
    ensures sm.Valid()
    decreases fuel, s, 2
  {
    match s
    case Assign(x, e) =>
      r := AssignM(sm, x, e, fuel);
    case BareExp(e) =>
      var v := EvalExpM(sm, e, fuel);
      r := if v.Ok? then Ok(Completion(v.value, None)) else Err(v.error);
    case Decl(x, e) =>
      r := AssignM(sm, x, e, fuel);
    case If(c, thenBlock, elseBlock) =>
      var cv := EvalExpM(sm, c, fuel);
      if cv.Err? {
        return Err(cv.error);
      }
      if Coerce.AsBool(cv.value) {
        r := EvalStmtM(sm, thenBlock, fuel);
      } else if elseBlock.Some? {
        r := EvalStmtM(sm, elseBlock.value, fuel);
      } else {
        r := Ok(Completion(NewVar(JsUndef), None));
      }
    case Ret(e) =>
      var v := EvalExpM(sm, e, fuel);
      r := if v.Ok? then Ok(Completion(v.value, Some(v.value))) else Err(v.error);
    case Seq(s1, s2) =>
      var c1 := EvalStmtM(sm, s1, fuel);
      if c1.Err? {
        return Err(c1.error);
      }
      r := EvalStmtM(sm, s2, fuel);
    case While(c, block) =>
      WhileUnfold(c, block, sm.frames, fuel);
      r := WhileM(sm, c, block, fuel);
  }

  /** `x = e` and `var x = e`: the value is renamed to `x` and stored. */
  method AssignM(sm: ScopeManager, x: string, e: Exp, fuel: nat) returns (r: Result<Completion, Fault>)
    requires sm.Valid()
    modifies sm
    ensures StmtAgrees(r, EvalStmt(Assign(x, e), old(sm.frames), fuel), sm.frames)
    ensures StmtAgrees(r, EvalStmt(Decl(x, e), old(sm.frames), fuel), sm.frames)
    ensures sm.Valid()
    decreases fuel, e, 3
  {
    var v := EvalExpM(sm, e, fuel);
    if v.Err? {
      return Err(v.error);
    }
    var named := JsVar(Named(x), v.value.t);
    sm.Alloc(x, Slot(named, None));
    r := Ok(Completion(named, None));
  }

  /**
   * The `loop` of a `while` statement: `ret` holds the return signal of the last body run, and
   * the loop leaves only when the condition is false.
   */
  method WhileM(sm: ScopeManager, c: Exp, block: Stmt, fuel: nat) returns (r: Result<Completion, Fault>)
    requires sm.Valid()
    modifies sm
    ensures StmtAgrees(r, EvalWhile(c, block, old(sm.frames), fuel, None), sm.frames)
    ensures sm.Valid()
    decreases fuel, While(c, block), 1
  {
    ghost var spec := EvalWhile(c, block, sm.frames, fuel, None);
    var ret: Option<JsVar> := None;
    var f: nat := fuel;
    while true
      invariant sm.Valid()
      invariant f <= fuel
      invariant spec == EvalWhile(c, block, sm.frames, f, ret)
      decreases f
    {
      var stop, next := IterationM(sm, c, block, f, ret);
      if stop.Some? {
        return stop.value;
      }
      ret := next;
      f := f - 1;
    }
  }

  /**
   * One pass of the loop: the condition, and the body when the condition holds. `stop` is the
   * statement's outcome when the loop ends here; otherwise `next` is the body's return signal.
   */
  method IterationM(sm: ScopeManager, c: Exp, block: Stmt, f: nat, ret: Option<JsVar>)
    returns (stop: Option<Result<Completion, Fault>>, next: Option<JsVar>)
    requires sm.Valid()
    modifies sm
    ensures sm.Valid()
    ensures stop.Some? ==> StmtAgrees(stop.value, EvalWhile(c, block, old(sm.frames), f, ret), sm.frames)
    ensures stop.None? ==>
      f > 0 && EvalWhile(c, block, old(sm.frames), f, ret) == EvalWhile(c, block, sm.frames, f - 1, next)
    decreases f, While(c, block), 0
  {
    next := None;
    var cv := EvalExpM(sm, c, f);
    if cv.Err? {
      return Some(Err(cv.error)), next;
    }
    if !Coerce.AsBool(cv.value) {
      return Some(Ok(Completion(NewVar(JsUndef), ret))), next;
    }
    if f == 0 {
      return Some(Err(OutOfFuel)), next;
    }
    var b := EvalStmtM(sm, block, f - 1);
    if b.Err? {
      return Some(Err(b.error)), next;
    }
    stop, next := None, b.value.ret;
  }

  method EvalExpM(sm: ScopeManager, e: Exp, fuel: nat) returns (r: Result<JsVar, Fault>)
    requires sm.Valid()
    modifies sm
    ensures ExpAgrees(r, EvalExp(e, old(sm.frames), fuel), sm.frames)
    ensures sm.Valid()
    decreases fuel, e, 2
  {
    match e
    case BinExp(e1, op, e2) =>
      r := BinExpM(sm, e1, op, e2, fuel);
    case Bool(b) =>
      r := Ok(NewVar(JsBool(b)));
    case Call(callee, args) =>
      CallUnfold(callee, args, sm.frames, fuel);
      r := CallM(sm, callee, args, fuel);
    case Defun(name, params, body) =>
      if name.None? {
        return Err(AnonymousFunction);
      }
      var v := JsVar(Named(name.value), JsPtr(FnTag));
      sm.Alloc(name.value, Slot(v, Some(JsFn(FnStruct(name, params, body)))));
      r := Ok(v);
    case Float(f) =>
      r := Ok(NewVar(JsNum(f)));
    case Neg(x) =>
      var v := EvalExpM(sm, x, fuel);
      r := if v.Ok? then Ok(NewVar(JsNum(F64.Neg(Coerce.AsNumber(v.value))))) else Err(v.error);
    case Pos(x) =>
      var v := EvalExpM(sm, x, fuel);
      r := if v.Ok? then Ok(NewVar(JsNum(Coerce.AsNumber(v.value)))) else Err(v.error);
    case PostDec(x) =>
      r := PostOpM(sm, x, Decrement);
    case PostInc(x) =>
      r := PostOpM(sm, x, Increment);
    case PreDec(x) =>
      r := PreOpM(sm, x, Decrement);
    case PreInc(x) =>
      r := PreOpM(sm, x, Increment);
    case NewObject(_, _) =>
      r := Err(NotImplemented);
    case Object(fields) =>
      var err := EvalFieldsM(sm, fields, fuel);
      r := if err.None? then Ok(NewVar(JsPtr(ObjTag))) else Err(err.value);
    case Undefined =>
      r := Ok(NewVar(JsUndef));
    case Var(x) =>
      var slot := sm.Load(Named(x));
      r := if slot.Some? then Ok(slot.value.v) else Err(NotDefined);
  }

  /** `e1 op e2`: both operands left to right, then the operator on their values. */
  method BinExpM(sm: ScopeManager, e1: Exp, op: BinOp, e2: Exp, fuel: nat) returns (r: Result<JsVar, Fault>)
    requires sm.Valid()
    modifies sm
    ensures ExpAgrees(r, EvalExp(BinExp(e1, op, e2), old(sm.frames), fuel), sm.frames)
    ensures sm.Valid()
    decreases fuel, BinExp(e1, op, e2), 1
  {
    var v1 := EvalExpM(sm, e1, fuel);
    if v1.Err? {
      return Err(v1.error);
    }
    var v2 := EvalExpM(sm, e2, fuel);
    if v2.Err? {
      return Err(v2.error);
    }
    r := Ok(NewVar(BinValue(op, v1.value, v2.value)));
  }

  /** `callee(args)`: the callee, then the arguments, then the call of the function it names. */
  method CallM(sm: ScopeManager, callee: Exp, args: seq<Exp>, fuel: nat) returns (r: Result<JsVar, Fault>)
    requires sm.Valid()
    modifies sm
    ensures ExpAgrees(r, CallSteps(callee, args, old(sm.frames), fuel), sm.frames)
    ensures sm.Valid()
    decreases fuel, Call(callee, args), 1
  {
    var target := EvalExpM(sm, callee, fuel);
    if target.Err? {
      return Err(target.error);
    }
    var vals := EvalExpsM(sm, args, fuel);
    if vals.Err? {
      return Err(vals.error);
    }
    r := InvokeM(sm, target.value.binding, vals.value, fuel, callee, args);
  }

  /** The call itself: the binding must hold a function, which then runs one step down. */
  method InvokeM(sm: ScopeManager, b: Binding, vs: seq<JsVar>, fuel: nat, ghost callee: Exp, ghost args: seq<Exp>)
    returns (r: Result<JsVar, Fault>)
    requires sm.Valid()
    modifies sm
    ensures ExpAgrees(r, Invoke(b, vs, old(sm.frames), fuel), sm.frames)
    ensures sm.Valid()
    decreases fuel, Call(callee, args), 0
  {
    var slot := sm.Load(b);
    match slot
    case Some(Slot(_, Some(JsFn(fn)))) =>
      if fuel == 0 {
        return Err(OutOfFuel);
      }
      r := CallFunctionM(sm, fn, vs, fuel - 1);
    case Some(_) =>
      r := Err(InvalidCallObject);
    case None =>
      r := Err(NotDefined);
  }

  /** The argument list, left to right, collected into a vector. */
  method EvalExpsM(sm: ScopeManager, es: seq<Exp>, fuel: nat) returns (r: Result<seq<JsVar>, Fault>)
    requires sm.Valid()
    modifies sm
    ensures ExpsAgrees(r, EvalExps(es, old(sm.frames), fuel), sm.frames)
    ensures sm.Valid()
    decreases fuel, es, 2
  {
    ghost var spec := EvalExps(es, sm.frames, fuel);
    var vals: seq<JsVar> := [];
    var i := 0;
    assert es[i..] == es;
    assert spec.Ok? ==> [] + spec.value.vs == spec.value.vs;
    while i < |es|
      invariant 0 <= i <= |es|
      invariant sm.Valid()
      invariant spec == Prepend(vals, EvalExps(es[i..], sm.frames, fuel))
    {
      assert es[i..][0] == es[i] && es[i..][1..] == es[i + 1..];
      var v := EvalExpM(sm, es[i], fuel);
      if v.Err? {
        return Err(v.error);
      }
      ghost var rest := EvalExps(es[i + 1..], sm.frames, fuel);
      assert rest.Ok? ==> vals + ([v.value] + rest.value.vs) == (vals + [v.value]) + rest.value.vs;
      vals := vals + [v.value];
      i := i + 1;
    }
    assert es[i..] == [];
    assert vals + [] == vals;
    r := Ok(vals);
  }

  /** An object literal's values, left to right, for their effect on the store. */
  method EvalFieldsM(sm: ScopeManager, fs: seq<Field>, fuel: nat) returns (err: Option<Fault>)
    requires sm.Valid()
    modifies sm
    ensures var spec := EvalFields(fs, old(sm.frames), fuel);
      && (spec.Ok? ==> err.None? && sm.frames == spec.value)
      && (spec.Err? ==> err == Some(spec.error))
    ensures sm.Valid()
    decreases fuel, fs, 2
  {
    ghost var spec := EvalFields(fs, sm.frames, fuel);
    var i := 0;
    while i < |fs|
      invariant 0 <= i <= |fs|
      invariant sm.Valid()
      invariant spec == EvalFields(fs[i..], sm.frames, fuel)
    {
      assert fs[i..][0] == fs[i] && fs[i..][1..] == fs[i + 1..];
      var v := EvalExpM(sm, fs[i].value, fuel);
      if v.Err? {
        return Some(v.error);
      }
      i := i + 1;
    }
    assert fs[i..] == [];
    err := None;
  }

  /**
   * A call of a user function: push a scope, move the arguments one by one into the parameters
   * (undefined once they run out), run the body, pop the scope, and answer the return signal.
   */
  method CallFunctionM(sm: ScopeManager, fn: FnStruct, args: seq<JsVar>, fuel: nat) returns (r: Result<JsVar, Fault>)
    requires sm.Valid()
    modifies sm
    ensures ExpAgrees(r, CallFunction(fn, args, old(sm.frames), fuel), sm.frames)
    ensures sm.Valid()
    decreases fuel, fn.body, 3
  {
    ghost var st0 := sm.frames;
    sm.PushScope();
    var rest := args;
    var k := 0;
    while k < |fn.params|
      invariant 0 <= k <= |fn.params|
      invariant sm.Valid() && |sm.frames| == |st0| + 1
      invariant BindParams(fn.params, args, st0 + [map[]]) == BindParams(fn.params[k..], rest, sm.frames)
    {
      var param := fn.params[k];
      assert fn.params[k..][0] == param && fn.params[k..][1..] == fn.params[k + 1..];
      var arg := if rest == [] then NewVar(JsUndef) else rest[0];
      rest := if rest == [] then [] else rest[1..];
      sm.Alloc(param, Slot(JsVar(Named(param), arg.t), None));
      k := k + 1;
    }
    assert fn.params[k..] == [];
    var c := EvalStmtM(sm, fn.body, fuel);
    if c.Err? {
      return Err(c.error);
    }
    var ok := sm.PopScope();
    assert ok;
    r := Ok(if c.value.ret.Some? then c.value.ret.value else NewVar(JsUndef));
  }
}
