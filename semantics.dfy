/**
 * The meaning of the statement and expression evaluator of src/eval/mod.rs, as functions from a
 * syntax tree and a scope store to a value and the new store.
 *
 * The source's evaluator need not terminate (a `while` whose condition stays true, a recursive
 * call); each function takes a step bound, `fuel`, that a loop iteration and a function call
 * consume, and running out of it is the fault `OutOfFuel`. A Rust panic is the fault `Panic` with
 * the source's message. The imperative evaluator in module Eval is proved to compute exactly these
 * functions.
 */
module Semantics {
  import opened Wrappers
  import opened Types
  import opened Ast
  import opened Scopes
  import opened EvalMacros
  import F64
  import Coerce
  import BinaryOps

  /** A statement's value, its return signal (set by `return`), and the store after it. */
  datatype StmtOut = StmtOut(v: JsVar, ret: Option<JsVar>, frames: seq<Frame>)

  /** The values of a list of expressions evaluated left to right, and the store after them. */
  datatype ExpsOut = ExpsOut(vs: seq<JsVar>, frames: seq<Frame>)

  const InvalidCallObject: Fault := Panic("Invalid call object")
  const NotDefined: Fault := Panic("ReferenceError: {} is not defined")
  const AnonymousFunction: Fault := Panic("functions without bindings are not yet supported.")
  const NotImplemented: Fault := Panic("not yet implemented")

  /**
   * The operator table written inline in `eval_exp`: logical, relational and loose equality
   * operators on truthiness, arithmetic on numeric coercions.
   */
  function BinValue(op: BinOp, v1: JsVar, v2: JsVar): JsType
  {
    var b1, b2 := Coerce.AsBool(v1), Coerce.AsBool(v2);
    var n1, n2 := Coerce.AsNumber(v1), Coerce.AsNumber(v2);
    match op
    case And => JsBool(b1 && b2)
    case Or => JsBool(b1 || b2)
    case Ge => JsBool(b1 || !b2)
    case Gt => JsBool(b1 && !b2)
    case Le => JsBool(!b1 || b2)
    case Lt => JsBool(!b1 && b2)
    case Neq => JsBool(b1 != b2)
    case Eql => JsBool(b1 == b2)
    case Minus => JsNum(F64.Sub(n1, n2))
    case Plus => JsNum(F64.Add(n1, n2))
    case Slash => JsNum(F64.Div(n1, n2))
    case Star => JsNum(F64.Mul(n1, n2))
  }

  /** The operator of the src/number.rs table with the same name. */
  function NumberOp(op: BinOp): BinaryOps.BinOp
  {
    match op
    case And => BinaryOps.And
    case Or => BinaryOps.Or
    case Ge => BinaryOps.Ge
    case Gt => BinaryOps.Gt
    case Le => BinaryOps.Le
    case Lt => BinaryOps.Lt
    case Neq => BinaryOps.Neq
    case Eql => BinaryOps.Eql
    case Minus => BinaryOps.Minus
    case Plus => BinaryOps.Plus
    case Slash => BinaryOps.Slash
    case Star => BinaryOps.Star
  }

  /** The inline table and `eval_binop` of src/number.rs agree on every operator they share. */
  lemma InlineTableAgrees(op: BinOp, v1: JsVar, v2: JsVar)
    ensures BinValue(op, v1, v2) == BinaryOps.EvalBinop(NumberOp(op), v1, v2)
    ensures !NumberOp(op).EqlStrict? && !NumberOp(op).NeqStrict?
  {
  }

  /**
   * Binds the parameters in order into the innermost frame: each takes the next argument under the
   * parameter's name, or undefined once the arguments run out; surplus arguments are dropped.
   */
  function BindParams(params: seq<string>, args: seq<JsVar>, frames: seq<Frame>): (r: seq<Frame>)
    requires |frames| > 0
    ensures |r| == |frames|
    ensures r[..|r| - 1] == frames[..|frames| - 1]
    decreases |params|
  {
    if params == [] then frames
    else
      var arg := if args == [] then NewVar(JsUndef) else args[0];
      var rest := if args == [] then [] else args[1..];
      BindParams(params[1..], rest, AllocF(frames, params[0], Slot(JsVar(Named(params[0]), arg.t), None)))
  }

  function EvalExp(e: Exp, st: seq<Frame>, fuel: nat): (r: Result<ExpOut, Fault>)
    requires |st| > 0
    ensures r.Ok? ==> |r.value.frames| == |st|
    decreases fuel, e, 1
  {
    match e
    case BinExp(e1, op, e2) =>
      (match EvalExp(e1, st, fuel)
       case Err(f) => Err(f)
       case Ok(o1) =>
         match EvalExp(e2, o1.frames, fuel)
         case Err(f) => Err(f)
         case Ok(o2) => Ok(ExpOut(NewVar(BinValue(op, o1.v, o2.v)), o2.frames)))
    case Bool(b) => Ok(ExpOut(NewVar(JsBool(b)), st))
    case Call(callee, args) =>
      (match EvalExp(callee, st, fuel)
       case Err(f) => Err(f)
       case Ok(o1) =>
         match EvalExps(args, o1.frames, fuel)
         case Err(f) => Err(f)
         case Ok(o2) =>
           match Lookup(o2.frames, o1.v.binding)
           case Some(Slot(_, Some(JsFn(fn)))) =>
             if fuel == 0 then Err(OutOfFuel) else CallFunction(fn, o2.vs, o2.frames, fuel - 1)
           case Some(_) => Err(InvalidCallObject)
           case None => Err(NotDefined))
    case Defun(name, params, body) =>
      if name.Some? then
        var v := JsVar(Named(name.value), JsPtr(FnTag));
        Ok(ExpOut(v, AllocF(st, name.value, Slot(v, Some(JsFn(FnStruct(name, params, body)))))))
      else Err(AnonymousFunction)
    case Float(f) => Ok(ExpOut(NewVar(JsNum(f)), st))
    case Neg(x) =>
      (match EvalExp(x, st, fuel)
       case Err(f) => Err(f)
       case Ok(o) => Ok(ExpOut(NewVar(JsNum(F64.Neg(Coerce.AsNumber(o.v)))), o.frames)))
    case Pos(x) =>
      (match EvalExp(x, st, fuel)
       case Err(f) => Err(f)
       case Ok(o) => Ok(ExpOut(NewVar(JsNum(Coerce.AsNumber(o.v))), o.frames)))
    case PostDec(x) => PostOp(x, st, Decrement)
    case PostInc(x) => PostOp(x, st, Increment)
    case PreDec(x) => PreOp(x, st, Decrement)
    case PreInc(x) => PreOp(x, st, Increment)
    case NewObject(_, _) => Err(NotImplemented)
    case Object(fields) =>
      (match EvalFields(fields, st, fuel)
       case Err(f) => Err(f)
       case Ok(frames) => Ok(ExpOut(NewVar(JsPtr(ObjTag)), frames)))
    case Undefined => Ok(ExpOut(NewVar(JsUndef), st))
    case Var(x) =>
      (match Lookup(st, Named(x))
       case Some(slot) => Ok(ExpOut(slot.v, st))
       case None => Err(NotDefined))
  }

  /** Evaluates the expressions left to right, threading the store. */
  function EvalExps(es: seq<Exp>, st: seq<Frame>, fuel: nat): (r: Result<ExpsOut, Fault>)
    requires |st| > 0
    ensures r.Ok? ==> |r.value.frames| == |st| && |r.value.vs| == |es|
    decreases fuel, es, 1
  {
    if es == [] then Ok(ExpsOut([], st))
    else
      match EvalExp(es[0], st, fuel)
      case Err(f) => Err(f)
      case Ok(o) =>
        match EvalExps(es[1..], o.frames, fuel)
        case Err(f) => Err(f)
        case Ok(os) => Ok(ExpsOut([o.v] + os.vs, os.frames))
  }

  /** Evaluates an object literal's values left to right for their effect on the store. */
  function EvalFields(fs: seq<Field>, st: seq<Frame>, fuel: nat): (r: Result<seq<Frame>, Fault>)
    requires |st| > 0
    ensures r.Ok? ==> |r.value| == |st|
    decreases fuel, fs, 1
  {
    if fs == [] then Ok(st)
    else
      match EvalExp(fs[0].value, st, fuel)
      case Err(f) => Err(f)
      case Ok(o) => EvalFields(fs[1..], o.frames, fuel)
  }

  /**
   * A call of a user function: push a scope, bind the parameters, run the body, pop the scope.
   * The value is the body's return signal, or undefined when the body never returned.
   */
  function CallFunction(fn: FnStruct, args: seq<JsVar>, st: seq<Frame>, fuel: nat): (r: Result<ExpOut, Fault>)
    requires |st| > 0
    ensures r.Ok? ==> |r.value.frames| == |st|
    decreases fuel, fn.body, 2
  {
    var bound := BindParams(fn.params, args, st + [map[]]);
    match EvalStmt(fn.body, bound, fuel)
    case Err(f) => Err(f)
    case Ok(o) =>
      var v := if o.ret.Some? then o.ret.value else NewVar(JsUndef);
      Ok(ExpOut(v, o.frames[..|o.frames| - 1]))
  }

  function EvalStmt(s: Stmt, st: seq<Frame>, fuel: nat): (r: Result<StmtOut, Fault>)
    requires |st| > 0
    ensures r.Ok? ==> |r.value.frames| == |st|
    decreases fuel, s, 1
  {
    match s
    case Assign(x, e) =>
      (match EvalExp(e, st, fuel)
       case Err(f) => Err(f)
       case Ok(o) =>
         var v := JsVar(Named(x), o.v.t);
         Ok(StmtOut(v, None, AllocF(o.frames, x, Slot(v, None)))))
    case BareExp(e) =>
      (match EvalExp(e, st, fuel)
       case Err(f) => Err(f)
       case Ok(o) => Ok(StmtOut(o.v, None, o.frames)))
    case Decl(x, e) =>
      (match EvalExp(e, st, fuel)
       case Err(f) => Err(f)
       case Ok(o) =>
         var v := JsVar(Named(x), o.v.t);
         Ok(StmtOut(v, None, AllocF(o.frames, x, Slot(v, None)))))
    case If(c, thenBlock, elseBlock) =>
      (match EvalExp(c, st, fuel)
       case Err(f) => Err(f)
       case Ok(o) =>
         if Coerce.AsBool(o.v) then EvalStmt(thenBlock, o.frames, fuel)
         else if elseBlock.Some? then EvalStmt(elseBlock.value, o.frames, fuel)
         else Ok(StmtOut(NewVar(JsUndef), None, o.frames)))
    case Ret(e) =>
      (match EvalExp(e, st, fuel)
       case Err(f) => Err(f)
       case Ok(o) => Ok(StmtOut(o.v, Some(o.v), o.frames)))
    case Seq(s1, s2) =>
      (match EvalStmt(s1, st, fuel)
       case Err(f) => Err(f)
       case Ok(o1) => EvalStmt(s2, o1.frames, fuel))
    case While(c, block) => EvalWhile(c, block, st, fuel, None)
  }

  /**
   * The `loop` of a `while` statement, with `ret` the return signal of the last body run. The
   * loop stops only when the condition is false, never on a return signal.
   */
  function EvalWhile(c: Exp, block: Stmt, st: seq<Frame>, fuel: nat, ret: Option<JsVar>): (r: Result<StmtOut, Fault>)
    requires |st| > 0
    ensures r.Ok? ==> |r.value.frames| == |st|
    ensures r.Ok? ==> r.value.v == NewVar(JsUndef)
    decreases fuel, While(c, block), 0
  {
    match EvalExp(c, st, fuel)
    case Err(f) => Err(f)
    case Ok(o) =>
      if !Coerce.AsBool(o.v) then Ok(StmtOut(NewVar(JsUndef), ret, o.frames))
      else if fuel == 0 then Err(OutOfFuel)
      else
        match EvalStmt(block, o.frames, fuel - 1)
        case Err(f) => Err(f)
        case Ok(ob) => EvalWhile(c, block, ob.frames, fuel - 1, ob.ret)
  }

  // ---------------------------------------------------------------------------------------------
  // Return signals.

  /** A statement with no `return` in it (function bodies inside expressions aside). */
  predicate NoReturn(s: Stmt)
  {
    match s
    case Ret(_) => false
    case If(_, t, el) => NoReturn(t) && (el.Some? ==> NoReturn(el.value))
    case Seq(s1, s2) => NoReturn(s1) && NoReturn(s2)
    case While(_, b) => NoReturn(b)
    case _ => true
  }

  /** Only a `return` raises the return signal: a statement without one never does. */
  lemma {:induction false} NoReturnNoSignal(s: Stmt, st: seq<Frame>, fuel: nat)
    requires |st| > 0
    requires NoReturn(s)
    ensures EvalStmt(s, st, fuel).Ok? ==> EvalStmt(s, st, fuel).value.ret.None?
    decreases fuel, s, 1
  {
    match s
    case If(c, t, el) =>
      var oc := EvalExp(c, st, fuel);
      if oc.Ok? {
        NoReturnNoSignal(t, oc.value.frames, fuel);
        if el.Some? {
          NoReturnNoSignal(el.value, oc.value.frames, fuel);
        }
      }
    case Seq(s1, s2) =>
      var o1 := EvalStmt(s1, st, fuel);
      if o1.Ok? {
        NoReturnNoSignal(s2, o1.value.frames, fuel);
      }
    case While(c, b) =>
      NoReturnLoopNoSignal(c, b, st, fuel);
    case _ =>
  }

  lemma {:induction false} NoReturnLoopNoSignal(c: Exp, b: Stmt, st: seq<Frame>, fuel: nat)
    requires |st| > 0
    requires NoReturn(b)
    ensures EvalWhile(c, b, st, fuel, None).Ok? ==> EvalWhile(c, b, st, fuel, None).value.ret.None?
    decreases fuel, While(c, b), 0
  {
    var oc := EvalExp(c, st, fuel);
    if oc.Ok? && Coerce.AsBool(oc.value.v) && fuel > 0 {
      var ob := EvalStmt(b, oc.value.frames, fuel - 1);
      NoReturnNoSignal(b, oc.value.frames, fuel - 1);
      if ob.Ok? {
        NoReturnLoopNoSignal(c, b, ob.value.frames, fuel - 1);
      }
    }
  }

  /**
   * A sequence returns only what its second statement signals: `return e; s` with no return in s
   * does not return, because the first statement's signal is discarded.
   */
  lemma SeqDiscardsReturn(e: Exp, s2: Stmt, st: seq<Frame>, fuel: nat)
    requires |st| > 0
    requires NoReturn(s2)
    ensures var r := EvalStmt(Seq(Ret(e), s2), st, fuel); r.Ok? ==> r.value.ret.None?
  {
    var o1 := EvalStmt(Ret(e), st, fuel);
    if o1.Ok? {
      NoReturnNoSignal(s2, o1.value.frames, fuel);
    }
  }

  /** `return e` signals the value it evaluates to. */
  lemma ReturnSignalsItsValue(e: Exp, st: seq<Frame>, fuel: nat)
    requires |st| > 0
    ensures EvalStmt(Ret(e), st, fuel).Ok? <==> EvalExp(e, st, fuel).Ok?
    ensures EvalStmt(Ret(e), st, fuel).Ok? ==>
      && EvalStmt(Ret(e), st, fuel).value.ret == Some(EvalExp(e, st, fuel).value.v)
      && EvalStmt(Ret(e), st, fuel).value.v == EvalExp(e, st, fuel).value.v
  {
  }

  /** `while (true) { return; }` never stops: a return does not end the loop. */
  lemma {:induction false} LoopIgnoresReturn(st: seq<Frame>, fuel: nat, ret: Option<JsVar>)
    requires |st| > 0
    ensures EvalWhile(Bool(true), Ret(Undefined), st, fuel, ret) == Err(OutOfFuel)
    decreases fuel
  {
    assert EvalExp(Bool(true), st, fuel) == Ok(ExpOut(NewVar(JsBool(true)), st));
    if fuel > 0 {
      assert EvalExp(Undefined, st, fuel - 1) == Ok(ExpOut(NewVar(JsUndef), st));
      assert EvalStmt(Ret(Undefined), st, fuel - 1) == Ok(StmtOut(NewVar(JsUndef), Some(NewVar(JsUndef)), st));
      LoopIgnoresReturn(st, fuel - 1, Some(NewVar(JsUndef)));
    }
  }

  /** With a false condition, a `while` runs no iteration and yields (undefined, no signal). */
  lemma LoopWithFalseCondition(b: Stmt, st: seq<Frame>, fuel: nat)
    requires |st| > 0
    ensures EvalStmt(While(Bool(false), b), st, fuel) == Ok(StmtOut(NewVar(JsUndef), None, st))
  {
    assert EvalExp(Bool(false), st, fuel) == Ok(ExpOut(NewVar(JsBool(false)), st));
    assert EvalWhile(Bool(false), b, st, fuel, None) == Ok(StmtOut(NewVar(JsUndef), None, st));
  }

  /** A loop whose condition is false on entry runs no iteration and keeps the signal it had. */
  lemma WhileEntryFalse(c: Exp, b: Stmt, st: seq<Frame>, fuel: nat, ret: Option<JsVar>)
    requires |st| > 0
    requires EvalExp(c, st, fuel).Ok? && !Coerce.AsBool(EvalExp(c, st, fuel).value.v)
    ensures EvalWhile(c, b, st, fuel, ret) == Ok(StmtOut(NewVar(JsUndef), ret, EvalExp(c, st, fuel).value.frames))
  {
  }

  /**
   * Once the condition holds and the body runs, the signal the loop had before no longer matters:
   * the loop ends with the signal of its last body run.
   */
  lemma WhileBodyRunReplacesSignal(c: Exp, b: Stmt, st: seq<Frame>, fuel: nat, ret1: Option<JsVar>, ret2: Option<JsVar>)
    requires |st| > 0
    requires EvalExp(c, st, fuel).Ok? && Coerce.AsBool(EvalExp(c, st, fuel).value.v)
    ensures EvalWhile(c, b, st, fuel, ret1) == EvalWhile(c, b, st, fuel, ret2)
  {
  }

  /** A `while` statement whose condition is false at once yields (undefined, no signal). */
  lemma WhileNeverRan(c: Exp, b: Stmt, st: seq<Frame>, fuel: nat)
    requires |st| > 0
    requires EvalExp(c, st, fuel).Ok? && !Coerce.AsBool(EvalExp(c, st, fuel).value.v)
    ensures EvalStmt(While(c, b), st, fuel) == Ok(StmtOut(NewVar(JsUndef), None, EvalExp(c, st, fuel).value.frames))
  {
  }

  // ---------------------------------------------------------------------------------------------
  // Conditionals and bindings.

  /** A true condition runs the `then` block alone, on the store the condition left. */
  lemma IfTrueRunsThen(c: Exp, t: Stmt, el: Option<Stmt>, st: seq<Frame>, fuel: nat)
    requires |st| > 0
    requires EvalExp(c, st, fuel).Ok? && Coerce.AsBool(EvalExp(c, st, fuel).value.v)
    ensures EvalStmt(If(c, t, el), st, fuel) == EvalStmt(t, EvalExp(c, st, fuel).value.frames, fuel)
  {
  }

  /** A false condition runs the `else` block alone, on the store the condition left. */
  lemma IfFalseRunsElse(c: Exp, t: Stmt, e: Stmt, st: seq<Frame>, fuel: nat)
    requires |st| > 0
    requires EvalExp(c, st, fuel).Ok? && !Coerce.AsBool(EvalExp(c, st, fuel).value.v)
    ensures EvalStmt(If(c, t, Some(e)), st, fuel) == EvalStmt(e, EvalExp(c, st, fuel).value.frames, fuel)
  {
  }

  /** A false condition with no `else` yields (undefined, no signal) and runs no block. */
  lemma IfFalseNoElse(c: Exp, t: Stmt, st: seq<Frame>, fuel: nat)
    requires |st| > 0
    requires EvalExp(c, st, fuel).Ok? && !Coerce.AsBool(EvalExp(c, st, fuel).value.v)
    ensures EvalStmt(If(c, t, None), st, fuel) == Ok(StmtOut(NewVar(JsUndef), None, EvalExp(c, st, fuel).value.frames))
  {
  }

  /** A condition that fails makes the whole statement fail the same way. */
  lemma IfConditionFails(c: Exp, t: Stmt, el: Option<Stmt>, st: seq<Frame>, fuel: nat)
    requires |st| > 0
    requires EvalExp(c, st, fuel).Err?
    ensures EvalStmt(If(c, t, el), st, fuel) == Err(EvalExp(c, st, fuel).error)
  {
  }

  /**
   * `x = e` and `var x = e` act alike: they succeed exactly when e does, yield e's value bound to
   * the name x with no signal, and store it under x in the innermost frame, leaving every other
   * name and every outer frame as e left them.
   */
  lemma AssignAndDeclBind(x: string, e: Exp, st: seq<Frame>, fuel: nat)
    requires |st| > 0
    ensures EvalStmt(Assign(x, e), st, fuel) == EvalStmt(Decl(x, e), st, fuel)
    ensures EvalStmt(Decl(x, e), st, fuel).Ok? <==> EvalExp(e, st, fuel).Ok?
    ensures EvalExp(e, st, fuel).Ok? ==>
      var o := EvalExp(e, st, fuel).value;
      var r := EvalStmt(Decl(x, e), st, fuel).value;
      && r.v == JsVar(Named(x), o.v.t)
      && r.ret.None?
      && Lookup(r.frames, Named(x)) == Some(Slot(r.v, None))
      && (forall other :: other != x ==> Lookup(r.frames, Named(other)) == Lookup(o.frames, Named(other)))
      && r.frames[..|r.frames| - 1] == o.frames[..|o.frames| - 1]
  {
  }

  // ---------------------------------------------------------------------------------------------
  // Parameter binding.

  /** The argument a parameter position receives: the argument there, or undefined. */
  function ArgAt(args: seq<JsVar>, i: nat): JsType
  {
    if i < |args| then args[i].t else JsUndef
  }

  /**
   * With distinct parameter names, parameter i is bound to argument i (undefined when missing)
   * under its own name, with no payload, and every other name is looked up as before.
   */
  lemma {:induction false} BindParamsBinds(params: seq<string>, args: seq<JsVar>, frames: seq<Frame>)
    requires |frames| > 0
    requires forall i, j :: 0 <= i < j < |params| ==> params[i] != params[j]
    ensures forall i :: 0 <= i < |params| ==>
      Lookup(BindParams(params, args, frames), Named(params[i])) == Some(Slot(JsVar(Named(params[i]), ArgAt(args, i)), None))
    ensures forall n :: n !in params ==> Lookup(BindParams(params, args, frames), Named(n)) == Lookup(frames, Named(n))
    decreases |params|
  {
    if params != [] {
      var arg := if args == [] then NewVar(JsUndef) else args[0];
      var rest := if args == [] then [] else args[1..];
      var f1 := AllocF(frames, params[0], Slot(JsVar(Named(params[0]), arg.t), None));
      BindParamsBinds(params[1..], rest, f1);
      var r := BindParams(params, args, frames);
      assert r == BindParams(params[1..], rest, f1);
      forall i | 0 <= i < |params|
        ensures Lookup(r, Named(params[i])) == Some(Slot(JsVar(Named(params[i]), ArgAt(args, i)), None))
      {
        if i == 0 {
          assert params[0] !in params[1..];
        } else {
          assert params[1..][i - 1] == params[i];
          assert ArgAt(rest, i - 1) == ArgAt(args, i);
        }
      }
    }
  }

  /** A call fails exactly as its body fails. */
  lemma CallFailsWithBody(fn: FnStruct, args: seq<JsVar>, st: seq<Frame>, fuel: nat, f: Fault)
    requires |st| > 0
    requires EvalStmt(fn.body, BindParams(fn.params, args, st + [map[]]), fuel) == Err(f)
    ensures CallFunction(fn, args, st, fuel) == Err(f)
  {
  }

  /**
   * A call succeeds exactly when its body does; its value is the body's return signal, or
   * undefined when the body signalled nothing; and the scope it pushed is gone afterwards.
   */
  lemma CallResult(fn: FnStruct, args: seq<JsVar>, st: seq<Frame>, fuel: nat)
    requires |st| > 0
    ensures var body := EvalStmt(fn.body, BindParams(fn.params, args, st + [map[]]), fuel);
      var r := CallFunction(fn, args, st, fuel);
      && (r.Ok? <==> body.Ok?)
      && (r.Ok? ==> && r.value.v == (if body.value.ret.Some? then body.value.ret.value else NewVar(JsUndef))
                    && |body.value.frames| == |st| + 1
                    && r.value.frames == body.value.frames[..|st|])
  {
  }

  /** A function whose body has no `return` yields undefined. */
  lemma CallWithoutReturnIsUndefined(fn: FnStruct, args: seq<JsVar>, st: seq<Frame>, fuel: nat)
    requires |st| > 0
    requires NoReturn(fn.body)
    ensures CallFunction(fn, args, st, fuel).Ok? ==> CallFunction(fn, args, st, fuel).value.v == NewVar(JsUndef)
  {
    NoReturnNoSignal(fn.body, BindParams(fn.params, args, st + [map[]]), fuel);
  }

  /** A function whose body is `return e` yields e's value with the parameters bound. */
  lemma CallOfReturn(fn: FnStruct, e: Exp, args: seq<JsVar>, st: seq<Frame>, fuel: nat)
    requires |st| > 0
    requires fn.body == Ret(e)
    ensures var o := EvalExp(e, BindParams(fn.params, args, st + [map[]]), fuel);
      && (CallFunction(fn, args, st, fuel).Ok? <==> o.Ok?)
      && (o.Ok? ==> CallFunction(fn, args, st, fuel).value.v == o.value.v)
  {
  }

  /**
   * Every literal evaluates to the matching scalar, fresh and unbound, and leaves the store as it
   * was: `true`/`false` to a boolean, a number to itself, `undefined` to undefined.
   */
  lemma LiteralsEvaluate(b: bool, f: F64.Number, st: seq<Frame>, fuel: nat)
    requires |st| > 0
    ensures EvalExp(Bool(b), st, fuel) == Ok(ExpOut(NewVar(JsBool(b)), st))
    ensures EvalExp(Float(f), st, fuel) == Ok(ExpOut(NewVar(JsNum(f)), st))
    ensures EvalExp(Undefined, st, fuel) == Ok(ExpOut(NewVar(JsUndef), st))
  {
  }

  /**
   * A binary expression evaluates its left operand, then its right operand on the store the left
   * one left, and only then applies the operator: it fails with the first operand's fault.
   */
  lemma BinExpEvaluatesBoth(e1: Exp, op: BinOp, e2: Exp, st: seq<Frame>, fuel: nat)
    requires |st| > 0
    ensures EvalExp(e1, st, fuel).Err? ==> EvalExp(BinExp(e1, op, e2), st, fuel) == Err(EvalExp(e1, st, fuel).error)
    ensures EvalExp(e1, st, fuel).Ok? ==>
      var o1 := EvalExp(e1, st, fuel).value;
      var o2 := EvalExp(e2, o1.frames, fuel);
      && (o2.Err? ==> EvalExp(BinExp(e1, op, e2), st, fuel) == Err(o2.error))
      && (o2.Ok? ==> EvalExp(BinExp(e1, op, e2), st, fuel) == Ok(ExpOut(NewVar(BinValue(op, o1.v, o2.value.v)), o2.value.frames)))
  {
  }

  /**
   * `&&` and `||` do not short-circuit: even when the left operand decides the result, the right
   * operand runs, its fault is the expression's fault, and its store changes are kept.
   */
  lemma NoShortCircuit(e1: Exp, e2: Exp, st: seq<Frame>, fuel: nat)
    requires |st| > 0
    requires EvalExp(e1, st, fuel).Ok?
    ensures var o1 := EvalExp(e1, st, fuel).value;
      var o2 := EvalExp(e2, o1.frames, fuel);
      !Coerce.AsBool(o1.v) ==>
        && (o2.Err? ==> EvalExp(BinExp(e1, And, e2), st, fuel) == Err(o2.error))
        && (o2.Ok? ==> EvalExp(BinExp(e1, And, e2), st, fuel) == Ok(ExpOut(NewVar(JsBool(false)), o2.value.frames)))
    ensures var o1 := EvalExp(e1, st, fuel).value;
      var o2 := EvalExp(e2, o1.frames, fuel);
      Coerce.AsBool(o1.v) ==>
        && (o2.Err? ==> EvalExp(BinExp(e1, Or, e2), st, fuel) == Err(o2.error))
        && (o2.Ok? ==> EvalExp(BinExp(e1, Or, e2), st, fuel) == Ok(ExpOut(NewVar(JsBool(true)), o2.value.frames)))
  {
  }

  // ---------------------------------------------------------------------------------------------
  // Programs from the source's tests and examples.

  /** Literals evaluate to the matching scalar: `5.0`, `0.0` and `undefined`. */
  lemma LiteralExamples(st: seq<Frame>, fuel: nat)
    requires |st| > 0
    ensures EvalStmt(BareExp(Float(F64.FromInt(5))), st, fuel) == Ok(StmtOut(NewVar(JsNum(F64.FromInt(5))), None, st))
    ensures EvalStmt(BareExp(Float(F64.Zero)), st, fuel) == Ok(StmtOut(NewVar(JsNum(F64.Zero)), None, st))
    ensures EvalStmt(BareExp(Undefined), st, fuel) == Ok(StmtOut(NewVar(JsUndef), None, st))
  {
  }

  /** `2.0 + 4.0` is 6, `2.0 / 4.0` is 0.5, `2.0 - 4.0` is -2 and `2.0 * 4.0` is 8. */
  lemma ArithmeticExamples(st: seq<Frame>, fuel: nat)
    requires |st| > 0
    ensures EvalExp(BinExp(Float(F64.FromInt(2)), Plus, Float(F64.FromInt(4))), st, fuel) == Ok(ExpOut(NewVar(JsNum(F64.FromInt(6))), st))
    ensures EvalExp(BinExp(Float(F64.FromInt(2)), Slash, Float(F64.FromInt(4))), st, fuel) == Ok(ExpOut(NewVar(JsNum(F64.Finite(0.5))), st))
    ensures EvalExp(BinExp(Float(F64.FromInt(2)), Minus, Float(F64.FromInt(4))), st, fuel) == Ok(ExpOut(NewVar(JsNum(F64.FromInt(-2))), st))
    ensures EvalExp(BinExp(Float(F64.FromInt(2)), Star, Float(F64.FromInt(4))), st, fuel) == Ok(ExpOut(NewVar(JsNum(F64.FromInt(8))), st))
  {
    assert EvalExp(Float(F64.FromInt(2)), st, fuel) == Ok(ExpOut(NewVar(JsNum(F64.FromInt(2))), st));
    assert EvalExp(Float(F64.FromInt(4)), st, fuel) == Ok(ExpOut(NewVar(JsNum(F64.FromInt(4))), st));
  }

  /** `var a = 1; a++; a` yields 2, and `a` is stored as 2 under its name. */
  lemma DeclarationExample(fuel: nat)
    ensures var r := EvalStmt(Seq(Decl("a", Float(F64.One)), Seq(BareExp(PostInc(Var("a"))), BareExp(Var("a")))), [map[]], fuel);
      && r.Ok?
      && r.value.v == JsVar(Named("a"), JsNum(F64.FromInt(2)))
      && Get(r.value.frames, "a") == Some(JsNum(F64.FromInt(2)))
  {
    var st0: seq<Frame> := [map[]];
    var v1 := JsVar(Named("a"), JsNum(F64.One));
    assert EvalExp(Float(F64.One), st0, fuel) == Ok(ExpOut(NewVar(JsNum(F64.One)), st0));
    var st1 := AllocF(st0, "a", Slot(v1, None));
    assert EvalStmt(Decl("a", Float(F64.One)), st0, fuel) == Ok(StmtOut(v1, None, st1));
    assert Get(st1, "a") == Some(JsNum(F64.One));
    var v2 := JsVar(Named("a"), JsNum(F64.FromInt(2)));
    var st2 := InsertF(st1, "a", Slot(v2, None));
    assert PostOp(Var("a"), st1, Increment) == Ok(ExpOut(NewVar(JsNum(F64.One)), st2));
    assert EvalStmt(BareExp(PostInc(Var("a"))), st1, fuel) == Ok(StmtOut(NewVar(JsNum(F64.One)), None, st2));
    assert EvalStmt(BareExp(Var("a")), st2, fuel) == Ok(StmtOut(v2, None, st2));
  }

  /**
   * A call whose callee and arguments evaluate to a stored function runs that function one step
   * down, or fails for want of steps.
   */
  lemma CallThrough(callee: Exp, args: seq<Exp>, st: seq<Frame>, fuel: nat,
                    fv: JsVar, st1: seq<Frame>, vs: seq<JsVar>, st2: seq<Frame>, fn: FnStruct)
    requires |st| > 0
    requires EvalExp(callee, st, fuel) == Ok(ExpOut(fv, st1))
    requires EvalExps(args, st1, fuel) == Ok(ExpsOut(vs, st2))
    requires Lookup(st2, fv.binding).Some? && Lookup(st2, fv.binding).value.ptr == Some(JsFn(fn))
    ensures EvalExp(Call(callee, args), st, fuel) ==
      if fuel == 0 then Err(OutOfFuel) else CallFunction(fn, vs, st2, fuel - 1)
  {
  }

  /** `function id(x) { return x; }` */
  const IdFunction: Exp := Defun(Some("id"), ["x"], Ret(Var("x")))

  /** `id(5)` after defining `id` is 5, and the call leaves a single global scope behind. */
  lemma CallExample()
    ensures var r := EvalStmt(Seq(BareExp(IdFunction), BareExp(Call(Var("id"), [Float(F64.FromInt(5))]))), [map[]], 1);
      && r.Ok?
      && r.value.v.t == JsNum(F64.FromInt(5))
      && |r.value.frames| == 1
  {
    var st0: seq<Frame> := [map[]];
    var fn := FnStruct(Some("id"), ["x"], Ret(Var("x")));
    var v := JsVar(Named("id"), JsPtr(FnTag));
    var st1 := AllocF(st0, "id", Slot(v, Some(JsFn(fn))));
    assert EvalStmt(BareExp(IdFunction), st0, 1) == Ok(StmtOut(v, None, st1));
    var five := NewVar(JsNum(F64.FromInt(5)));
    assert EvalExp(Var("id"), st1, 1) == Ok(ExpOut(v, st1));
    assert EvalExp(Float(F64.FromInt(5)), st1, 1) == Ok(ExpOut(five, st1));
    var args := [Float(F64.FromInt(5))];
    assert args[1..] == [];
    assert EvalExps(args[1..], st1, 1) == Ok(ExpsOut([], st1));
    assert [five] + [] == [five];
    assert EvalExps(args, st1, 1) == Ok(ExpsOut([five], st1));
    var x := JsVar(Named("x"), JsNum(F64.FromInt(5)));
    var bound := AllocF(st1 + [map[]], "x", Slot(x, None));
    assert BindParams(["x"], [five], st1 + [map[]]) == bound;
    assert EvalStmt(Ret(Var("x")), bound, 0) == Ok(StmtOut(x, Some(x), bound));
    assert CallFunction(fn, [five], st1, 0) == Ok(ExpOut(x, bound[..1]));
    CallThrough(Var("id"), args, st1, 1, v, st1, [five], st1, fn);
  }

  /** `i - 1` in the body of `factorial`. */
  const FactorialArgs: seq<Exp> := [BinExp(Var("i"), Minus, Float(F64.One))]

  /** The recursive call `factorial(i - 1)`. */
  const FactorialCall: Exp := Call(Var("factorial"), FactorialArgs)

  /** The body of the sample program's `factorial`, as the parser reads it. */
  const FactorialBody: Stmt :=
    Seq(
      If(BinExp(Var("i"), Lt, Float(F64.FromInt(2))), Ret(Float(F64.One)), None),
      Ret(BinExp(Var("i"), Star, FactorialCall)))

  const Factorial: FnStruct := FnStruct(Some("factorial"), ["i"], FactorialBody)

  /** What `function factorial(i) {...}` stores under its name. */
  const FactorialSlot: Slot := Slot(JsVar(Named("factorial"), JsPtr(FnTag)), Some(JsFn(Factorial)))

  /** The guard statement `if (i < 2) { return 1; }` succeeds and leaves the store as it was. */
  lemma FactorialGuard(st: seq<Frame>, fuel: nat)
    requires |st| > 0
    requires Lookup(st, Named("i")).Some?
    ensures EvalStmt(FactorialBody.first, st, fuel).Ok?
    ensures EvalStmt(FactorialBody.first, st, fuel).value.frames == st
  {
    var iv := Lookup(st, Named("i")).value.v;
    var two := Float(F64.FromInt(2));
    assert EvalExp(Var("i"), st, fuel) == Ok(ExpOut(iv, st));
    assert EvalExp(two, st, fuel) == Ok(ExpOut(NewVar(JsNum(F64.FromInt(2))), st));
    var cond := BinExp(Var("i"), Lt, two);
    var c := EvalExp(cond, st, fuel);
    assert c.Ok? && c.value.frames == st;
    assert EvalExp(Float(F64.One), st, fuel) == Ok(ExpOut(NewVar(JsNum(F64.One)), st));
    var ret := EvalStmt(Ret(Float(F64.One)), st, fuel);
    assert ret.Ok? && ret.value.frames == st;
    assert FactorialBody.first == If(cond, Ret(Float(F64.One)), None);
  }

  /** The argument list `(i - 1)` evaluates to one value and leaves the store as it was. */
  lemma FactorialArgument(st: seq<Frame>, fuel: nat)
    requires |st| > 0
    requires Lookup(st, Named("i")).Some?
    ensures var r := EvalExps(FactorialArgs, st, fuel); r.Ok? && r.value.frames == st
  {
    var iv := Lookup(st, Named("i")).value.v;
    assert EvalExp(Var("i"), st, fuel) == Ok(ExpOut(iv, st));
    assert EvalExp(Float(F64.One), st, fuel) == Ok(ExpOut(NewVar(JsNum(F64.One)), st));
    var dec := EvalExp(FactorialArgs[0], st, fuel);
    assert dec.Ok? && dec.value.frames == st;
    assert FactorialArgs[1..] == [];
    assert EvalExps(FactorialArgs[1..], st, fuel) == Ok(ExpsOut([], st));
  }

  /** The recursive call looks `factorial` up again and fails when the call it makes fails. */
  lemma FactorialRecursion(fn: FnStruct, st: seq<Frame>, fuel: nat, vs: seq<JsVar>)
    requires |st| > 0
    requires Lookup(st, Named("factorial")) == Some(Slot(JsVar(Named("factorial"), JsPtr(FnTag)), Some(JsFn(fn))))
    requires EvalExps(FactorialArgs, st, fuel) == Ok(ExpsOut(vs, st))
    requires fuel > 0 ==> CallFunction(fn, vs, st, fuel - 1) == Err(OutOfFuel)
    ensures EvalExp(FactorialCall, st, fuel) == Err(OutOfFuel)
  {
    var fv := JsVar(Named("factorial"), JsPtr(FnTag));
    assert EvalExp(Var("factorial"), st, fuel) == Ok(ExpOut(fv, st));
    CallThrough(Var("factorial"), FactorialArgs, st, fuel, fv, st, vs, st, fn);
  }

  /** When the recursive call fails, the whole body fails the same way. */
  lemma FactorialBodyFails(st: seq<Frame>, fuel: nat)
    requires |st| > 0
    requires Lookup(st, Named("i")).Some?
    requires EvalExp(FactorialCall, st, fuel) == Err(OutOfFuel)
    ensures EvalStmt(FactorialBody, st, fuel) == Err(OutOfFuel)
  {
    FactorialGuard(st, fuel);
    var iv := Lookup(st, Named("i")).value.v;
    assert EvalExp(Var("i"), st, fuel) == Ok(ExpOut(iv, st));
    assert EvalExp(BinExp(Var("i"), Star, FactorialCall), st, fuel) == Err(OutOfFuel);
    assert FactorialBody.second == Ret(BinExp(Var("i"), Star, FactorialCall));
  }

  /** Inside a call of `factorial`, `i` is bound and `factorial` is still visible. */
  lemma FactorialFrame(params: seq<string>, args: seq<JsVar>, st: seq<Frame>)
    requires params == ["i"]
    requires |st| > 0
    ensures var bound := BindParams(params, args, st + [map[]]);
      Lookup(bound, Named("i")).Some? && Lookup(bound, Named("factorial")) == Lookup(st, Named("factorial"))
  {
    PushPreservesLookup(st, Named("factorial"));
    BindParamsBinds(params, args, st + [map[]]);
    assert params[0] == "i";
    assert "factorial" !in params;
  }

  /** `st` holds the sample `factorial` under its own name. */
  predicate HoldsFactorial(st: seq<Frame>)
  {
    Lookup(st, Named("factorial")) == Some(FactorialSlot)
  }

  /** Every call of `factorial`, from any store that holds it, runs out of `fuel` steps. */
  ghost predicate AllCallsFail(fuel: nat)
  {
    forall a: seq<JsVar>, s: seq<Frame> | |s| > 0 && HoldsFactorial(s) ::
      CallFunction(Factorial, a, s, fuel) == Err(OutOfFuel)
  }

  /**
   * One level of the recursion: a call of `factorial` fails when every call of it with one step
   * less fails.
   */
  lemma FactorialStep(args: seq<JsVar>, st: seq<Frame>, fuel: nat)
    requires |st| > 0 && HoldsFactorial(st)
    requires fuel > 0 ==> AllCallsFail(fuel - 1)
    ensures CallFunction(Factorial, args, st, fuel) == Err(OutOfFuel)
  {
    var bound := BindParams(Factorial.params, args, st + [map[]]);
    FactorialFrame(Factorial.params, args, st);
    FactorialArgument(bound, fuel);
    var vs := EvalExps(FactorialArgs, bound, fuel).value.vs;
    FactorialRecursion(Factorial, bound, fuel, vs);
    FactorialBodyFails(bound, fuel);
    CallFailsWithBody(Factorial, args, st, fuel, OutOfFuel);
  }

  /**
   * A call of the sample `factorial` never finishes, for any argument and any step bound: the
   * base case's `return 1` is discarded by the sequence and the recursive call always runs.
   */
  lemma {:induction false} FactorialDiverges(args: seq<JsVar>, st: seq<Frame>, fuel: nat)
    requires |st| > 0 && HoldsFactorial(st)
    ensures CallFunction(Factorial, args, st, fuel) == Err(OutOfFuel)
    decreases fuel
  {
    if fuel > 0 {
      var f: nat := fuel - 1;
      forall a: seq<JsVar>, s: seq<Frame> | |s| > 0 && HoldsFactorial(s)
        ensures CallFunction(Factorial, a, s, f) == Err(OutOfFuel)
      {
        FactorialDiverges(a, s, f);
      }
    }
    FactorialStep(args, st, fuel);
  }

  /** The sample program `function factorial(i) {...}; factorial(1)` runs out of every bound. */
  lemma FactorialProgramDiverges(fuel: nat)
    ensures EvalStmt(Seq(BareExp(Defun(Some("factorial"), ["i"], FactorialBody)),
                         BareExp(Call(Var("factorial"), [Float(F64.One)]))), [map[]], fuel) == Err(OutOfFuel)
  {
    var defun := Defun(Some("factorial"), ["i"], FactorialBody);
    var fv := JsVar(Named("factorial"), JsPtr(FnTag));
    var st1 := AllocF([map[]], "factorial", FactorialSlot);
    assert EvalExp(defun, [map[]], fuel) == Ok(ExpOut(fv, st1));
    assert EvalStmt(BareExp(defun), [map[]], fuel) == Ok(StmtOut(fv, None, st1));
    FactorialTopCall(st1, fuel);
  }

  /** The top-level call `factorial(1)` after the declaration fails like every call of it. */
  lemma FactorialTopCall(st: seq<Frame>, fuel: nat)
    requires |st| > 0 && HoldsFactorial(st)
    ensures EvalStmt(BareExp(Call(Var("factorial"), [Float(F64.One)])), st, fuel) == Err(OutOfFuel)
  {
    FactorialTopExp(st, fuel);
  }

  lemma FactorialTopExp(st: seq<Frame>, fuel: nat)
    requires |st| > 0 && HoldsFactorial(st)
    ensures EvalExp(Call(Var("factorial"), [Float(F64.One)]), st, fuel) == Err(OutOfFuel)
  {
    var fv := JsVar(Named("factorial"), JsPtr(FnTag));
    var one := NewVar(JsNum(F64.One));
    FactorialCallee(st, fuel);
    OneArgument(st, fuel);
    CallThrough(Var("factorial"), [Float(F64.One)], st, fuel, fv, st, [one], st, Factorial);
    if fuel > 0 {
      FactorialDiverges([one], st, fuel - 1);
    }
  }

  /** The name `factorial` evaluates to the function's variable and leaves the store as it was. */
  lemma FactorialCallee(st: seq<Frame>, fuel: nat)
    requires |st| > 0 && HoldsFactorial(st)
    ensures EvalExp(Var("factorial"), st, fuel) == Ok(ExpOut(JsVar(Named("factorial"), JsPtr(FnTag)), st))
  {
  }

  /** The argument list `(1)` evaluates to the number 1 and leaves the store as it was. */
  lemma OneArgument(st: seq<Frame>, fuel: nat)
    requires |st| > 0
    ensures EvalExps([Float(F64.One)], st, fuel) == Ok(ExpsOut([NewVar(JsNum(F64.One))], st))
  {
    var one := NewVar(JsNum(F64.One));
    assert EvalExp(Float(F64.One), st, fuel) == Ok(ExpOut(one, st));
    assert [Float(F64.One)][1..] == [];
    assert EvalExps([], st, fuel) == Ok(ExpsOut([], st));
    assert [one] + [] == [one];
  }

  /** A function expression without a name, as in the sample closure program, is a panic. */
  lemma AnonymousFunctionsPanic(params: seq<string>, body: Stmt, st: seq<Frame>, fuel: nat)
    requires |st| > 0
    ensures EvalExp(Defun(None, params, body), st, fuel) == Err(AnonymousFunction)
  {
  }
}
