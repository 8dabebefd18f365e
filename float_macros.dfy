/**
 * The earlier helper macros of src/macros.rs, from the revision whose evaluator maps expressions
 * to expressions: a number is a `Float` expression, and the store is a StateManager holding
 * expressions under variable names.
 */
module FloatMacros {
  import opened Wrappers
  import opened F64
  import opened State

  /**
   * The expression forms this revision's macros match on. The binary operator is kept as its
   * source text, since these macros never look at it.
   */
  datatype Exp =
    | BinExp(left: Exp, op: string, right: Exp)
    | Float(f: Number)
    | Neg(operand: Exp)
    | Pos(operand: Exp)
    | PostDec(operand: Exp)
    | PostInc(operand: Exp)
    | PreDec(operand: Exp)
    | PreInc(operand: Exp)
    | Undefined
    | Var(name: string)

  /** `eval_float_binop`: `out` of the two numbers when both sides are `Float`, otherwise NaN. */
  function FloatBinop(left: Exp, right: Exp, out: (Number, Number) -> Number): (r: Exp)
    ensures r.Float?
    ensures left.Float? && right.Float? ==> r.f == out(left.f, right.f)
    ensures !(left.Float? && right.Float?) ==> r.f.NaN?
  {
    match (left, right)
    case (Float(f1), Float(f2)) => Float(out(f1, f2))
    case _ => Float(NaN)
  }

  /** With an arithmetic operator, NaN results from any operand that is not a non-NaN number. */
  lemma BinopPoisonedByNonNumbers(left: Exp, right: Exp)
    requires !left.Float? || left.f.NaN? || !right.Float? || right.f.NaN?
    ensures FloatBinop(left, right, Add).f.NaN?
    ensures FloatBinop(left, right, Sub).f.NaN?
    ensures FloatBinop(left, right, Mul).f.NaN?
    ensures FloatBinop(left, right, Div).f.NaN?
  {
    if left.Float? && right.Float? {
      NaNPropagates(left.f, right.f);
    }
  }

  /** The name of an expression form, as the panic messages spell it. */
  function FormName(e: Exp): string
  {
    match e
    case BinExp(_, _, _) => "BinExp"
    case Float(_) => "Float"
    case Neg(_) => "Neg"
    case Pos(_) => "Pos"
    case PostDec(_) => "PostDec"
    case PostInc(_) => "PostInc"
    case PreDec(_) => "PreDec"
    case PreInc(_) => "PreInc"
    case Undefined => "Undefined"
    case Var(_) => "Var"
  }

  /**
   * `eval_float_sign` applied to what `eval` returned for the operand: a `Float` goes through `op`,
   * `Undefined` becomes NaN, and any other form is a panic naming the operator and the form.
   */
  function FloatSign(name: string, evaluated: Exp, op: Number -> Number): (r: Result<Exp, string>)
    ensures r.Ok? <==> evaluated.Float? || evaluated.Undefined?
    ensures r.Ok? ==> r.value.Float?
    ensures evaluated.Float? ==> r == Ok(Float(op(evaluated.f)))
    ensures evaluated.Undefined? ==> r == Ok(Float(NaN))
    ensures r.Err? ==> r.error == "error in " + name + ": `eval` should never return " + FormName(evaluated)
  {
    match evaluated
    case Float(f) => Ok(Float(op(f)))
    case Undefined => Ok(Float(NaN))
    case _ => Err("error in " + name + ": `eval` should never return " + FormName(evaluated))
  }

  /** The forms `eval` can return, where `FloatSign` does not panic, are exactly its values. */
  lemma SignPanicsOnlyOnUnevaluatedForms(name: string, evaluated: Exp, op: Number -> Number)
    ensures FloatSign(name, evaluated, op).Err? <==> FormName(evaluated) !in {"Float", "Undefined"}
  {
  }

  function UndefinedVariable(name: string): string
  {
    "undefined variable `" + name + "`"
  }

  /**
   * `eval_float_post_op` on a store `vars`: the operand must be a variable holding a `Float` f;
   * `step(f)` is stored under the name and `Float(f)` is the value, together with the new store.
   */
  function PostOp(err: string, e: Exp, vars: map<string, Exp>, step: Number -> Number): (r: Result<(Exp, map<string, Exp>), string>)
    ensures r.Ok? <==> e.Var? && e.name in vars && vars[e.name].Float?
    ensures r.Ok? ==>
      && r.value.0 == vars[e.name]
      && r.value.1 == vars[e.name := Float(step(vars[e.name].f))]
    ensures !e.Var? ==> r == Err(err)
    ensures e.Var? && r.Err? ==> r.error == UndefinedVariable(e.name)
  {
    match e
    case Var(x) =>
      if x in vars && vars[x].Float? then Ok((Float(vars[x].f), vars[x := Float(step(vars[x].f))]))
      else Err(UndefinedVariable(x))
    case _ => Err(err)
  }

  /** `eval_float_pre_op`: as the postfix form, except that the value is the stored `Float(step(f))`. */
  function PreOp(err: string, e: Exp, vars: map<string, Exp>, step: Number -> Number): (r: Result<(Exp, map<string, Exp>), string>)
    ensures r.Ok? <==> e.Var? && e.name in vars && vars[e.name].Float?
    ensures r.Ok? ==>
      && r.value.0 == Float(step(vars[e.name].f))
      && r.value.1 == vars[e.name := r.value.0]
    ensures !e.Var? ==> r == Err(err)
    ensures e.Var? && r.Err? ==> r.error == UndefinedVariable(e.name)
  {
    match e
    case Var(x) =>
      if x in vars && vars[x].Float? then Ok((Float(step(vars[x].f)), vars[x := Float(step(vars[x].f))]))
      else Err(UndefinedVariable(x))
    case _ => Err(err)
  }

  /**
   * The two forms store the same thing and touch no other name; the prefix value is the postfix
   * value stepped once.
   */
  lemma PostAndPreAgree(err: string, e: Exp, vars: map<string, Exp>, step: Number -> Number)
    ensures PostOp(err, e, vars, step).Ok? == PreOp(err, e, vars, step).Ok?
    ensures PostOp(err, e, vars, step).Ok? ==>
      && PostOp(err, e, vars, step).value.1 == PreOp(err, e, vars, step).value.1
      && PreOp(err, e, vars, step).value.0 == Float(step(PostOp(err, e, vars, step).value.0.f))
      && forall other :: other != e.name ==>
           (other in vars <==> other in PostOp(err, e, vars, step).value.1) &&
           (other in vars ==> PostOp(err, e, vars, step).value.1[other] == vars[other])
  {
  }

  /** The postfix macro run on a StateManager: on success the store is updated in place. */
  method PostOpM(sm: StateManager<Exp>, err: string, e: Exp, step: Number -> Number) returns (r: Result<Exp, string>)
    modifies sm
    ensures var spec := PostOp(err, e, old(sm.vars), step);
      && (spec.Ok? ==> r == Ok(spec.value.0) && sm.vars == spec.value.1)
      && (spec.Err? ==> r == Err(spec.error) && sm.vars == old(sm.vars))
  {
    if !e.Var? {
      return Err(err);
    }
    var x := e.name;
    var cur := sm.Get(x);
    if cur.Some? && cur.value.Float? {
      var f := cur.value.f;
      var _ := sm.Insert(x, Float(step(f)));
      r := Ok(Float(f));
    } else {
      r := Err(UndefinedVariable(x));
    }
  }

  /** The prefix macro run on a StateManager. */
  method PreOpM(sm: StateManager<Exp>, err: string, e: Exp, step: Number -> Number) returns (r: Result<Exp, string>)
    modifies sm
    ensures var spec := PreOp(err, e, old(sm.vars), step);
      && (spec.Ok? ==> r == Ok(spec.value.0) && sm.vars == spec.value.1)
      && (spec.Err? ==> r == Err(spec.error) && sm.vars == old(sm.vars))
  {
    if !e.Var? {
      return Err(err);
    }
    var x := e.name;
    var cur := sm.Get(x);
    if cur.Some? && cur.value.Float? {
      var f := cur.value.f;
      var _ := sm.Insert(x, Float(step(f)));
      r := Ok(Float(step(f)));
    } else {
      r := Err(UndefinedVariable(x));
    }
  }
}
