/**
 * The binary-operator table of src/number.rs (`eval_binop`), over two backend variables.
 *
 * This revision's operator set has the strict equalities `===` and `!==` besides the twelve
 * operators of the statement evaluator's AST; the relation between the two tables is proved in
 * module Semantics.
 */
module BinaryOps {
  import opened F64
  import opened Types
  import Coerce

  datatype BinOp =
    | And | Or
    | Ge | Gt | Le | Lt
    | Neq | Eql
    | EqlStrict | NeqStrict
    | Minus | Plus | Slash | Star

  predicate IsComparison(op: BinOp)
  {
    op.Ge? || op.Gt? || op.Le? || op.Lt?
  }

  predicate IsLogical(op: BinOp)
  {
    op.And? || op.Or?
  }

  predicate IsEquality(op: BinOp)
  {
    op.Neq? || op.Eql? || op.EqlStrict? || op.NeqStrict?
  }

  predicate IsArithmetic(op: BinOp)
  {
    op.Minus? || op.Plus? || op.Slash? || op.Star?
  }

  /** Rust's ordering on `bool`: false < true. */
  predicate BoolLt(a: bool, b: bool)
  {
    !a && b
  }

  /** The operator table; every operator is total. */
  function EvalBinop(op: BinOp, v1: JsVar, v2: JsVar): JsType
  {
    match op
    case And => JsBool(Coerce.AsBool(v1) && Coerce.AsBool(v2))
    case Or => JsBool(Coerce.AsBool(v1) || Coerce.AsBool(v2))
    case Ge => JsBool(!BoolLt(Coerce.AsBool(v1), Coerce.AsBool(v2)))
    case Gt => JsBool(BoolLt(Coerce.AsBool(v2), Coerce.AsBool(v1)))
    case Le => JsBool(!BoolLt(Coerce.AsBool(v2), Coerce.AsBool(v1)))
    case Lt => JsBool(BoolLt(Coerce.AsBool(v1), Coerce.AsBool(v2)))
    case Neq => JsBool(Coerce.AsBool(v1) != Coerce.AsBool(v2))
    case Eql => JsBool(Coerce.AsBool(v1) == Coerce.AsBool(v2))
    case EqlStrict => JsBool(VarEq(v1, v2))
    case NeqStrict => JsBool(!VarEq(v1, v2))
    case Minus => JsNum(Sub(Coerce.AsNumber(v1), Coerce.AsNumber(v2)))
    case Plus => JsNum(Add(Coerce.AsNumber(v1), Coerce.AsNumber(v2)))
    case Slash => JsNum(Div(Coerce.AsNumber(v1), Coerce.AsNumber(v2)))
    case Star => JsNum(Mul(Coerce.AsNumber(v1), Coerce.AsNumber(v2)))
  }

  /** Comparison, logical and equality operators yield a boolean; the arithmetic ones a number. */
  lemma ResultKinds(op: BinOp, v1: JsVar, v2: JsVar)
    ensures IsComparison(op) || IsLogical(op) || IsEquality(op) ==> EvalBinop(op, v1, v2).JsBool?
    ensures IsArithmetic(op) ==> EvalBinop(op, v1, v2).JsNum?
  {
  }

  /**
   * And/Or are the conjunction and disjunction of the operands' truthiness: both operands are
   * always coerced, the result is a boolean rather than one of the operands, and the operators
   * are commutative.
   */
  lemma LogicalOperators(v1: JsVar, v2: JsVar)
    ensures EvalBinop(And, v1, v2).b <==> Coerce.AsBool(v1) && Coerce.AsBool(v2)
    ensures EvalBinop(Or, v1, v2).b <==> Coerce.AsBool(v1) || Coerce.AsBool(v2)
    ensures EvalBinop(And, v1, v2) == EvalBinop(And, v2, v1)
    ensures EvalBinop(Or, v1, v2) == EvalBinop(Or, v2, v1)
    ensures EvalBinop(Or, NewVar(JsNum(FromInt(7))), v2) == JsBool(true)
  {
  }

  /**
   * The relational operators compare truthiness, not numeric value: `2 < 3` is false because both
   * sides are true, and `0 < 5` is true because false < true.
   */
  lemma ComparisonsUseTruthiness(v1: JsVar, v2: JsVar)
    ensures EvalBinop(Lt, v1, v2).b <==> !Coerce.AsBool(v1) && Coerce.AsBool(v2)
    ensures EvalBinop(Gt, v1, v2).b <==> Coerce.AsBool(v1) && !Coerce.AsBool(v2)
    ensures EvalBinop(Le, v1, v2).b <==> !EvalBinop(Gt, v1, v2).b
    ensures EvalBinop(Ge, v1, v2).b <==> !EvalBinop(Lt, v1, v2).b
    ensures EvalBinop(Lt, v1, v2) == EvalBinop(Gt, v2, v1)
  {
  }

  /** A concrete consequence: two distinct non-zero numbers are never `<` each other. */
  lemma NumbersAreNotOrdered()
    ensures EvalBinop(Lt, NewVar(JsNum(FromInt(2))), NewVar(JsNum(FromInt(3)))) == JsBool(false)
    ensures EvalBinop(Lt, NewVar(JsNum(Zero)), NewVar(JsNum(FromInt(5)))) == JsBool(true)
  {
  }

  /** `!=` negates `==`, and `!==` negates `===`, for all operands. */
  lemma NegatedEqualities(v1: JsVar, v2: JsVar)
    ensures EvalBinop(Neq, v1, v2).b == !EvalBinop(Eql, v1, v2).b
    ensures EvalBinop(NeqStrict, v1, v2).b == !EvalBinop(EqlStrict, v1, v2).b
  {
  }

  /**
   * `==` compares truthiness only, while `===` is the derived structural equality, whose f64
   * comparison makes a NaN-valued variable unequal to itself.
   */
  lemma EqualitySemantics(v1: JsVar, v2: JsVar, name: string)
    ensures EvalBinop(Eql, v1, v2).b <==> Coerce.AsBool(v1) == Coerce.AsBool(v2)
    ensures EvalBinop(EqlStrict, v1, v2).b <==> VarEq(v1, v2)
    ensures EvalBinop(EqlStrict, JsVar(Named(name), JsNum(NaN)), JsVar(Named(name), JsNum(NaN))) == JsBool(false)
    ensures EvalBinop(Eql, NewVar(JsNum(FromInt(1))), NewVar(JsBool(true))) == JsBool(true)
  {
  }

  /** The arithmetic operators apply the f64 operator to the operands' numeric coercions. */
  lemma ArithmeticOperators(v1: JsVar, v2: JsVar)
    ensures EvalBinop(Plus, v1, v2) == JsNum(Add(Coerce.AsNumber(v1), Coerce.AsNumber(v2)))
    ensures EvalBinop(Minus, v1, v2) == JsNum(Sub(Coerce.AsNumber(v1), Coerce.AsNumber(v2)))
    ensures EvalBinop(Star, v1, v2) == JsNum(Mul(Coerce.AsNumber(v1), Coerce.AsNumber(v2)))
    ensures EvalBinop(Slash, v1, v2) == JsNum(Div(Coerce.AsNumber(v1), Coerce.AsNumber(v2)))
    ensures EvalBinop(Plus, NewVar(JsUndef), v2) == JsNum(NaN)
  {
  }

  /** An undefined or pointer operand on either side makes every arithmetic operator NaN. */
  lemma ArithmeticPoisonedByNonNumbers(op: BinOp, v1: JsVar, v2: JsVar)
    requires IsArithmetic(op)
    ensures v1.t.JsUndef? || v2.t.JsUndef? || v1.t.JsPtr? || v2.t.JsPtr? ==> EvalBinop(op, v1, v2) == JsNum(NaN)
  {
    ArithmeticOperators(v1, v2);
  }

  /** Booleans count as 1 and 0, and null as 0. */
  lemma BooleansAndNullAsNumbers(v1: JsVar, v2: JsVar)
    ensures v1.t.JsBool? && v2.t.JsBool? ==>
      var r := EvalBinop(Plus, v1, v2).n;
      IsFinite(r) && Val(r) == (if v1.t.b then 1.0 else 0.0) + (if v2.t.b then 1.0 else 0.0)
    ensures v1.t.JsNull? && v2.t.JsNum? && IsFinite(v2.t.n) ==>
      var r := EvalBinop(Plus, v1, v2).n;
      IsFinite(r) && Val(r) == Val(v2.t.n)
  {
  }

  /** On finite numbers the arithmetic operators are real arithmetic, division by a non-zero. */
  lemma ArithmeticOnFiniteNumbers(v1: JsVar, v2: JsVar)
    requires v1.t.JsNum? && v2.t.JsNum? && IsFinite(v1.t.n) && IsFinite(v2.t.n)
    ensures var a, b := Val(v1.t.n), Val(v2.t.n);
      && Val(EvalBinop(Plus, v1, v2).n) == a + b
      && Val(EvalBinop(Minus, v1, v2).n) == a - b
      && Val(EvalBinop(Star, v1, v2).n) == a * b
      && (b != 0.0 ==> Val(EvalBinop(Slash, v1, v2).n) == a / b)
  {
  }
}
