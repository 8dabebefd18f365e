/**
 * The arithmetic evaluator of src/eval.rs: expressions over integer and float literals combined
 * with `*`, `+` and `-`, evaluated bottom-up to a literal.
 *
 * Integer literals are unbounded here: the overflow of the source's machine integers is not
 * modelled.
 */
module Arith {
  import opened F64

  datatype Op = Star | Plus | Minus

  datatype Exp = Int(i: int) | Float(f: Number) | BinExp(left: Exp, op: Op, right: Exp)

  /** A literal: what evaluation produces. */
  predicate IsValue(e: Exp)
  {
    e.Int? || e.Float?
  }

  /** The operand pairs that reach the catch-all `_ => Float(NaN)` arm. */
  predicate IsFallback(a: Exp, b: Exp)
  {
    !(IsValue(a) && IsValue(b))
  }

  function IntOp(op: Op, i1: int, i2: int): int
  {
    match op
    case Star => i1 * i2
    case Plus => i1 + i2
    case Minus => i1 - i2
  }

  function FloatOp(op: Op, f1: Number, f2: Number): Number
  {
    match op
    case Star => Mul(f1, f2)
    case Plus => Add(f1, f2)
    case Minus => Sub(f1, f2)
  }

  /**
   * One operator applied to two evaluated operands: integers stay integers, a float on either side
   * promotes the integer with `as f64`, and any other pair falls through to NaN.
   */
  function Combine(op: Op, a: Exp, b: Exp): (r: Exp)
    ensures IsValue(r)
  {
    match (a, b)
    case (Int(i1), Int(i2)) => Int(IntOp(op, i1, i2))
    case (Float(f1), Int(i2)) => Float(FloatOp(op, f1, FromInt(i2)))
    case (Int(i1), Float(f2)) => Float(FloatOp(op, FromInt(i1), f2))
    case (Float(f1), Float(f2)) => Float(FloatOp(op, f1, f2))
    case _ => Float(NaN)
  }

  /** `eval`: literals are returned as they are; a `BinExp` evaluates both sides, then combines. */
  function Eval(e: Exp): (r: Exp)
    ensures IsValue(r)
    ensures IsValue(e) ==> r == e
    ensures e.BinExp? ==> !IsFallback(Eval(e.left), Eval(e.right))
  {
    match e
    case Int(i) => Int(i)
    case Float(f) => Float(f)
    case BinExp(e1, op, e2) =>
      var v1 := Eval(e1);
      var v2 := Eval(e2);
      Combine(op, v1, v2)
  }

  // ---------------------------------------------------------------------------------------------
  // Reference readings of an expression.

  predicate AllInt(e: Exp)
  {
    match e
    case Int(_) => true
    case Float(_) => false
    case BinExp(l, _, r) => AllInt(l) && AllInt(r)
  }

  predicate HasFloat(e: Exp)
  {
    match e
    case Int(_) => false
    case Float(_) => true
    case BinExp(l, _, r) => HasFloat(l) || HasFloat(r)
  }

  /** The mathematical integer value of a tree of integer literals. */
  function IntDenote(e: Exp): int
    requires AllInt(e)
  {
    match e
    case Int(i) => i
    case BinExp(l, op, r) => IntOp(op, IntDenote(l), IntDenote(r))
  }

  /** The value of a tree when every literal is read as an f64. */
  function FloatDenote(e: Exp): Number
  {
    match e
    case Int(i) => FromInt(i)
    case Float(f) => f
    case BinExp(l, op, r) => FloatOp(op, FloatDenote(l), FloatDenote(r))
  }

  /** A literal as an f64. */
  function AsFloat(v: Exp): Number
    requires IsValue(v)
  {
    if v.Int? then FromInt(v.i) else v.f
  }

  /** f64 equality that also relates NaN to itself. */
  predicate Same(a: Number, b: Number)
  {
    Eq(a, b) || (a.NaN? && b.NaN?)
  }

  // ---------------------------------------------------------------------------------------------
  // Properties.

  /** Evaluating a value is the identity, and evaluation is idempotent. */
  lemma EvalIdempotent(e: Exp)
    ensures Eval(Eval(e)) == Eval(e)
  {
  }

  /** A tree of integer literals evaluates to the integer its operators denote. */
  lemma {:induction false} AllIntEvaluatesToInt(e: Exp)
    requires AllInt(e)
    ensures Eval(e) == Int(IntDenote(e))
  {
    match e
    case Int(_) =>
    case BinExp(l, _, r) =>
      AllIntEvaluatesToInt(l);
      AllIntEvaluatesToInt(r);
  }

  /** The result is a float exactly when some literal in the tree is a float (promotion). */
  lemma {:induction false} FloatIffFloatLeaf(e: Exp)
    ensures Eval(e).Float? <==> HasFloat(e)
  {
    match e
    case Int(_) =>
    case Float(_) =>
    case BinExp(l, _, r) =>
      FloatIffFloatLeaf(l);
      FloatIffFloatLeaf(r);
  }

  /** Neither side of the pair a `BinExp` combines ever reaches the NaN fallback. */
  lemma FallbackUnreachable(e1: Exp, op: Op, e2: Exp)
    ensures !IsFallback(Eval(e1), Eval(e2))
    ensures Eval(BinExp(e1, op, e2)) == Combine(op, Eval(e1), Eval(e2))
  {
  }

  /** Each f64 operator respects `Same`, so equal-up-to-zero-sign operands give such results. */
  lemma FloatOpCongruent(op: Op, a: Number, a': Number, b: Number, b': Number)
    requires Same(a, a') && Same(b, b')
    ensures Same(FloatOp(op, a, b), FloatOp(op, a', b'))
  {
    if op.Minus? {
      assert Same(Neg(b), Neg(b'));
    }
  }

  /**
   * Evaluating with integer arithmetic where both operands are integers agrees with reading every
   * literal as an f64, up to the sign of zero (for example `0 * -3` is the integer 0 but the f64
   * -0) — integer overflow and f64 rounding aside.
   */
  lemma {:induction false} AgreesWithFloatReading(e: Exp)
    ensures Same(AsFloat(Eval(e)), FloatDenote(e))
  {
    match e
    case Int(_) =>
    case Float(f) =>
    case BinExp(l, op, r) =>
      AgreesWithFloatReading(l);
      AgreesWithFloatReading(r);
      var v1, v2 := Eval(l), Eval(r);
      FloatOpCongruent(op, AsFloat(v1), FloatDenote(l), AsFloat(v2), FloatDenote(r));
      if v1.Int? && v2.Int? {
        IntOpIsFloatOp(op, v1.i, v2.i);
      }
  }

  /** On integers the f64 operator and the integer operator agree up to the sign of zero. */
  lemma IntOpIsFloatOp(op: Op, i1: int, i2: int)
    ensures Same(FromInt(IntOp(op, i1, i2)), FloatOp(op, FromInt(i1), FromInt(i2)))
  {
  }

  /** A sample: `3 * 4 + 2.5` evaluates to the float 14.5. */
  lemma Example()
    ensures Eval(BinExp(BinExp(Int(3), Star, Int(4)), Plus, Float(Finite(2.5)))) == Float(Finite(14.5))
  {
  }
}
