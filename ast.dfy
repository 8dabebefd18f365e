/**
 * The statement and expression syntax that the evaluator of src/eval/mod.rs consumes. The parser
 * that produces it is not part of this model; the evaluator takes the tree as input.
 */
module Ast {
  import opened Wrappers
  import opened F64

  /** The binary operators of this revision of the syntax (no strict equality yet). */
  datatype BinOp = And | Or | Ge | Gt | Le | Lt | Neq | Eql | Minus | Plus | Slash | Star

  datatype Exp =
    | BinExp(left: Exp, op: BinOp, right: Exp)
    | Bool(b: bool)
    | Call(callee: Exp, args: seq<Exp>)
    | Defun(fname: Option<string>, params: seq<string>, body: Stmt)
    | Float(f: Number)
    | Neg(operand: Exp)
    | Pos(operand: Exp)
    | PostDec(operand: Exp)
    | PostInc(operand: Exp)
    | PreDec(operand: Exp)
    | PreInc(operand: Exp)
    | NewObject(className: string, ctorArgs: seq<Exp>)
    | Object(fields: seq<Field>)
    | Undefined
    | Var(name: string)

  /** One `key: value` entry of an object literal. */
  datatype Field = Field(key: string, value: Exp)

  datatype Stmt =
    | Assign(target: string, rhs: Exp)
    | BareExp(exp: Exp)
    | Decl(target: string, rhs: Exp)
    | If(cond: Exp, thenBlock: Stmt, elseBlock: Option<Stmt>)
    | Ret(exp: Exp)
    | Seq(first: Stmt, second: Stmt)
    | While(cond: Exp, block: Stmt)
}
