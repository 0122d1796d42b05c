/**
 The part of the syntax tree the generator and the tree evaluator work on
 (compiler/ast).  Lists are the slices of the Go structs.
 */
module Ast {
  import opened Wrappers

  /** Names of variables, methods, keywords and classes.  Only their equality
      matters, so they are numbers; these few the compiler knows by their text. */
  type Name = int

  const BLANK: Name := 0           // `_`
  const DEFER_NAME: Name := 1      // `defer`
  const BANG: Name := 2            // `!`
  const ADD_NAME: Name := 3        // `+`
  const MINUS_NAME: Name := 4      // `-`
  const LESS_NAME: Name := 5       // `<`
  const LESS_EQUAL_NAME: Name := 6
  const GREATER_NAME: Name := 7
  const GREATER_EQUAL_NAME: Name := 8

  datatype Expr =
    | IntLit(n: int)
    | StrLit(s: string)
    | BoolLit(b: bool)
    | NilLit
    | SelfRef
    | BlockGiven                                   // `block?`
    | ArrayLit(elems: seq<Expr>)
    | Ident(name: Name)
    | Assign(vars: seq<Name>, value: Expr)       // one variable, or several
    | Logic(conj: bool, left: Expr, right: Expr)   // `&&` when conj, else `||`
    | Infix(op: Name, left: Expr, right: Expr)   // every other binary operator
    | Not(arg: Expr)
    | Minus(arg: Expr)
    | Plus(arg: Expr)
    | If(arms: seq<Arm>, hasElse: bool, alt: seq<Stmt>)
    | Yield(args: seq<Expr>)
    | Pair(key: Name, value: Expr)               // a keyword argument
    | Call(recv: Expr, name: Name, args: seq<Expr>, block: Option<BlockLit>)

  datatype Arm = Arm(cond: Expr, body: seq<Stmt>)

  datatype BlockLit = BlockLit(params: seq<Name>, body: seq<Stmt>)

  datatype Stmt =
    | ExprStmt(e: Expr, isStmt: bool)   // isStmt: the value is popped
    | Return(e: Expr)
    | While(cond: Expr, body: seq<Stmt>)
    | Continue
    | Break
    | Def(name: Name, params: seq<Param>, body: seq<Stmt>)

  datatype Param =
    | NormalParam(name: Name)
    | DefaultParam(name: Name, default: Expr)
    | RestParam(name: Name)
    | KeyParam(name: Name)
    | KeyDefaultParam(name: Name, default: Expr)

  /** What one instruction set is compiled from. */
  datatype Source =
    | MainSource(body: seq<Stmt>)
    | MethodSource(params: seq<Param>, body: seq<Stmt>)
    | BlockSource(names: seq<Name>, body: seq<Stmt>, outer: seq<seq<Name>>, loop: Option<Loop>)

  /** The jump targets of `break` and `continue` of the innermost loop. */
  datatype Loop = Loop(exit: nat, next: nat)

}
