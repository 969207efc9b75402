/** The abstract syntax the compiler works on, restricted to the `int` type. */
module Ast {
  import opened Options
  import opened Int32

  datatype BinaryOp =
    | Add | Sub | Mul | Div | Mod
    | Eq | Ne | Lt | Le | Gt | Ge
    | LAnd | LOr
    | BAnd | BOr | BXor | Shl | Shr

  datatype UnaryOp = Neg | Not | BNot | PreInc | PostInc | PreDec | PostDec

  datatype Expr =
    | Number(value: int32)
    | Var(name: string)
    | Binary(op: BinaryOp, left: Expr, right: Expr)
    | Assign(name: string, rhs: Expr)
    | Unary(uop: UnaryOp, operand: Expr)
    | Cond(cond: Expr, thenExpr: Expr, elseExpr: Expr)
    | Call(callee: string, args: seq<Expr>)

  /** The `init` part of a `for` is a declaration, an expression statement, or
      Empty when the source has none. */
  datatype Stmt =
    | Block(stmts: seq<Stmt>)
    | Decl(name: string, init: Option<Expr>)
    | ExprStmt(expr: Expr)
    | If(cond: Expr, thenStmt: Stmt, elseStmt: Option<Stmt>)
    | While(cond: Expr, body: Stmt)
    | DoWhile(body: Stmt, cond: Expr)
    | For(first: Stmt, guard: Option<Expr>, update: Option<Expr>, body: Stmt)
    | Break
    | Continue
    | Return(value: Expr)
    | Empty

  /** The body is a block. */
  datatype FunDef = FunDef(name: string, params: seq<string>, body: Stmt)

  datatype TopDecl =
    | GlobalVar(name: string, init: Option<Expr>)
    | Function(def: FunDef)
    | Prototype(name: string, params: seq<Option<string>>)

  predicate IsComparisonOp(op: BinaryOp) {
    op in {Eq, Ne, Lt, Le, Gt, Ge}
  }

  predicate IsComparison(e: Expr) {
    e.Binary? && IsComparisonOp(e.op)
  }

  predicate IsStep(op: UnaryOp) {
    op in {PreInc, PostInc, PreDec, PostDec}
  }

  /** The expressions the generator compiles to what C says.  A comparison
      yields an i1 and every other expression an i32, so a comparison may be an
      operand of a binary operator or a condition, but not a stored, negated,
      passed or selected value. */
  predicate InFragment(e: Expr)
    decreases e, 1
  {
    match e
    case Number(_) => true
    case Var(_) => true
    case Binary(_, l, r) => InFragment(l) && InFragment(r)
    case Assign(_, v) => IsValue(v) && !v.Number?
    case Unary(op, e1) => if IsStep(op) then e1.Var? else op != Not && IsValue(e1)
    case Cond(c, t, f) => InFragment(c) && IsValue(t) && IsValue(f)
    case Call(_, args) => AllValues(args)
  }

  predicate IsValue(e: Expr)
    decreases e, 2
  {
    InFragment(e) && !IsComparison(e)
  }

  predicate AllValues(es: seq<Expr>)
    decreases es, 0
  {
    es == [] || (IsValue(es[0]) && AllValues(es[1..]))
  }

  /** An expression whose value is dropped may also be the assignment of a
      literal. */
  predicate Discardable(e: Expr) {
    InFragment(e) || (e.Assign? && e.rhs.Number?)
  }

  predicate StmtInFragment(s: Stmt, inLoop: bool)
    decreases s, 1
  {
    match s
    case Block(ss) => StmtsInFragment(ss, inLoop)
    case Decl(_, init) => init.Some? ==> IsValue(init.value)
    case ExprStmt(e) => Discardable(e)
    case If(c, t, f) => InFragment(c) && StmtInFragment(t, inLoop) && (f.Some? ==> StmtInFragment(f.value, inLoop))
    case While(c, b) => InFragment(c) && StmtInFragment(b, true)
    case DoWhile(b, c) => InFragment(c) && StmtInFragment(b, true)
    case For(first, c, u, b) =>
      && (first.Decl? || first.ExprStmt? || first.Empty?) && StmtInFragment(first, false)
      && (c.Some? ==> InFragment(c.value))
      && (u.Some? ==> Discardable(u.value))
      && !b.Decl? && StmtInFragment(b, true)
    case Break => inLoop
    case Continue => inLoop
    case Return(e) => IsValue(e)
    case Empty => true
  }

  predicate StmtsInFragment(ss: seq<Stmt>, inLoop: bool)
    decreases ss, 0
  {
    ss == [] || (StmtInFragment(ss[0], inLoop) && StmtsInFragment(ss[1..], inLoop))
  }

  /** Control can get past the statement, as far as its shape tells: a `return`
      never completes, a `break` or `continue` not inside a loop, an `if` when
      one of its branches does, a loop always. */
  predicate CanComplete(s: Stmt, inLoop: bool)
    decreases s, 1
  {
    match s
    case Block(ss) => AllComplete(ss, inLoop)
    case If(_, t, f) => f.None? || CanComplete(t, inLoop) || CanComplete(f.value, inLoop)
    case Break => !inLoop
    case Continue => !inLoop
    case Return(_) => false
    case _ => true
  }

  predicate AllComplete(ss: seq<Stmt>, inLoop: bool)
    decreases ss, 0
  {
    ss == [] || (CanComplete(ss[0], inLoop) && AllComplete(ss[1..], inLoop))
  }
}
