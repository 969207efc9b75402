/** get_expression_type predicts the type of the temporary an expression's value
    is left in. */
module Types {
  import opened Options
  import opened Ast
  import opened Scopes
  import opened Ir
  import opened Codegen
  import opened Definitions
  import opened Linking

  /** The type of the temporary a line defines. */
  function ResultType(i: Instr): Option<Type> {
    match i
    case Load(_, ty, _) => Some(ty)
    case Arith(_, _, _, _) => Some(I32)
    case Icmp(_, _, _, _) => Some(I1)
    case Zext(_, _) => Some(I32)
    case Sext(_, _) => Some(I32)
    case CallI(_, _, _) => Some(I32)
    case _ => None
  }

  /** Comparisons, and they alone, are i1. */
  lemma {:induction false} PredictedType(e: Expr)
    requires InFragment(e)
    ensures TypeOf(e) == if IsComparison(e) then I1 else I32
    decreases e
  {
    match e
    case Unary(op, e1) =>
      if !IsStep(op) {
        PredictedType(e1);
      }
    case Cond(_, t, f) =>
      PredictedType(t);
      PredictedType(f);
    case _ =>
  }

  lemma ValueType(e: Expr)
    requires IsValue(e)
    ensures TypeOf(e) == I32
  {
    PredictedType(e);
  }

  predicate DefinedAt(code: seq<Instr>, i: nat, r: int, ty: Type) {
    i < |code| && Defines(code[i]) == Some(TempItem(r)) && ResultType(code[i]) == Some(ty)
  }

  /** The value of an expression that is not a literal is in a temporary that
      its code defines exactly once, at the predicted type. */
  lemma {:induction false} ResultHasPredictedType(t: Scopes<Symbol>, c: Counters, e: Expr) returns (i: nat)
    requires InFragment(e) && Resolved(t, e) && !e.Number?
    ensures var x := GenExpr(t, c, e); DefinedAt(x.code, i, x.r, TypeOf(e)) && Count(x.code, TempItem(x.r)) == 1
    decreases e
  {
    hide Count, LogicalCode, OperatorCode, CondCode;
    PredictedType(e);
    var x := GenExpr(t, c, e);
    i := 0;
    match e {
      case Assign(y, rhs) =>
        var v := GenExpr(t, c, rhs);
        i := ResultHasPredictedType(t, c, rhs);
        PredictedType(rhs);
        assert x.code[i] == v.code[i] && x.r == v.r;
      case Unary(op, _) => i := if op == PostInc || op == PostDec then 0 else if IsStep(op) then 1 else |x.code| - 1;
      case Binary(op, l, r) =>
        if op == LAnd || op == LOr {
          var a := GenExpr(t, Reserve(c), l);
          LogicalEnds(c, op, l, r, a, GenExpr(t, GenTruth(a.c, l, a.r).c, r));
        } else {
          var a := GenExpr(t, c, l);
          OperatorEnds(op, l, r, a, GenExpr(t, a.c, r));
        }
        i := |x.code| - 1;
      case Cond(q, l, r) =>
        var a := GenExpr(t, Reserve(c), q);
        var b := GenExpr(t, GenTruth(a.c, q, a.r).c, l);
        CondEnds(c, q, l, r, a, b, GenExpr(t, GenToInt(b.c, l, b.r).c, r));
        i := |x.code| - 1;
      case Var(_) => i := |x.code| - 1;
      case Call(_, _) => i := |x.code| - 1;
      case Number(_) =>
    }
    ExprDefinesOnce(t, c, e, TempItem(x.r));
    CountPositive(x.code, i, TempItem(x.r));
  }

  predicate EndsIn(x: ExprCode, ty: Type) {
    x.code != [] && DefinedAt(x.code, |x.code| - 1, x.r, ty)
  }

  lemma LogicalEnds(c: Counters, op: BinaryOp, l: Expr, r: Expr, x: ExprCode, y: ExprCode)
    ensures EndsIn(LogicalCode(c, op, l, r, x, y), I32)
  {
  }

  lemma OperatorEnds(op: BinaryOp, l: Expr, r: Expr, x: ExprCode, y: ExprCode)
    ensures EndsIn(OperatorCode(op, l, r, x, y), if IsComparisonOp(op) then I1 else I32)
  {
  }

  lemma CondEnds(c: Counters, q: Expr, a: Expr, b: Expr, x: ExprCode, y: ExprCode, z: ExprCode)
    ensures EndsIn(CondCode(c, q, a, b, x, y, z), I32)
  {
  }
}
