/** Every branch goes to a label of the same code or to the enclosing loop's
    break or continue label. */
module Targets {
  import opened Options
  import opened Ast
  import opened Scopes
  import opened Ir
  import opened Codegen
  import opened Definitions
  import opened Statements

  function Aims(i: Instr, l: Label): nat {
    match i
    case Br(l1) => if l1 == l then 1 else 0
    case CondBr(_, l1, l2) => if l1 == l || l2 == l then 1 else 0
    case _ => 0
  }

  /** How many branches name the label. */
  function Uses(code: seq<Instr>, l: Label): nat
    decreases code
  {
    if code == [] then 0 else Aims(code[0], l) + Uses(code[1..], l)
  }

  lemma {:induction false} UsesAt(code: seq<Instr>, l: Label, i: nat)
    requires i < |code| && Aims(code[i], l) > 0
    ensures Uses(code, l) > 0
    decreases code
  {
    if i > 0 {
      UsesAt(code[1..], l, i - 1);
    }
  }

  lemma {:induction false} UsesAppend(a: seq<Instr>, b: seq<Instr>, l: Label)
    ensures Uses(a + b, l) == Uses(a, l) + Uses(b, l)
    decreases a
  {
    if a == [] {
      assert a + b == b;
    } else {
      UsesAppend(a[1..], b, l);
      assert (a + b)[1..] == a[1..] + b;
    }
  }

  function AimsAt(s: seq<Instr>, i: nat, l: Label): nat { if i < |s| then Aims(s[i], l) else 0 }

  lemma UsesShort(s: seq<Instr>, l: Label)
    requires |s| <= 5
    ensures Uses(s, l) == AimsAt(s, 0, l) + AimsAt(s, 1, l) + AimsAt(s, 2, l) + AimsAt(s, 3, l) + AimsAt(s, 4, l)
  {
    if |s| > 0 {
      var s1 := s[1..];
      if |s| > 1 {
        var s2 := s1[1..];
        if |s| > 2 {
          var s3 := s2[1..];
          if |s| > 3 {
            var s4 := s3[1..];
            assert |s| > 4 ==> s4[1..] == [];
          }
        }
      }
    }
  }

  /** The label is defined in the code if a branch in it names it, unless it is
      known to be defined elsewhere. */
  predicate Lands(code: seq<Instr>, l: Label, elsewhere: bool) {
    Uses(code, l) == 0 || elsewhere || Count(code, LabelItem(l)) > 0
  }

  lemma LandsAppend(a: seq<Instr>, b: seq<Instr>, l: Label, elsewhere: bool)
    requires Lands(a, l, elsewhere) && Lands(b, l, elsewhere)
    ensures Lands(a + b, l, elsewhere)
  {
    UsesAppend(a, b, l);
    CountAppend(a, b, LabelItem(l));
  }

  lemma LandsAppend3(a: seq<Instr>, b: seq<Instr>, c: seq<Instr>, l: Label, elsewhere: bool)
    requires Lands(a, l, elsewhere) && Lands(b, l, elsewhere) && Lands(c, l, elsewhere)
    ensures Lands(a + (b + c), l, elsewhere)
  {
    LandsAppend(b, c, l, elsewhere);
    LandsAppend(a, b + c, l, elsewhere);
  }

  lemma LandsAppend5(
    a: seq<Instr>, b: seq<Instr>, c: seq<Instr>, d: seq<Instr>, e: seq<Instr>, l: Label, elsewhere: bool)
    requires Lands(a, l, elsewhere) && Lands(b, l, elsewhere) && Lands(c, l, elsewhere)
    requires Lands(d, l, elsewhere) && Lands(e, l, elsewhere)
    ensures Lands(a + (b + (c + (d + e))), l, elsewhere)
  {
    LandsAppend3(c, d, e, l, elsewhere);
    LandsAppend3(a, b, c + (d + e), l, elsewhere);
  }

  /** A line lands if the labels it names are defined elsewhere. */
  lemma LineLands(i: Instr, j: Instr, l: Label, elsewhere: bool)
    requires Aims(i, l) == 0 || elsewhere
    ensures Lands([i], l, elsewhere)
    ensures Aims(j, l) == 0 || elsewhere ==> Lands([i, j], l, elsewhere)
  {
    UsesShort([i], l);
    UsesShort([i, j], l);
  }

  lemma ClosingLands(closed: bool, l: Label, x: Label, elsewhere: bool)
    requires !closed && x == l ==> elsewhere
    ensures Lands(Closing(closed, l), x, elsewhere)
  {
    UsesShort(Closing(closed, l), x);
  }

  // ----- Expressions -----

  lemma SmallLands(c: Counters, e: Expr, r: int, l: Label, elsewhere: bool)
    ensures Lands(GenToInt(c, e, r).code, l, elsewhere)
    ensures Lands(GenTruth(c, e, r).code, l, elsewhere)
    ensures Lands(GenPromote(c, e, r).code, l, elsewhere)
  {
    UsesShort(GenToInt(c, e, r).code, l);
    UsesShort(GenTruth(c, e, r).code, l);
    UsesShort(GenPromote(c, e, r).code, l);
  }

  lemma LogicalLands(c: Counters, op: BinaryOp, a: Expr, b: Expr, x: ExprCode, y: ExprCode, l: Label)
    requires Lands(x.code, l, false) && Lands(y.code, l, false)
    ensures Lands(LogicalCode(c, op, a, b, x, y).code, l, false)
  {
    hide Count, Uses, LogicalShortcut, LogicalExit;
    var own := l in {LogicalLeft(c), LogicalRight(c), LogicalEnd(c)};
    var xb := GenTruth(x.c, a, x.r);
    var yb := GenTruth(y.c, b, y.r);
    var middle, last := LogicalShortcut(c, op, xb.r), LogicalExit(c, yb.r, yb.c.temps + 1);
    SmallLands(x.c, a, x.r, l, own);
    SmallLands(y.c, b, y.r, l, own);
    LogicalLinesLand(c, op, xb.r, yb.r, yb.c.temps + 1, l);
    LandsAppend5(xb.code, middle, y.code, yb.code, last, l, own);
    LandsAppend3([Alloca(ResultSlot(c), I1)], x.code, xb.code + (middle + (y.code + (yb.code + last))), l, own);
    LogicalCount(c, op, a, b, x, y, LabelItem(l));
  }

  lemma LogicalLinesLand(c: Counters, op: BinaryOp, test: int, value: int, final: int, l: Label)
    ensures
      var own := l in {LogicalLeft(c), LogicalRight(c), LogicalEnd(c)};
      Lands([Alloca(ResultSlot(c), I1)], l, own) && Lands(LogicalShortcut(c, op, test), l, own)
      && Lands(LogicalExit(c, value, final), l, own)
  {
    hide Uses;
    UsesShort([Alloca(ResultSlot(c), I1)], l);
    UsesShort(LogicalShortcut(c, op, test), l);
    UsesShort(LogicalExit(c, value, final), l);
  }

  lemma CondLinesLand(c: Counters, test: int, v: Operand, w: Operand, final: int, l: Label)
    ensures
      var own := l in {CondTrue(c), CondFalse(c), CondEnd(c)};
      Lands([Alloca(ResultSlot(c), I32)], l, own) && Lands(CondChoice(c, test), l, own)
      && Lands(CondElse(c, v), l, own) && Lands(CondExit(c, w, final), l, own)
  {
    hide Uses;
    UsesShort([Alloca(ResultSlot(c), I32)], l);
    UsesShort(CondChoice(c, test), l);
    UsesShort(CondElse(c, v), l);
    UsesShort(CondExit(c, w, final), l);
  }

  lemma CondLands(c: Counters, q: Expr, a: Expr, b: Expr, x: ExprCode, y: ExprCode, z: ExprCode, l: Label)
    requires Lands(x.code, l, false) && Lands(y.code, l, false) && Lands(z.code, l, false)
    ensures Lands(CondCode(c, q, a, b, x, y, z).code, l, false)
  {
    hide Count, Uses, CondChoice, CondElse, CondExit;
    var own := l in {CondTrue(c), CondFalse(c), CondEnd(c)};
    var xb := GenTruth(x.c, q, x.r);
    var yi := GenToInt(y.c, a, y.r);
    var zi := GenToInt(z.c, b, z.r);
    SmallLands(x.c, q, x.r, l, own);
    SmallLands(y.c, a, y.r, l, own);
    SmallLands(z.c, b, z.r, l, own);
    var second, third := CondChoice(c, xb.r), CondElse(c, OperandOf(a, yi.r));
    var last := CondExit(c, OperandOf(b, zi.r), zi.c.temps + 1);
    CondLinesLand(c, xb.r, OperandOf(a, yi.r), OperandOf(b, zi.r), zi.c.temps + 1, l);
    LandsAppend5(yi.code, third, z.code, zi.code, last, l, own);
    var tail := yi.code + (third + (z.code + (zi.code + last)));
    LandsAppend(y.code, tail, l, own);
    LandsAppend5([Alloca(ResultSlot(c), I32)], x.code, xb.code, second, y.code + tail, l, own);
    CondCount(c, q, a, b, x, y, z, LabelItem(l));
  }

  lemma OperatorLands(op: BinaryOp, a: Expr, b: Expr, x: ExprCode, y: ExprCode, l: Label)
    requires Lands(x.code, l, false) && Lands(y.code, l, false)
    ensures Lands(OperatorCode(op, a, b, x, y).code, l, false)
  {
    hide Count, Uses;
    var temp := y.c.temps + 1;
    var px := GenPromote(y.c.(temps := temp), a, x.r);
    var py := GenPromote(px.c, b, y.r);
    var last := OperatorInstr(op, temp, OperandOf(a, px.r), OperandOf(b, py.r));
    SmallLands(y.c.(temps := temp), a, x.r, l, false);
    SmallLands(px.c, b, y.r, l, false);
    LineLands(last, last, l, false);
    LandsAppend5(x.code, y.code, px.code, py.code, [last], l, false);
  }

  lemma AssignLands(sym: Option<Symbol>, rhs: Expr, v: ExprCode, l: Label)
    requires Lands(v.code, l, false)
    ensures Lands(AssignCode(sym, rhs, v).code, l, false)
  {
    hide Count, Uses;
    if sym.Some? {
      var w := GenToInt(v.c, rhs, v.r);
      var store := Store(I32, OperandOf(rhs, w.r), SlotOf(sym.value));
      SmallLands(v.c, rhs, v.r, l, false);
      LineLands(store, store, l, false);
      LandsAppend3(v.code, w.code, [store], l, false);
    }
  }

  lemma AndThenLine(code: seq<Instr>, i: Instr, l: Label)
    requires Lands(code, l, false) && Aims(i, l) == 0
    ensures Lands(code + [i], l, false)
  {
    LineLands(i, i, l, false);
    LandsAppend(code, [i], l, false);
  }

  lemma {:induction false} ExprLands(t: Scopes<Symbol>, c: Counters, e: Expr, l: Label)
    ensures Lands(GenExpr(t, c, e).code, l, false)
    decreases e, 1
  {
    hide Uses;
    match e
    case Number(_) => UsesShort([], l);
    case Var(y) => UsesShort(LoadCode(c, Find(t, y)).code, l);
    case Binary(op, a, b) =>
      if op == LAnd || op == LOr {
        var x := GenExpr(t, Reserve(c), a);
        var c1 := GenTruth(x.c, a, x.r).c;
        ExprLands(t, Reserve(c), a, l);
        ExprLands(t, c1, b, l);
        LogicalLands(c, op, a, b, x, GenExpr(t, c1, b), l);
      } else {
        var x := GenExpr(t, c, a);
        ExprLands(t, c, a, l);
        ExprLands(t, x.c, b, l);
        OperatorLands(op, a, b, x, GenExpr(t, x.c, b), l);
      }
    case Assign(y, rhs) =>
      ExprLands(t, c, rhs, l);
      AssignLands(Find(t, y), rhs, GenExpr(t, c, rhs), l);
    case Unary(op, e1) =>
      if IsStep(op) {
        UsesShort(StepCode(c, op, if e1.Var? then Find(t, e1.name) else None).code, l);
      } else {
        ExprLands(t, c, e1, l);
        var x := GenExpr(t, c, e1);
        AndThenLine(x.code, UnaryInstr(op, x.c.temps + 1, OperandOf(e1, x.r)), l);
      }
    case Cond(q, a, b) =>
      var x := GenExpr(t, Reserve(c), q);
      var c1 := GenTruth(x.c, q, x.r).c;
      var y := GenExpr(t, c1, a);
      var c2 := GenToInt(y.c, a, y.r).c;
      ExprLands(t, Reserve(c), q, l);
      ExprLands(t, c1, a, l);
      ExprLands(t, c2, b, l);
      CondLands(c, q, a, b, x, y, GenExpr(t, c2, b), l);
    case Call(f, args) =>
      ArgsLand(t, c, args, l);
      var a := GenArgs(t, c, args);
      AndThenLine(a.code, CallI(a.c.temps + 1, f, a.args), l);
  }

  lemma {:induction false} ArgsLand(t: Scopes<Symbol>, c: Counters, es: seq<Expr>, l: Label)
    ensures Lands(GenArgs(t, c, es).code, l, false)
    decreases es, 0
  {
    hide Uses;
    if es == [] {
      UsesShort([], l);
    } else {
      var x := GenExpr(t, c, es[0]);
      ExprLands(t, c, es[0], l);
      ArgsLand(t, x.c, es[1..], l);
      LandsAppend(x.code, GenArgs(t, x.c, es[1..]).code, l, false);
    }
  }

  lemma TestLands(t: Scopes<Symbol>, c: Counters, e: Expr, l: Label)
    ensures Lands(GenTest(t, c, e).code, l, false)
  {
    hide Uses, Count, GenExpr;
    var x := GenExpr(t, c, e);
    ExprLands(t, c, e, l);
    SmallLands(x.c, e, x.r, l, false);
    LandsAppend(x.code, GenTruth(x.c, e, x.r).code, l, false);
  }

  // ----- Statements -----

  predicate LoopLabel(g: Context, l: Label) {
    g.breakLabel == Some(l) || g.continueLabel == Some(l)
  }

  lemma IfLands(g: Context, x: ExprCode, a: StmtCode, l: Label, loop: bool)
    requires Lands(x.code, l, false) && Lands(a.code, l, loop)
    ensures Lands(IfCode(g, x, a).code, l, loop)
  {
    hide Count, Uses;
    var own := loop || l in {IfThen(g), IfEnd(g)};
    LineLands(CondBr(x.r, IfThen(g), IfEnd(g)), LabelDef(IfThen(g)), l, own);
    LineLands(LabelDef(IfEnd(g)), LabelDef(IfEnd(g)), l, own);
    ClosingLands(a.g.inReturnBlock, IfEnd(g), l, own);
    LandsAppend5(x.code, [CondBr(x.r, IfThen(g), IfEnd(g)), LabelDef(IfThen(g))], a.code,
                 Closing(a.g.inReturnBlock, IfEnd(g)), [LabelDef(IfEnd(g))], l, own);
    IfCount(g, x, a, LabelItem(l));
  }

  lemma IfElseLands(g: Context, x: ExprCode, a: StmtCode, b: StmtCode, l: Label, loop: bool)
    requires Lands(x.code, l, false) && Lands(a.code, l, loop) && Lands(b.code, l, loop)
    ensures Lands(IfElseCode(g, x, a, b).code, l, loop)
  {
    hide Count, Uses;
    var ends := a.g.inReturnBlock && b.g.inReturnBlock;
    var own := loop || l in {IfThen(g), IfElse(g)} || (l == IfEnd(g) && !ends);
    var last := if ends then [] else [LabelDef(IfEnd(g))];
    var first := [CondBr(x.r, IfThen(g), IfElse(g)), LabelDef(IfThen(g))];
    var c1, c2 := Closing(a.g.inReturnBlock, IfEnd(g)), Closing(b.g.inReturnBlock, IfEnd(g));
    LineLands(first[0], first[1], l, own);
    LineLands(LabelDef(IfElse(g)), LabelDef(IfElse(g)), l, own);
    UsesShort(last, l);
    ClosingLands(a.g.inReturnBlock, IfEnd(g), l, own);
    ClosingLands(b.g.inReturnBlock, IfEnd(g), l, own);
    LandsAppend3(b.code, c2, last, l, own);
    LandsAppend5(first, a.code, c1, [LabelDef(IfElse(g))], b.code + (c2 + last), l, own);
    LandsAppend(x.code, first + (a.code + (c1 + ([LabelDef(IfElse(g))] + (b.code + (c2 + last))))), l, own);
    IfElseCount(g, x, a, b, LabelItem(l));
  }

  lemma WhileLands(g: Context, x: ExprCode, b: StmtCode, l: Label, loop: bool)
    requires Lands(x.code, l, false) && Lands(b.code, l, l in {WhileEnd(g), WhileCond(g)})
    ensures Lands(WhileCode(g, x, b).code, l, loop)
  {
    hide Count, Uses;
    var own := loop || l in {WhileCond(g), WhileBody(g), WhileEnd(g)};
    var test := [CondBr(x.r, WhileBody(g), WhileEnd(g)), LabelDef(WhileBody(g))];
    var closing := Closing(b.g.inReturnBlock, WhileCond(g));
    LineLands(Br(WhileCond(g)), LabelDef(WhileCond(g)), l, own);
    LineLands(test[0], test[1], l, own);
    LineLands(LabelDef(WhileEnd(g)), LabelDef(WhileEnd(g)), l, own);
    ClosingLands(b.g.inReturnBlock, WhileCond(g), l, own);
    LandsAppend3(b.code, closing, [LabelDef(WhileEnd(g))], l, own);
    LandsAppend3(x.code, test, b.code + (closing + [LabelDef(WhileEnd(g))]), l, own);
    LandsAppend([Br(WhileCond(g)), LabelDef(WhileCond(g))],
                x.code + (test + (b.code + (closing + [LabelDef(WhileEnd(g))]))), l, own);
    WhileCount(g, x, b, LabelItem(l));
  }

  lemma DoLands(g: Context, b: StmtCode, x: ExprCode, l: Label, loop: bool)
    requires Lands(x.code, l, false) && Lands(b.code, l, l in {DoEnd(g), DoCond(g)})
    ensures Lands(DoCode(g, b, x).code, l, loop)
  {
    hide Count, Uses;
    var own := loop || l in {DoCond(g), DoBody(g), DoEnd(g)};
    var last := [CondBr(x.r, DoBody(g), DoEnd(g)), LabelDef(DoEnd(g))];
    LineLands(Br(DoBody(g)), LabelDef(DoBody(g)), l, own);
    LineLands(last[0], last[1], l, own);
    LineLands(LabelDef(DoCond(g)), LabelDef(DoCond(g)), l, own);
    ClosingLands(b.g.inReturnBlock, DoCond(g), l, own);
    LandsAppend(x.code, last, l, own);
    LandsAppend5([Br(DoBody(g)), LabelDef(DoBody(g))], b.code, Closing(b.g.inReturnBlock, DoCond(g)),
                 [LabelDef(DoCond(g))], x.code + last, l, own);
    DoCount(g, b, x, LabelItem(l));
  }

  /** x is the guard with its branch. */
  lemma ForLands(g: Context, i: StmtCode, x: ExprCode, b: StmtCode, y: ExprCode, l: Label, loop: bool)
    requires
      var own := loop || l in {ForCond(g), ForBody(g), ForUpdate(g), ForEnd(g)};
      Lands(i.code, l, own) && Lands(x.code, l, own) && Lands(b.code, l, own) && Lands(y.code, l, false)
    ensures Lands(ForCode(g, i, x, b, y).code, l, loop)
  {
    hide Count, Uses;
    var own := loop || l in {ForCond(g), ForBody(g), ForUpdate(g), ForEnd(g)};
    var first := [Br(ForCond(g)), LabelDef(ForCond(g))];
    var last := [Br(ForCond(g)), LabelDef(ForEnd(g))];
    var closing := Closing(b.g.inReturnBlock, ForUpdate(g));
    LineLands(first[0], first[1], l, own);
    LineLands(last[0], last[1], l, own);
    LineLands(LabelDef(ForBody(g)), LabelDef(ForBody(g)), l, own);
    LineLands(LabelDef(ForUpdate(g)), LabelDef(ForUpdate(g)), l, own);
    ClosingLands(b.g.inReturnBlock, ForUpdate(g), l, own);
    LandsAppend3([LabelDef(ForUpdate(g))], y.code, last, l, own);
    var tail := [LabelDef(ForUpdate(g))] + (y.code + last);
    LandsAppend3(b.code, closing, tail, l, own);
    LandsAppend5(i.code, first, x.code, [LabelDef(ForBody(g))], b.code + (closing + tail), l, own);
    ForCount(g, i, x, b, y, LabelItem(l));
  }

  lemma GuardLands(t: Scopes<Symbol>, c: Counters, e: Option<Expr>, b: Label, n: Label, l: Label)
    ensures Lands(GenGuard(t, c, e, b, n).code, l, l in {b, n})
    ensures Lands(GenUpdate(t, c, e).code, l, false)
  {
    hide GenExpr, GenTest, Uses, Count;
    UsesShort([], l);
    UsesShort([Br(b)], l);
    if e.Some? {
      TestLands(t, c, e.value, l);
      ExprLands(t, c, e.value, l);
      var x := GenTest(t, c, e.value);
      LineLands(CondBr(x.r, b, n), Br(b), l, l in {b, n});
      LandsAppend(x.code, [CondBr(x.r, b, n)], l, l in {b, n});
    }
  }

  lemma DeclLands(g: Context, x: string, init: Option<Expr>, l: Label)
    ensures Lands(GenDecl(g, x, init).code, l, false)
  {
    hide Uses, GenExpr, Count;
    var slot := SlotOf(NewSymbol(g.table, x, VariableSymbol, false));
    UsesShort([], l);
    LineLands(Alloca(slot, I32), Alloca(slot, I32), l, false);
    if x !in g.table.scopes.vars && init.Some? {
      var g1 := g.(table := AddSymbol(g.table, x, VariableSymbol, false));
      var v := GenExpr(g1.table.scopes, g1.c, init.value);
      var w := GenToInt(v.c, init.value, v.r);
      var store := Store(I32, OperandOf(init.value, w.r), slot);
      ExprLands(g1.table.scopes, g1.c, init.value, l);
      SmallLands(v.c, init.value, v.r, l, false);
      LineLands(store, store, l, false);
      LandsAppend(w.code, [store], l, false);
      LandsAppend3([Alloca(slot, I32)], v.code, w.code + [store], l, false);
    }
  }

  lemma ReturnLands(g: Context, e: Expr, l: Label)
    ensures Lands(ReturnCode(g, e, GenExpr(g.table.scopes, g.c, e)).code, l, false)
  {
    hide Uses, GenExpr, Count;
    var x := GenExpr(g.table.scopes, g.c, e);
    var w := GenToInt(x.c, e, x.r);
    var last := Ret(OperandOf(e, w.r));
    ExprLands(g.table.scopes, g.c, e, l);
    SmallLands(x.c, e, x.r, l, false);
    LineLands(last, last, l, false);
    LandsAppend3(x.code, w.code, [last], l, false);
  }

  /** The branches of a statement's code go to labels in that code or to the
      labels of the innermost loop around it. */
  lemma {:induction false} StmtLands(g: Context, s: Stmt, l: Label)
    ensures Lands(GenStmt(g, s).code, l, LoopLabel(g, l))
    decreases s, 1
  {
    hide GenExpr, GenTest, GenGuard, GenUpdate, GenDecl, Uses, Count;
    UsesShort([], l);
    if !g.inReturnBlock {
      match s
      case Block(ss) => StmtsLand(InNewScope(g), ss, l);
      case Decl(x, init) => DeclLands(g, x, init, l);
      case ExprStmt(e) => ExprLands(g.table.scopes, g.c, e, l);
      case If(_, _, _) => IfStmtLands(g, s, l);
      case While(c, body) =>
        var x := GenTest(g.table.scopes, TakeLabels(g, 3).c, c);
        TestLands(g.table.scopes, TakeLabels(g, 3).c, c, l);
        ScopedLands(WhileContext(g, x.c), body, l);
        WhileLands(g, x, GenScoped(WhileContext(g, x.c), body), l, LoopLabel(g, l));
      case DoWhile(body, c) =>
        ScopedLands(DoContext(g), body, l);
        var b := GenScoped(DoContext(g), body);
        TestLands(b.g.table.scopes, b.g.c, c, l);
        DoLands(g, b, GenTest(b.g.table.scopes, b.g.c, c), l, LoopLabel(g, l));
      case For(_, _, _, _) => ForStmtLands(g, s, l);
      case Break => if g.breakLabel.Some? { UsesShort([Br(g.breakLabel.value)], l); }
      case Continue => if g.continueLabel.Some? { UsesShort([Br(g.continueLabel.value)], l); }
      case Return(e) => ReturnLands(g, e, l);
      case Empty =>
    }
  }

  lemma {:induction false} IfStmtLands(g: Context, s: Stmt, l: Label)
    requires s.If? && !g.inReturnBlock
    ensures Lands(GenStmt(g, s).code, l, LoopLabel(g, l))
    decreases s, 0
  {
    hide GenExpr, GenTest, Uses, Count, GenScoped;
    var x := GenTest(g.table.scopes, TakeLabels(g, 3).c, s.cond);
    TestLands(g.table.scopes, TakeLabels(g, 3).c, s.cond, l);
    var g1 := g.(c := x.c);
    var a := GenScoped(g1, s.thenStmt);
    ScopedLands(g1, s.thenStmt, l);
    ScopedRestores(g1, s.thenStmt);
    if s.elseStmt.None? {
      IfLands(g, x, a, l, LoopLabel(g, l));
    } else {
      ScopedLands(AfterThen(a), s.elseStmt.value, l);
      IfElseLands(g, x, a, GenScoped(AfterThen(a), s.elseStmt.value), l, LoopLabel(g, l));
    }
  }

  lemma {:induction false} ForStmtLands(g: Context, s: Stmt, l: Label)
    requires s.For? && !g.inReturnBlock
    ensures Lands(GenStmt(g, s).code, l, LoopLabel(g, l))
    decreases s, 0
  {
    hide GenExpr, GenTest, GenGuard, GenUpdate, Uses, Count;
    var i := GenStmt(ForContext(g), s.first);
    StmtLands(ForContext(g), s.first, l);
    StmtRestores(ForContext(g), s.first);
    var x := GenGuard(i.g.table.scopes, i.g.c, s.guard, ForBody(g), ForEnd(g));
    GuardLands(i.g.table.scopes, i.g.c, s.guard, ForBody(g), ForEnd(g), l);
    var g1 := i.g.(c := x.c, inReturnBlock := false);
    var b := GenStmt(g1, s.body);
    StmtLands(g1, s.body, l);
    GuardLands(b.g.table.scopes, b.g.c, s.update, ForBody(g), ForEnd(g), l);
    ForLands(g, i, x, b, GenUpdate(b.g.table.scopes, b.g.c, s.update), l, LoopLabel(g, l));
  }

  lemma {:induction false} ScopedLands(g: Context, s: Stmt, l: Label)
    ensures Lands(GenScoped(g, s).code, l, LoopLabel(g, l))
    decreases s, 2
  {
    StmtLands(InNewScope(g), s, l);
  }

  lemma {:induction false} StmtsLand(g: Context, ss: seq<Stmt>, l: Label)
    ensures Lands(GenStmts(g, ss).code, l, LoopLabel(g, l))
    decreases ss, 0
  {
    hide GenStmt, Uses, Count;
    UsesShort([], l);
    if ss != [] && !g.inReturnBlock {
      var x := GenStmt(g, ss[0]);
      StmtLands(g, ss[0], l);
      StmtRestores(g, ss[0]);
      StmtsLand(x.g, ss[1..], l);
      LandsAppend(x.code, GenStmts(x.g, ss[1..]).code, l, LoopLabel(g, l));
    }
  }
}
