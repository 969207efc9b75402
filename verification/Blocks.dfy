/** The shape of the emitted code and what the generator's in_return_block flag
    says about it. */
module Blocks {
  import opened Options
  import opened Ast
  import opened Scopes
  import opened Ir
  import opened Codegen
  import opened Statements

  predicate IsTerminator(i: Instr) { i.Br? || i.CondBr? || i.Ret? }

  /** Reads code line by line, knowing whether a block is open: a label needs a
      closed one, any other line an open one.  None if the code breaks that. */
  function Scan(code: seq<Instr>, open: bool): Option<bool>
    decreases code
  {
    if code == [] then Some(open)
    else if code[0].LabelDef? == open then None
    else Scan(code[1..], !IsTerminator(code[0]))
  }

  /** What Scan accepts: from an open block to a closed one, a label comes right
      after a terminator, a terminator is followed by a label or by nothing, and
      the last line is a terminator. */
  lemma {:induction false} ScanMeans(code: seq<Instr>, open: bool)
    ensures Scan(code, open) == Some(false) <==>
      && (code == [] ==> !open)
      && (code != [] ==> code[0].LabelDef? != open && IsTerminator(code[|code| - 1]))
      && (forall i :: 0 < i < |code| ==> (code[i].LabelDef? <==> IsTerminator(code[i - 1])))
    decreases code
  {
    if |code| > 1 {
      var rest := code[1..];
      ScanMeans(rest, !IsTerminator(code[0]));
      assert rest[|rest| - 1] == code[|code| - 1];
      if forall i :: 0 < i < |code| ==> (code[i].LabelDef? <==> IsTerminator(code[i - 1])) {
        forall i | 0 < i < |rest|
          ensures rest[i].LabelDef? <==> IsTerminator(rest[i - 1])
        {
          assert rest[i] == code[i + 1] && rest[i - 1] == code[i];
        }
        assert code[1].LabelDef? <==> IsTerminator(code[0]);
      }
      if Scan(code, open) == Some(false) {
        forall i | 0 < i < |code|
          ensures code[i].LabelDef? <==> IsTerminator(code[i - 1])
        {
          if i > 1 {
            assert rest[i - 1].LabelDef? <==> IsTerminator(rest[i - 2]);
          }
        }
      }
    }
  }

  lemma {:induction false} ScanAppend(a: seq<Instr>, b: seq<Instr>, open: bool)
    ensures Scan(a + b, open) == match Scan(a, open) { case None => None case Some(o) => Scan(b, o) }
    decreases a
  {
    if a == [] {
      assert a + b == b;
    } else {
      assert (a + b)[1..] == a[1..] + b;
      ScanAppend(a[1..], b, !IsTerminator(a[0]));
    }
  }

  /** From an open block to an open block. */
  predicate Straight(code: seq<Instr>) { Scan(code, true) == Some(true) }

  lemma StraightAppend(a: seq<Instr>, b: seq<Instr>)
    requires Straight(a)
    ensures Scan(a + b, true) == Scan(b, true)
  {
    ScanAppend(a, b, true);
  }

  function Line(s: seq<Instr>, i: nat, open: Option<bool>): Option<bool> {
    if i >= |s| || open.None? then open
    else if s[i].LabelDef? == open.value then None
    else Some(!IsTerminator(s[i]))
  }

  lemma ScanShort(s: seq<Instr>, open: bool)
    requires |s| <= 5
    ensures Scan(s, open) == Line(s, 4, Line(s, 3, Line(s, 2, Line(s, 1, Line(s, 0, Some(open))))))
  {
    if |s| > 0 {
      var s1 := s[1..];
      if |s| > 1 {
        var s2 := s1[1..];
        if |s| > 2 {
          var s3 := s2[1..];
          if |s| > 3 {
            var s4 := s3[1..];
            assert |s| > 4 ==> s4[1..] == [];
          }
        }
      }
    }
  }

  // ----- Expressions never leave the block closed -----

  lemma SmallStraight(c: Counters, e: Expr, r: int)
    ensures Straight(GenToInt(c, e, r).code)
    ensures Straight(GenTruth(c, e, r).code)
    ensures Straight(GenPromote(c, e, r).code)
  {
  }

  lemma LogicalStraight(c: Counters, op: BinaryOp, l: Expr, r: Expr, x: ExprCode, y: ExprCode)
    requires Straight(x.code) && Straight(y.code)
    ensures Straight(LogicalCode(c, op, l, r, x, y).code)
  {
    hide Scan;
    var xb := GenTruth(x.c, l, x.r);
    var yb := GenTruth(y.c, r, y.r);
    var exit := LogicalExit(c, yb.r, yb.c.temps + 1);
    var middle := LogicalShortcut(c, op, xb.r);
    SmallStraight(x.c, l, x.r);
    SmallStraight(y.c, r, y.r);
    LinesStraight(c, op, xb.r, yb.r, yb.c.temps + 1);
    StraightAppend([Alloca(ResultSlot(c), I1)], x.code + (xb.code + (middle + (y.code + (yb.code + exit)))));
    StraightAppend(x.code, xb.code + (middle + (y.code + (yb.code + exit))));
    StraightAppend(xb.code, middle + (y.code + (yb.code + exit)));
    StraightAppend(middle, y.code + (yb.code + exit));
    StraightAppend(y.code, yb.code + exit);
    StraightAppend(yb.code, exit);
  }

  lemma LinesStraight(c: Counters, op: BinaryOp, test: int, value: int, final: int)
    ensures Straight([Alloca(ResultSlot(c), I1)])
    ensures Straight(LogicalShortcut(c, op, test)) && Straight(LogicalExit(c, value, final))
  {
    hide Scan;
    ScanShort([Alloca(ResultSlot(c), I1)], true);
    ScanShort(LogicalShortcut(c, op, test), true);
    ScanShort(LogicalExit(c, value, final), true);
  }

  lemma ChoiceStraight(c: Counters, test: int, v: Operand, w: Operand, final: int)
    ensures Straight([Alloca(ResultSlot(c), I32)])
    ensures Straight(CondChoice(c, test)) && Straight(CondElse(c, v)) && Straight(CondExit(c, w, final))
  {
    hide Scan;
    ScanShort([Alloca(ResultSlot(c), I32)], true);
    ScanShort(CondChoice(c, test), true);
    ScanShort(CondElse(c, v), true);
    ScanShort(CondExit(c, w, final), true);
  }

  lemma CondStraight(c: Counters, q: Expr, a: Expr, b: Expr, x: ExprCode, y: ExprCode, z: ExprCode)
    requires Straight(x.code) && Straight(y.code) && Straight(z.code)
    ensures Straight(CondCode(c, q, a, b, x, y, z).code)
  {
    hide Scan, CondChoice, CondElse, CondExit;
    var xb := GenTruth(x.c, q, x.r);
    var yi := GenToInt(y.c, a, y.r);
    var zi := GenToInt(z.c, b, z.r);
    SmallStraight(x.c, q, x.r);
    SmallStraight(y.c, a, y.r);
    SmallStraight(z.c, b, z.r);
    var second, third := CondChoice(c, xb.r), CondElse(c, OperandOf(a, yi.r));
    var last := CondExit(c, OperandOf(b, zi.r), zi.c.temps + 1);
    ChoiceStraight(c, xb.r, OperandOf(a, yi.r), OperandOf(b, zi.r), zi.c.temps + 1);
    var tail := y.code + (yi.code + (third + (z.code + (zi.code + last))));
    StraightAppend([Alloca(ResultSlot(c), I32)], x.code + (xb.code + (second + tail)));
    StraightAppend(x.code, xb.code + (second + tail));
    StraightAppend(xb.code, second + tail);
    StraightAppend(second, tail);
    StraightAppend(y.code, yi.code + (third + (z.code + (zi.code + last))));
    StraightAppend(yi.code, third + (z.code + (zi.code + last)));
    StraightAppend(third, z.code + (zi.code + last));
    StraightAppend(z.code, zi.code + last);
    StraightAppend(zi.code, last);
  }

  lemma {:induction false} ExprStraight(t: Scopes<Symbol>, c: Counters, e: Expr)
    ensures Straight(GenExpr(t, c, e).code)
    decreases e, 1
  {
    match e
    case Number(_) =>
    case Var(_) =>
    case Binary(op, l, r) =>
      if op == LAnd || op == LOr {
        var x := GenExpr(t, Reserve(c), l);
        var c1 := GenTruth(x.c, l, x.r).c;
        ExprStraight(t, Reserve(c), l);
        ExprStraight(t, c1, r);
        LogicalStraight(c, op, l, r, x, GenExpr(t, c1, r));
      } else {
        var x := GenExpr(t, c, l);
        ExprStraight(t, c, l);
        ExprStraight(t, x.c, r);
        OperatorStraight(op, l, r, x, GenExpr(t, x.c, r));
      }
    case Assign(y, rhs) =>
      ExprStraight(t, c, rhs);
      AssignStraight(Find(t, y), rhs, GenExpr(t, c, rhs));
    case Unary(op, e1) =>
      if IsStep(op) {
        StepStraight(c, op, if e1.Var? then Find(t, e1.name) else None);
      } else {
        ExprStraight(t, c, e1);
        var x := GenExpr(t, c, e1);
        StraightAppend(x.code, [UnaryInstr(op, x.c.temps + 1, OperandOf(e1, x.r))]);
      }
    case Cond(q, a, b) =>
      var x := GenExpr(t, Reserve(c), q);
      var c1 := GenTruth(x.c, q, x.r).c;
      var y := GenExpr(t, c1, a);
      var c2 := GenToInt(y.c, a, y.r).c;
      ExprStraight(t, Reserve(c), q);
      ExprStraight(t, c1, a);
      ExprStraight(t, c2, b);
      CondStraight(c, q, a, b, x, y, GenExpr(t, c2, b));
    case Call(f, args) =>
      ArgsStraight(t, c, args);
      var a := GenArgs(t, c, args);
      StraightAppend(a.code, [CallI(a.c.temps + 1, f, a.args)]);
  }

  lemma OperatorStraight(op: BinaryOp, l: Expr, r: Expr, x: ExprCode, y: ExprCode)
    requires Straight(x.code) && Straight(y.code)
    ensures Straight(OperatorCode(op, l, r, x, y).code)
  {
    hide Scan;
    var temp := y.c.temps + 1;
    var px := GenPromote(y.c.(temps := temp), l, x.r);
    var py := GenPromote(px.c, r, y.r);
    var last := [OperatorInstr(op, temp, OperandOf(l, px.r), OperandOf(r, py.r))];
    SmallStraight(y.c.(temps := temp), l, x.r);
    SmallStraight(px.c, r, y.r);
    ScanShort(last, true);
    StraightAppend(x.code, y.code + (px.code + (py.code + last)));
    StraightAppend(y.code, px.code + (py.code + last));
    StraightAppend(px.code, py.code + last);
    StraightAppend(py.code, last);
  }

  lemma AssignStraight(sym: Option<Symbol>, rhs: Expr, v: ExprCode)
    requires Straight(v.code)
    ensures Straight(AssignCode(sym, rhs, v).code)
  {
    if sym.Some? {
      var w := GenToInt(v.c, rhs, v.r);
      var store := [Store(I32, OperandOf(rhs, w.r), SlotOf(sym.value))];
      SmallStraight(v.c, rhs, v.r);
      StraightAppend(v.code, w.code + store);
      StraightAppend(w.code, store);
    }
  }

  lemma StepStraight(c: Counters, op: UnaryOp, sym: Option<Symbol>)
    ensures Straight(StepCode(c, op, sym).code)
  {
    hide Scan;
    ScanShort(StepCode(c, op, sym).code, true);
  }

  lemma {:induction false} ArgsStraight(t: Scopes<Symbol>, c: Counters, es: seq<Expr>)
    ensures Straight(GenArgs(t, c, es).code)
    decreases es, 0
  {
    if es != [] {
      var x := GenExpr(t, c, es[0]);
      ExprStraight(t, c, es[0]);
      ArgsStraight(t, x.c, es[1..]);
      StraightAppend(x.code, GenArgs(t, x.c, es[1..]).code);
    }
  }

  lemma TestStraight(t: Scopes<Symbol>, c: Counters, e: Expr)
    ensures Straight(GenTest(t, c, e).code)
  {
    hide Scan;
    var x := GenExpr(t, c, e);
    ExprStraight(t, c, e);
    SmallStraight(x.c, e, x.r);
    StraightAppend(x.code, GenTruth(x.c, e, x.r).code);
  }

  // ----- Statements -----

  /** As the grammar has it, a `for` starts with a declaration, an expression or
      nothing. */
  predicate PlainInits(s: Stmt)
    decreases s, 1
  {
    match s
    case Block(ss) => AllPlain(ss)
    case If(_, t, f) => PlainInits(t) && (f.Some? ==> PlainInits(f.value))
    case While(_, b) => PlainInits(b)
    case DoWhile(b, _) => PlainInits(b)
    case For(first, _, _, b) => (first.Decl? || first.ExprStmt? || first.Empty?) && PlainInits(b)
    case _ => true
  }

  predicate AllPlain(ss: seq<Stmt>)
    decreases ss, 0
  {
    ss == [] || (PlainInits(ss[0]) && AllPlain(ss[1..]))
  }

  lemma {:induction false} FragmentPlain(s: Stmt, inLoop: bool)
    requires StmtInFragment(s, inLoop)
    ensures PlainInits(s)
    decreases s, 1
  {
    match s
    case Block(ss) => FragmentAllPlain(ss, inLoop);
    case If(_, a, b) =>
      FragmentPlain(a, inLoop);
      if b.Some? {
        FragmentPlain(b.value, inLoop);
      }
    case While(_, b) => FragmentPlain(b, true);
    case DoWhile(b, _) => FragmentPlain(b, true);
    case For(_, _, _, b) => FragmentPlain(b, true);
    case _ =>
  }

  lemma {:induction false} FragmentAllPlain(ss: seq<Stmt>, inLoop: bool)
    requires StmtsInFragment(ss, inLoop)
    ensures AllPlain(ss)
    decreases ss, 0
  {
    if ss != [] {
      FragmentPlain(ss[0], inLoop);
      FragmentAllPlain(ss[1..], inLoop);
    }
  }

  predicate LoopLabels(g: Context, inLoop: bool) {
    g.breakLabel.Some? == g.continueLabel.Some? == inLoop
  }

  /** The flag is set exactly when control cannot complete, and the code leaves
      the block open exactly when the flag is not set. */
  predicate WellShaped(x: StmtCode, completes: bool) {
    x.g.inReturnBlock == !completes && Scan(x.code, true) == Some(completes)
  }

  lemma OpensBlock(i: Instr, l: Label, tail: seq<Instr>)
    requires IsTerminator(i)
    ensures Scan([i, LabelDef(l)] + tail, true) == Scan(tail, true)
  {
    ScanShort([i, LabelDef(l)], true);
    StraightAppend([i, LabelDef(l)], tail);
  }

  /** A part that may have closed its block, the branch that closes it
      otherwise, and the label of the next block. */
  lemma ClosedThenLabel(x: StmtCode, completes: bool, l: Label, l': Label, tail: seq<Instr>)
    requires WellShaped(x, completes)
    ensures Scan(x.code + (Closing(x.g.inReturnBlock, l) + ([LabelDef(l')] + tail)), true) == Scan(tail, true)
  {
    var closing := Closing(x.g.inReturnBlock, l);
    ScanAppend(x.code, closing + ([LabelDef(l')] + tail), true);
    ScanAppend(closing, [LabelDef(l')] + tail, completes);
    ScanAppend([LabelDef(l')], tail, false);
    ScanShort([LabelDef(l')], false);
    ScanShort(closing, completes);
  }

  lemma IfShape(g: Context, x: ExprCode, a: StmtCode, completes: bool)
    requires Straight(x.code) && WellShaped(a, completes)
    ensures WellShaped(IfCode(g, x, a), true)
  {
    hide Scan;
    var tail := a.code + (Closing(a.g.inReturnBlock, IfEnd(g)) + ([LabelDef(IfEnd(g))] + []));
    assert [LabelDef(IfEnd(g))] + [] == [LabelDef(IfEnd(g))];
    StraightAppend(x.code, [CondBr(x.r, IfThen(g), IfEnd(g)), LabelDef(IfThen(g))] + tail);
    OpensBlock(CondBr(x.r, IfThen(g), IfEnd(g)), IfThen(g), tail);
    ClosedThenLabel(a, completes, IfEnd(g), IfEnd(g), []);
    ScanShort([], true);
  }

  lemma IfElseShape(g: Context, x: ExprCode, a: StmtCode, b: StmtCode, ca: bool, cb: bool)
    requires Straight(x.code) && WellShaped(a, ca) && WellShaped(b, cb)
    ensures WellShaped(IfElseCode(g, x, a, b), ca || cb)
  {
    hide Scan;
    var last := if !ca && !cb then [] else [LabelDef(IfEnd(g))];
    var second := b.code + (Closing(b.g.inReturnBlock, IfEnd(g)) + last);
    var tail := a.code + (Closing(a.g.inReturnBlock, IfEnd(g)) + ([LabelDef(IfElse(g))] + second));
    StraightAppend(x.code, [CondBr(x.r, IfThen(g), IfElse(g)), LabelDef(IfThen(g))] + tail);
    OpensBlock(CondBr(x.r, IfThen(g), IfElse(g)), IfThen(g), tail);
    ClosedThenLabel(a, ca, IfEnd(g), IfElse(g), second);
    if ca || cb {
      assert last == last + [];
      ClosedThenLabel(b, cb, IfEnd(g), IfEnd(g), []);
      ScanShort([], true);
    } else {
      assert second == b.code;
    }
  }

  lemma WhileShape(g: Context, x: ExprCode, b: StmtCode, completes: bool)
    requires Straight(x.code) && WellShaped(b, completes) && !g.inReturnBlock
    ensures WellShaped(WhileCode(g, x, b), true)
  {
    hide Scan;
    var tail := b.code + (Closing(b.g.inReturnBlock, WhileCond(g)) + ([LabelDef(WhileEnd(g))] + []));
    assert [LabelDef(WhileEnd(g))] + [] == [LabelDef(WhileEnd(g))];
    var test := [CondBr(x.r, WhileBody(g), WhileEnd(g)), LabelDef(WhileBody(g))];
    OpensBlock(Br(WhileCond(g)), WhileCond(g), x.code + (test + tail));
    StraightAppend(x.code, test + tail);
    OpensBlock(test[0], WhileBody(g), tail);
    ClosedThenLabel(b, completes, WhileCond(g), WhileEnd(g), []);
    ScanShort([], true);
  }

  lemma DoShape(g: Context, b: StmtCode, x: ExprCode, completes: bool)
    requires Straight(x.code) && WellShaped(b, completes) && !g.inReturnBlock
    ensures WellShaped(DoCode(g, b, x), true)
  {
    hide Scan;
    var last := [CondBr(x.r, DoBody(g), DoEnd(g)), LabelDef(DoEnd(g))];
    var tail := b.code + (Closing(b.g.inReturnBlock, DoCond(g)) + ([LabelDef(DoCond(g))] + (x.code + last)));
    OpensBlock(Br(DoBody(g)), DoBody(g), tail);
    ClosedThenLabel(b, completes, DoCond(g), DoCond(g), x.code + last);
    StraightAppend(x.code, last);
    ScanShort(last, true);
  }

  /** x is the guard with its branch. */
  lemma ForShape(g: Context, i: StmtCode, x: ExprCode, b: StmtCode, y: ExprCode, completes: bool)
    requires WellShaped(i, true) && Scan(x.code, true) == Some(false) && WellShaped(b, completes) && Straight(y.code)
    requires !g.inReturnBlock
    ensures WellShaped(ForCode(g, i, x, b, y), true)
  {
    hide Scan;
    var last := [Br(ForCond(g)), LabelDef(ForEnd(g))];
    var rest := b.code + (Closing(b.g.inReturnBlock, ForUpdate(g)) + ([LabelDef(ForUpdate(g))] + (y.code + last)));
    var tail := x.code + ([LabelDef(ForBody(g))] + rest);
    StraightAppend(i.code, [Br(ForCond(g)), LabelDef(ForCond(g))] + tail);
    OpensBlock(Br(ForCond(g)), ForCond(g), tail);
    ScanAppend(x.code, [LabelDef(ForBody(g))] + rest, true);
    ScanAppend([LabelDef(ForBody(g))], rest, false);
    ScanShort([LabelDef(ForBody(g))], false);
    ClosedThenLabel(b, completes, ForUpdate(g), ForUpdate(g), y.code + last);
    StraightAppend(y.code, last);
    ScanShort(last, true);
  }

  lemma GuardShape(t: Scopes<Symbol>, c: Counters, e: Option<Expr>, b: Label, l: Label)
    ensures Scan(GenGuard(t, c, e, b, l).code, true) == Some(false)
    ensures Straight(GenUpdate(t, c, e).code)
  {
    hide GenExpr, GenTest;
    if e.Some? {
      TestStraight(t, c, e.value);
      ExprStraight(t, c, e.value);
      var x := GenTest(t, c, e.value);
      StraightAppend(x.code, [CondBr(x.r, b, l)]);
    }
  }

  lemma DeclShape(g: Context, x: string, init: Option<Expr>)
    requires !g.inReturnBlock
    ensures WellShaped(GenDecl(g, x, init), true)
  {
    hide Scan, GenExpr;
    ScanShort(GenDecl(g, x, None).code, true);
    if x !in g.table.scopes.vars && init.Some? {
      var slot := SlotOf(NewSymbol(g.table, x, VariableSymbol, false));
      var g1 := g.(table := AddSymbol(g.table, x, VariableSymbol, false));
      var v := GenExpr(g1.table.scopes, g1.c, init.value);
      var w := GenToInt(v.c, init.value, v.r);
      var store := [Store(I32, OperandOf(init.value, w.r), slot)];
      ExprStraight(g1.table.scopes, g1.c, init.value);
      SmallStraight(v.c, init.value, v.r);
      ScanShort([Alloca(slot, I32)], true);
      ScanShort(store, true);
      StraightAppend([Alloca(slot, I32)], v.code + (w.code + store));
      StraightAppend(v.code, w.code + store);
      StraightAppend(w.code, store);
    } else {
      ScanShort(GenDecl(g, x, init).code, true);
    }
  }

  lemma ReturnShape(g: Context, e: Expr)
    ensures WellShaped(ReturnCode(g, e, GenExpr(g.table.scopes, g.c, e)), false)
  {
    hide Scan, GenExpr;
    var x := GenExpr(g.table.scopes, g.c, e);
    var w := GenToInt(x.c, e, x.r);
    var last := [Ret(OperandOf(e, w.r))];
    ExprStraight(g.table.scopes, g.c, e);
    SmallStraight(x.c, e, x.r);
    ScanShort(last, true);
    StraightAppend(x.code, w.code + last);
    StraightAppend(w.code, last);
  }

  lemma {:induction false} StmtShape(g: Context, s: Stmt, inLoop: bool)
    requires !g.inReturnBlock && LoopLabels(g, inLoop) && PlainInits(s)
    ensures WellShaped(GenStmt(g, s), CanComplete(s, inLoop))
    decreases s, 1
  {
    hide GenExpr, GenTest, GenGuard, GenUpdate, Scan, GenDecl;
    ScanShort([], true);
    match s
    case Block(ss) => StmtsShape(InNewScope(g), ss, inLoop);
    case Decl(x, init) => DeclShape(g, x, init);
    case ExprStmt(e) => ExprStraight(g.table.scopes, g.c, e);
    case If(_, _, _) => IfStmtShape(g, s, inLoop);
    case While(c, body) =>
      var x := GenTest(g.table.scopes, TakeLabels(g, 3).c, c);
      TestStraight(g.table.scopes, TakeLabels(g, 3).c, c);
      ScopedShape(WhileContext(g, x.c), body, true);
      WhileShape(g, x, GenScoped(WhileContext(g, x.c), body), CanComplete(body, true));
    case DoWhile(body, c) =>
      ScopedShape(DoContext(g), body, true);
      var b := GenScoped(DoContext(g), body);
      TestStraight(b.g.table.scopes, b.g.c, c);
      DoShape(g, b, GenTest(b.g.table.scopes, b.g.c, c), CanComplete(body, true));
    case For(_, _, _, _) => ForStmtShape(g, s);
    case Break => if inLoop { ScanShort([Br(g.breakLabel.value)], true); }
    case Continue => if inLoop { ScanShort([Br(g.continueLabel.value)], true); }
    case Return(e) => ReturnShape(g, e);
    case Empty =>
  }

  lemma {:induction false} IfStmtShape(g: Context, s: Stmt, inLoop: bool)
    requires s.If? && !g.inReturnBlock && LoopLabels(g, inLoop) && PlainInits(s)
    ensures WellShaped(GenStmt(g, s), CanComplete(s, inLoop))
    decreases s, 0
  {
    hide GenExpr, GenTest, Scan, GenScoped;
    var x := GenTest(g.table.scopes, TakeLabels(g, 3).c, s.cond);
    TestStraight(g.table.scopes, TakeLabels(g, 3).c, s.cond);
    var g1 := g.(c := x.c);
    var a := GenScoped(g1, s.thenStmt);
    ScopedShape(g1, s.thenStmt, inLoop);
    if s.elseStmt.None? {
      IfShape(g, x, a, CanComplete(s.thenStmt, inLoop));
    } else {
      ScopedShape(AfterThen(a), s.elseStmt.value, inLoop);
      IfElseShape(g, x, a, GenScoped(AfterThen(a), s.elseStmt.value), CanComplete(s.thenStmt, inLoop),
                  CanComplete(s.elseStmt.value, inLoop));
    }
  }

  lemma {:induction false} ForStmtShape(g: Context, s: Stmt)
    requires s.For? && !g.inReturnBlock && PlainInits(s)
    ensures WellShaped(GenStmt(g, s), true)
    decreases s, 0
  {
    hide GenExpr, GenTest, GenGuard, GenUpdate, Scan;
    var i := GenStmt(ForContext(g), s.first);
    StmtShape(ForContext(g), s.first, true);
    StmtRestores(ForContext(g), s.first);
    var x := GenGuard(i.g.table.scopes, i.g.c, s.guard, ForBody(g), ForEnd(g));
    GuardShape(i.g.table.scopes, i.g.c, s.guard, ForBody(g), ForEnd(g));
    var g1 := i.g.(c := x.c, inReturnBlock := false);
    var b := GenStmt(g1, s.body);
    StmtShape(g1, s.body, true);
    GuardShape(b.g.table.scopes, b.g.c, s.update, ForBody(g), ForEnd(g));
    ForShape(g, i, x, b, GenUpdate(b.g.table.scopes, b.g.c, s.update), CanComplete(s.body, true));
  }

  lemma {:induction false} ScopedShape(g: Context, s: Stmt, inLoop: bool)
    requires !g.inReturnBlock && LoopLabels(g, inLoop) && PlainInits(s)
    ensures WellShaped(GenScoped(g, s), CanComplete(s, inLoop))
    ensures LoopLabels(GenScoped(g, s).g, inLoop)
    decreases s, 2
  {
    hide Scan, GenStmt;
    StmtShape(InNewScope(g), s, inLoop);
    StmtRestores(InNewScope(g), s);
  }

  lemma {:induction false} StmtsShape(g: Context, ss: seq<Stmt>, inLoop: bool)
    requires !g.inReturnBlock && LoopLabels(g, inLoop) && AllPlain(ss)
    ensures WellShaped(GenStmts(g, ss), AllComplete(ss, inLoop))
    decreases ss, 0
  {
    hide Scan, GenStmt;
    if ss == [] {
      ScanShort([], true);
    } else {
      var x := GenStmt(g, ss[0]);
      StmtShape(g, ss[0], inLoop);
      StmtRestores(g, ss[0]);
      if x.g.inReturnBlock {
        assert x.code + [] == x.code;
      } else {
        StmtsShape(x.g, ss[1..], inLoop);
        StraightAppend(x.code, GenStmts(x.g, ss[1..]).code);
      }
    }
  }
}
