/** What compiling a statement leaves behind: scopes, depth and loop labels are
    restored, numbers only grow, and every definition is unique. */
module Statements {
  import opened Options
  import opened Ast
  import opened Scopes
  import opened Ir
  import opened Codegen
  import opened Definitions
  import opened Relation

  /** Only a declaration changes the scopes, by one symbol. */
  function ScopesAfter(g: Context, s: Stmt): Scopes<Symbol> {
    if s.Decl? && !g.inReturnBlock then AddSymbol(g.table, s.name, VariableSymbol, false).scopes else g.table.scopes
  }

  /** Same function, same depth, same loop labels, numbers not reused. */
  predicate Restored(g: Context, g': Context) {
    && g'.breakLabel == g.breakLabel && g'.continueLabel == g.continueLabel
    && g'.table.fn == g.table.fn && g'.table.level == g.table.level && g'.table.uid >= g.table.uid
    && Grows(g.c, g'.c)
  }

  lemma ExprGrowing(t: Scopes<Symbol>, c: Counters, e: Expr)
    ensures Grows(c, GenExpr(t, c, e).c)
    ensures Grows(c, GenTest(t, c, e).c)
    ensures Grows(c, GenUpdate(t, c, Some(e)).c)
  {
    ExprDefinesOnce(t, c, e, TempItem(0));
  }

  lemma GuardGrowing(t: Scopes<Symbol>, c: Counters, e: Option<Expr>, b: Label, l: Label)
    ensures Grows(c, GenGuard(t, c, e, b, l).c)
    ensures Grows(c, GenUpdate(t, c, e).c)
  {
    hide GenExpr, GenTest;
    if e.Some? {
      ExprGrowing(t, c, e.value);
    }
  }

  lemma {:induction false} StmtRestores(g: Context, s: Stmt)
    ensures Restored(g, GenStmt(g, s).g)
    ensures GenStmt(g, s).g.table.scopes == ScopesAfter(g, s)
    ensures s.Decl? && !g.inReturnBlock ==> GenStmt(g, s).g.table == AddSymbol(g.table, s.name, VariableSymbol, false)
    decreases s, 1
  {
    hide GenExpr, GenTest, GenGuard, GenUpdate;
    if !g.inReturnBlock {
      match s
      case Block(ss) => StmtsRestore(InNewScope(g), ss);
      case Decl(x, init) =>
        if x !in g.table.scopes.vars && init.Some? {
          ExprGrowing(AddSymbol(g.table, x, VariableSymbol, false).scopes, g.c, init.value);
        }
      case ExprStmt(e) => ExprGrowing(g.table.scopes, g.c, e);
      case If(c, t, f) =>
        var x := GenTest(g.table.scopes, TakeLabels(g, 3).c, c);
        ExprGrowing(g.table.scopes, TakeLabels(g, 3).c, c);
        ScopedRestores(g.(c := x.c), t);
        if f.Some? {
          ScopedRestores(AfterThen(GenScoped(g.(c := x.c), t)), f.value);
        }
      case While(c, body) =>
        ExprGrowing(g.table.scopes, TakeLabels(g, 3).c, c);
        ScopedRestores(WhileContext(g, GenTest(g.table.scopes, TakeLabels(g, 3).c, c).c), body);
      case DoWhile(body, c) =>
        ScopedRestores(DoContext(g), body);
        var b := GenScoped(DoContext(g), body).g;
        ExprGrowing(b.table.scopes, b.c, c);
      case For(_, _, _, _) => ForRestores(g, s);
      case Return(e) => ExprGrowing(g.table.scopes, g.c, e);
      case _ =>
    }
  }

  lemma {:induction false} ForRestores(g: Context, s: Stmt)
    requires s.For? && !g.inReturnBlock
    ensures Restored(g, GenStmt(g, s).g)
    ensures GenStmt(g, s).g.table.scopes == g.table.scopes
    decreases s, 0
  {
    hide GenExpr, GenTest, GenGuard, GenUpdate;
    var i := GenStmt(ForContext(g), s.first);
    StmtRestores(ForContext(g), s.first);
    var x := GenGuard(i.g.table.scopes, i.g.c, s.guard, ForBody(g), ForEnd(g));
    GuardGrowing(i.g.table.scopes, i.g.c, s.guard, ForBody(g), ForEnd(g));
    var g1 := i.g.(c := x.c, inReturnBlock := false);
    StmtRestores(g1, s.body);
    var b := GenStmt(g1, s.body);
    GuardGrowing(b.g.table.scopes, b.g.c, s.update, ForBody(g), ForEnd(g));
  }

  lemma {:induction false} ScopedRestores(g: Context, s: Stmt)
    ensures Restored(g, GenScoped(g, s).g) && GenScoped(g, s).g.table.scopes == g.table.scopes
    decreases s, 2
  {
    StmtRestores(InNewScope(g), s);
  }

  lemma {:induction false} StmtsRestore(g: Context, ss: seq<Stmt>)
    requires g.table.scopes.Inner?
    ensures Restored(g, GenStmts(g, ss).g)
    ensures GenStmts(g, ss).g.table.scopes.Inner? && GenStmts(g, ss).g.table.scopes.outer == g.table.scopes.outer
    decreases ss, 0
  {
    hide GenStmt;
    if ss != [] && !g.inReturnBlock {
      StmtRestores(g, ss[0]);
      StmtsRestore(GenStmt(g, ss[0]).g, ss[1..]);
    }
  }

  // ----- The table stays sound -----

  /** Every local symbol's number was handed out, and no two share one. */
  ghost predicate TableFits(t: Table) {
    TableOk(t.scopes) && forall u :: u in Uids(t.scopes) ==> u <= t.uid
  }

  lemma EnterFits(t: Table)
    requires TableFits(t)
    ensures TableFits(EnterScope(t))
  {
    assert Uids(Push(t.scopes)) == Uids(t.scopes);
  }

  lemma DeclareFits(t: Table, x: string, isParameter: bool)
    requires TableFits(t) && t.scopes.Inner?
    ensures TableFits(AddSymbol(t, x, VariableSymbol, isParameter))
  {
    if x !in t.scopes.vars {
      var t' := AddSymbol(t, x, VariableSymbol, isParameter);
      assert t'.scopes.outer == t.scopes.outer;
      forall u | u in Uids(t.scopes.outer)
        ensures u in Uids(t.scopes)
      {
      }
      forall y | y in t.scopes.vars
        ensures t.scopes.vars[y].llvm.uid in Uids(t.scopes) && t'.scopes.vars[y] == t.scopes.vars[y]
      {
      }
      assert t'.scopes.vars[x].llvm.uid == t.uid + 1;
      assert TableOk(t'.scopes);
      forall u | u in Uids(t'.scopes)
        ensures u <= t'.uid
      {
        if u !in Uids(t.scopes.outer) {
          var y :| y in t'.scopes.vars && t'.scopes.vars[y].llvm.uid == u;
        }
      }
    }
  }

  lemma StmtFits(g: Context, s: Stmt)
    requires TableFits(g.table) && g.table.scopes.Inner?
    ensures TableFits(GenStmt(g, s).g.table) && GenStmt(g, s).g.table.scopes.Inner?
  {
    hide GenStmt;
    StmtRestores(g, s);
    if s.Decl? && !g.inReturnBlock {
      DeclareFits(g.table, s.name, false);
    }
  }

  // ----- Definitions -----

  predicate StmtOnce(g: Context, g': Context, code: seq<Instr>, x: Item) {
    DefinesOnce(code, x, g.c, g.table.uid, g'.c, g'.table.uid)
  }

  lemma ClosingCount(closed: bool, l: Label, x: Item)
    ensures Count(Closing(closed, l), x) == 0
  {
    CountShort(Closing(closed, l), x);
  }

  lemma LineCounts(i: Instr, j: Instr, x: Item)
    ensures Count([i], x) == Hit(i, x)
    ensures Count([i, j], x) == Hit(i, x) + Hit(j, x)
  {
    CountShort([i], x);
    CountShort([i, j], x);
  }

  lemma IfCount(g: Context, t: ExprCode, a: StmtCode, x: Item)
    ensures
      Count(IfCode(g, t, a).code, x)
      == Count(t.code, x) + Count(a.code, x) + (if x in {LabelItem(IfThen(g)), LabelItem(IfEnd(g))} then 1 else 0)
  {
    hide Count;
    LineCounts(CondBr(t.r, IfThen(g), IfEnd(g)), LabelDef(IfThen(g)), x);
    LineCounts(LabelDef(IfEnd(g)), LabelDef(IfEnd(g)), x);
    var closing := Closing(a.g.inReturnBlock, IfEnd(g));
    ClosingCount(a.g.inReturnBlock, IfEnd(g), x);
    CountAppend5(t.code, [CondBr(t.r, IfThen(g), IfEnd(g)), LabelDef(IfThen(g))], a.code, closing,
                 [LabelDef(IfEnd(g))], x);
  }

  lemma IfElseCount(g: Context, t: ExprCode, a: StmtCode, b: StmtCode, x: Item)
    ensures
      Count(IfElseCode(g, t, a, b).code, x)
      == Count(t.code, x) + Count(a.code, x) + Count(b.code, x)
         + (if x in {LabelItem(IfThen(g)), LabelItem(IfElse(g))}
              || (x == LabelItem(IfEnd(g)) && !(a.g.inReturnBlock && b.g.inReturnBlock)) then 1 else 0)
  {
    hide Count;
    var ends := a.g.inReturnBlock && b.g.inReturnBlock;
    var last := if ends then [] else [LabelDef(IfEnd(g))];
    LineCounts(CondBr(t.r, IfThen(g), IfElse(g)), LabelDef(IfThen(g)), x);
    LineCounts(LabelDef(IfElse(g)), LabelDef(IfEnd(g)), x);
    LineCounts(LabelDef(IfEnd(g)), LabelDef(IfEnd(g)), x);
    CountShort(last, x);
    var c1, c2 := Closing(a.g.inReturnBlock, IfEnd(g)), Closing(b.g.inReturnBlock, IfEnd(g));
    ClosingCount(a.g.inReturnBlock, IfEnd(g), x);
    ClosingCount(b.g.inReturnBlock, IfEnd(g), x);
    CountAppend5(t.code, [CondBr(t.r, IfThen(g), IfElse(g)), LabelDef(IfThen(g))], a.code, c1,
                 [LabelDef(IfElse(g))] + (b.code + (c2 + last)), x);
    CountAppend3([LabelDef(IfElse(g))], b.code, c2 + last, x);
    CountAppend(c2, last, x);
  }

  lemma WhileCount(g: Context, t: ExprCode, b: StmtCode, x: Item)
    ensures
      Count(WhileCode(g, t, b).code, x)
      == Count(t.code, x) + Count(b.code, x)
         + (if x in {LabelItem(WhileCond(g)), LabelItem(WhileBody(g)), LabelItem(WhileEnd(g))} then 1 else 0)
  {
    hide Count;
    var first := [Br(WhileCond(g)), LabelDef(WhileCond(g))];
    var second := [CondBr(t.r, WhileBody(g), WhileEnd(g)), LabelDef(WhileBody(g))];
    var closing := Closing(b.g.inReturnBlock, WhileCond(g));
    LineCounts(Br(WhileCond(g)), LabelDef(WhileCond(g)), x);
    LineCounts(CondBr(t.r, WhileBody(g), WhileEnd(g)), LabelDef(WhileBody(g)), x);
    LineCounts(LabelDef(WhileEnd(g)), LabelDef(WhileEnd(g)), x);
    ClosingCount(b.g.inReturnBlock, WhileCond(g), x);
    CountAppend5(first, t.code, second, b.code, closing + [LabelDef(WhileEnd(g))], x);
    CountAppend(closing, [LabelDef(WhileEnd(g))], x);
  }

  lemma DoCount(g: Context, b: StmtCode, t: ExprCode, x: Item)
    ensures
      Count(DoCode(g, b, t).code, x)
      == Count(t.code, x) + Count(b.code, x)
         + (if x in {LabelItem(DoBody(g)), LabelItem(DoCond(g)), LabelItem(DoEnd(g))} then 1 else 0)
  {
    hide Count;
    var first := [Br(DoBody(g)), LabelDef(DoBody(g))];
    var last := [CondBr(t.r, DoBody(g), DoEnd(g)), LabelDef(DoEnd(g))];
    var closing := Closing(b.g.inReturnBlock, DoCond(g));
    LineCounts(Br(DoBody(g)), LabelDef(DoBody(g)), x);
    LineCounts(CondBr(t.r, DoBody(g), DoEnd(g)), LabelDef(DoEnd(g)), x);
    LineCounts(LabelDef(DoCond(g)), LabelDef(DoCond(g)), x);
    ClosingCount(b.g.inReturnBlock, DoCond(g), x);
    CountAppend5(first, b.code, closing, [LabelDef(DoCond(g))], t.code + last, x);
    CountAppend(t.code, last, x);
  }

  lemma ForCount(g: Context, i: StmtCode, t: ExprCode, b: StmtCode, u: ExprCode, x: Item)
    ensures
      Count(ForCode(g, i, t, b, u).code, x)
      == Count(i.code, x) + Count(t.code, x) + Count(b.code, x) + Count(u.code, x)
         + (if x in {LabelItem(ForCond(g)), LabelItem(ForBody(g)), LabelItem(ForUpdate(g)),
                     LabelItem(ForEnd(g))} then 1 else 0)
  {
    hide Count;
    var first := [Br(ForCond(g)), LabelDef(ForCond(g))];
    var last := [Br(ForCond(g)), LabelDef(ForEnd(g))];
    var closing := Closing(b.g.inReturnBlock, ForUpdate(g));
    LineCounts(Br(ForCond(g)), LabelDef(ForCond(g)), x);
    LineCounts(LabelDef(ForBody(g)), LabelDef(ForUpdate(g)), x);
    LineCounts(LabelDef(ForUpdate(g)), LabelDef(ForBody(g)), x);
    LineCounts(Br(ForCond(g)), LabelDef(ForEnd(g)), x);
    ClosingCount(b.g.inReturnBlock, ForUpdate(g), x);
    var tail := [LabelDef(ForUpdate(g))] + (u.code + last);
    CountAppend5(i.code, first, t.code, [LabelDef(ForBody(g))], b.code + (closing + tail), x);
    CountAppend3(b.code, closing, tail, x);
    CountAppend3([LabelDef(ForUpdate(g))], u.code, last, x);
  }

  lemma TestOnce(t: Scopes<Symbol>, c: Counters, e: Expr, x: Item)
    ensures ExprOnce(c, GenTest(t, c, e), x)
  {
    hide GenExpr, Count;
    var v := GenExpr(t, c, e);
    ExprDefinesOnce(t, c, e, x);
    SmallOnce(v.c, e, v.r, x);
    CountAppend(v.code, GenTruth(v.c, e, v.r).code, x);
  }

  lemma GuardOnce(t: Scopes<Symbol>, c: Counters, e: Option<Expr>, b: Label, l: Label, x: Item)
    ensures ExprOnce(c, GenGuard(t, c, e, b, l), x)
    ensures ExprOnce(c, GenUpdate(t, c, e), x)
  {
    hide GenExpr, GenTest;
    if e.Some? {
      TestOnce(t, c, e.value, x);
      ExprDefinesOnce(t, c, e.value, x);
      var v := GenTest(t, c, e.value);
      LineCounts(CondBr(v.r, b, l), Br(b), x);
      CountAppend(v.code, [CondBr(v.r, b, l)], x);
    } else {
      LineCounts(Br(b), Br(b), x);
    }
  }

  lemma InitOnce(g: Context, slot: Slot, e: Expr, v: ExprCode, u: nat, x: Item)
    requires ExprOnce(g.c, v, x) && slot.Local? && u < slot.name.uid == g.table.uid
    ensures DefinesOnce(InitCode(g, slot, e, v).code, x, g.c, u, InitCode(g, slot, e, v).g.c, g.table.uid)
  {
    hide Count;
    var w := GenToInt(v.c, e, v.r);
    var store := [Store(I32, OperandOf(e, w.r), slot)];
    SmallOnce(v.c, e, v.r, x);
    LineCounts(Alloca(slot, I32), Alloca(slot, I32), x);
    LineCounts(Store(I32, OperandOf(e, w.r), slot), Br(Label("", 0)), x);
    CountAppend3([Alloca(slot, I32)], v.code, w.code + store, x);
    CountAppend(w.code, store, x);
  }

  lemma ReturnOnce(g: Context, e: Expr, v: ExprCode, x: Item)
    requires ExprOnce(g.c, v, x)
    ensures StmtOnce(g, ReturnCode(g, e, v).g, ReturnCode(g, e, v).code, x)
  {
    hide Count;
    var w := GenToInt(v.c, e, v.r);
    SmallOnce(v.c, e, v.r, x);
    LineCounts(Ret(OperandOf(e, w.r)), Ret(OperandOf(e, w.r)), x);
    CountAppend3(v.code, w.code, [Ret(OperandOf(e, w.r))], x);
  }

  lemma {:induction false} StmtDefinesOnce(g: Context, s: Stmt, x: Item)
    requires g.table.scopes.Inner?
    ensures StmtOnce(g, GenStmt(g, s).g, GenStmt(g, s).code, x)
    decreases s, 1
  {
    hide GenExpr, GenTest, GenGuard, GenUpdate, Count;
    NothingCounts(x);
    if !g.inReturnBlock {
      match s
      case Block(ss) => StmtsDefineOnce(InNewScope(g), ss, x);
      case Decl(_, _) => DeclDefinesOnce(g, s, x);
      case ExprStmt(e) => ExprDefinesOnce(g.table.scopes, g.c, e, x);
      case If(_, _, _) => IfDefinesOnce(g, s, x);
      case While(c, body) =>
        var t := GenTest(g.table.scopes, TakeLabels(g, 3).c, c);
        TestOnce(g.table.scopes, TakeLabels(g, 3).c, c, x);
        ScopedDefinesOnce(WhileContext(g, t.c), body, x);
        WhileCount(g, t, GenScoped(WhileContext(g, t.c), body), x);
      case DoWhile(body, c) =>
        ScopedDefinesOnce(DoContext(g), body, x);
        var b := GenScoped(DoContext(g), body);
        TestOnce(b.g.table.scopes, b.g.c, c, x);
        DoCount(g, b, GenTest(b.g.table.scopes, b.g.c, c), x);
      case For(_, _, _, _) => ForDefinesOnce(g, s, x);
      case Return(e) =>
        ExprDefinesOnce(g.table.scopes, g.c, e, x);
        ReturnOnce(g, e, GenExpr(g.table.scopes, g.c, e), x);
      case Break => if g.breakLabel.Some? { LineCounts(Br(g.breakLabel.value), Br(g.breakLabel.value), x); }
      case Continue => if g.continueLabel.Some? { LineCounts(Br(g.continueLabel.value), Br(g.continueLabel.value), x); }
      case Empty =>
    }
  }

  lemma NothingCounts(x: Item)
    ensures Count([], x) == 0
  {
  }

  lemma DeclDefinesOnce(g: Context, s: Stmt, x: Item)
    requires s.Decl? && g.table.scopes.Inner?
    ensures StmtOnce(g, GenDecl(g, s.name, s.init).g, GenDecl(g, s.name, s.init).code, x)
  {
    hide GenExpr, Count;
    NothingCounts(x);
    if s.name !in g.table.scopes.vars {
      var slot := SlotOf(NewSymbol(g.table, s.name, VariableSymbol, false));
      var g1 := g.(table := AddSymbol(g.table, s.name, VariableSymbol, false));
      if s.init.None? {
        LineCounts(Alloca(slot, I32), Alloca(slot, I32), x);
      } else {
        ExprDefinesOnce(g1.table.scopes, g1.c, s.init.value, x);
        InitOnce(g1, slot, s.init.value, GenExpr(g1.table.scopes, g1.c, s.init.value), g.table.uid, x);
      }
    }
  }

  lemma {:induction false} IfDefinesOnce(g: Context, s: Stmt, x: Item)
    requires s.If? && !g.inReturnBlock && g.table.scopes.Inner?
    ensures StmtOnce(g, GenStmt(g, s).g, GenStmt(g, s).code, x)
    decreases s, 0
  {
    hide GenExpr, GenTest, Count, GenScoped;
    var t := GenTest(g.table.scopes, TakeLabels(g, 3).c, s.cond);
    TestOnce(g.table.scopes, TakeLabels(g, 3).c, s.cond, x);
    var g1 := g.(c := t.c);
    var a := GenScoped(g1, s.thenStmt);
    ScopedDefinesOnce(g1, s.thenStmt, x);
    if s.elseStmt.None? {
      IfCount(g, t, a, x);
    } else {
      ScopedDefinesOnce(AfterThen(a), s.elseStmt.value, x);
      IfElseCount(g, t, a, GenScoped(AfterThen(a), s.elseStmt.value), x);
    }
  }

  lemma {:induction false} ForDefinesOnce(g: Context, s: Stmt, x: Item)
    requires s.For? && !g.inReturnBlock && g.table.scopes.Inner?
    ensures StmtOnce(g, GenStmt(g, s).g, GenStmt(g, s).code, x)
    decreases s, 0
  {
    hide GenExpr, GenTest, GenGuard, GenUpdate, Count;
    var i := GenStmt(ForContext(g), s.first);
    StmtDefinesOnce(ForContext(g), s.first, x);
    StmtRestores(ForContext(g), s.first);
    var t := GenGuard(i.g.table.scopes, i.g.c, s.guard, ForBody(g), ForEnd(g));
    GuardOnce(i.g.table.scopes, i.g.c, s.guard, ForBody(g), ForEnd(g), x);
    var g1 := i.g.(c := t.c, inReturnBlock := false);
    var b := GenStmt(g1, s.body);
    StmtDefinesOnce(g1, s.body, x);
    StmtRestores(g1, s.body);
    var u := GenUpdate(b.g.table.scopes, b.g.c, s.update);
    GuardOnce(b.g.table.scopes, b.g.c, s.update, ForBody(g), ForEnd(g), x);
    ForCount(g, i, t, b, u, x);
  }

  lemma {:induction false} ScopedDefinesOnce(g: Context, s: Stmt, x: Item)
    ensures StmtOnce(g, GenScoped(g, s).g, GenScoped(g, s).code, x)
    ensures g.table.scopes.Inner? ==> GenScoped(g, s).g.table.scopes.Inner?
    decreases s, 2
  {
    StmtDefinesOnce(InNewScope(g), s, x);
    ScopedRestores(g, s);
  }

  lemma {:induction false} StmtsDefineOnce(g: Context, ss: seq<Stmt>, x: Item)
    requires g.table.scopes.Inner?
    ensures StmtOnce(g, GenStmts(g, ss).g, GenStmts(g, ss).code, x)
    decreases ss, 0
  {
    hide GenStmt, Count;
    NothingCounts(x);
    if ss != [] && !g.inReturnBlock {
      var a := GenStmt(g, ss[0]);
      StmtDefinesOnce(g, ss[0], x);
      StmtRestores(g, ss[0]);
      StmtsDefineOnce(a.g, ss[1..], x);
      CountAppend(a.code, GenStmts(a.g, ss[1..]).code, x);
    }
  }
}
