/** Which names the code of a function defines: labels with the generator's own
    prefixes, temporaries, and slots named after what the source declares. */
module NameShapes {
  import opened Options
  import opened Ast
  import opened Scopes
  import opened Ir
  import opened Codegen
  import opened Definitions
  import opened Statements
  import opened Functions
  import opened Names

  /** Every name the statement declares fits. */
  predicate LocalsFit(s: Stmt, f: string)
    decreases s, 1
  {
    match s
    case Block(ss) => AllLocalsFit(ss, f)
    case Decl(x, _) => Fits(f, x)
    case If(_, a, b) => LocalsFit(a, f) && (b.Some? ==> LocalsFit(b.value, f))
    case While(_, b) => LocalsFit(b, f)
    case DoWhile(b, _) => LocalsFit(b, f)
    case For(first, _, _, b) => LocalsFit(first, f) && LocalsFit(b, f)
    case _ => true
  }

  predicate AllLocalsFit(ss: seq<Stmt>, f: string)
    decreases ss, 0
  {
    ss == [] || (LocalsFit(ss[0], f) && AllLocalsFit(ss[1..], f))
  }

  function Max(a: nat, b: nat): nat { if a < b then b else a }

  /** How many scopes the statement opens inside each other. */
  function Nesting(s: Stmt): nat
    decreases s, 1
  {
    match s
    case Block(ss) => 1 + AllNesting(ss)
    case If(_, a, b) => 1 + Max(Nesting(a), if b.Some? then Nesting(b.value) else 0)
    case While(_, b) => 1 + Nesting(b)
    case DoWhile(b, _) => 1 + Nesting(b)
    case For(first, _, _, b) => 1 + Max(Nesting(first), Nesting(b))
    case _ => 0
  }

  function AllNesting(ss: seq<Stmt>): nat
    decreases ss, 0
  {
    if ss == [] then 0 else Max(Nesting(ss[0]), AllNesting(ss[1..]))
  }

  predicate NameFits(u: UniqueName, f: string) {
    u.InFunction? && u.fn == f && Fits(f, u.base) && u.level <= INT_MAX
  }

  /** A name that function f may define. */
  predicate ItemFits(x: Item, f: string) {
    match x
    case LabelItem(l) => IsLabelPrefix(l.prefix)
    case TempItem(_) => true
    case SlotItem(TempAddr(_)) => true
    case SlotItem(Local(u)) => NameFits(u, f)
    case SlotItem(ParamAddr(u)) => NameFits(u, f)
    case SlotItem(Global(_)) => false
  }

  predicate Named(code: seq<Instr>, x: Item, f: string) { Count(code, x) > 0 ==> ItemFits(x, f) }

  lemma OwnPrefixes()
    ensures
      forall c: Counters ::
        && IsLabelPrefix(LogicalLeft(c).prefix) && IsLabelPrefix(LogicalRight(c).prefix)
        && IsLabelPrefix(LogicalEnd(c).prefix) && IsLabelPrefix(CondTrue(c).prefix)
        && IsLabelPrefix(CondFalse(c).prefix) && IsLabelPrefix(CondEnd(c).prefix)
    ensures
      forall g: Context ::
        && IsLabelPrefix(IfThen(g).prefix) && IsLabelPrefix(IfElse(g).prefix) && IsLabelPrefix(IfEnd(g).prefix)
        && IsLabelPrefix(WhileCond(g).prefix) && IsLabelPrefix(WhileBody(g).prefix) && IsLabelPrefix(WhileEnd(g).prefix)
        && IsLabelPrefix(DoBody(g).prefix) && IsLabelPrefix(DoCond(g).prefix) && IsLabelPrefix(DoEnd(g).prefix)
        && IsLabelPrefix(ForCond(g).prefix) && IsLabelPrefix(ForBody(g).prefix)
        && IsLabelPrefix(ForUpdate(g).prefix) && IsLabelPrefix(ForEnd(g).prefix)
  {
  }

  // ----- Expressions -----

  lemma SmallNamed(c: Counters, e: Expr, r: int, x: Item, f: string)
    ensures Named(GenToInt(c, e, r).code, x, f) && Named(GenTruth(c, e, r).code, x, f)
            && Named(GenPromote(c, e, r).code, x, f)
  {
    CountShort(GenToInt(c, e, r).code, x);
    CountShort(GenTruth(c, e, r).code, x);
    CountShort(GenPromote(c, e, r).code, x);
  }

  lemma LogicalNamed(c: Counters, op: BinaryOp, l: Expr, r: Expr, a: ExprCode, b: ExprCode, x: Item, f: string)
    requires Named(a.code, x, f) && Named(b.code, x, f)
    ensures Named(LogicalCode(c, op, l, r, a, b).code, x, f)
  {
    hide Count, IsLabelPrefix, LogicalCode, GenTruth;
    OwnPrefixes();
    SmallNamed(a.c, l, a.r, x, f);
    SmallNamed(b.c, r, b.r, x, f);
    LogicalCount(c, op, l, r, a, b, x);
  }

  lemma OperatorNamed(op: BinaryOp, l: Expr, r: Expr, a: ExprCode, b: ExprCode, x: Item, f: string)
    requires Named(a.code, x, f) && Named(b.code, x, f)
    ensures Named(OperatorCode(op, l, r, a, b).code, x, f)
  {
    hide Count, OperatorCode, GenPromote;
    var c1 := b.c.(temps := b.c.temps + 1);
    SmallNamed(c1, l, a.r, x, f);
    SmallNamed(GenPromote(c1, l, a.r).c, r, b.r, x, f);
    OperatorCount(op, l, r, a, b, x);
  }

  lemma CondNamed(
    c: Counters, q: Expr, s: Expr, t: Expr, a: ExprCode, b: ExprCode, d: ExprCode, x: Item, f: string)
    requires Named(a.code, x, f) && Named(b.code, x, f) && Named(d.code, x, f)
    ensures Named(CondCode(c, q, s, t, a, b, d).code, x, f)
  {
    hide Count, IsLabelPrefix, CondCode, GenTruth, GenToInt;
    OwnPrefixes();
    SmallNamed(a.c, q, a.r, x, f);
    SmallNamed(b.c, s, b.r, x, f);
    SmallNamed(d.c, t, d.r, x, f);
    CondCount(c, q, s, t, a, b, d, x);
  }

  lemma AssignNamed(sym: Option<Symbol>, e: Expr, v: ExprCode, x: Item, f: string)
    requires Named(v.code, x, f)
    ensures Named(AssignCode(sym, e, v).code, x, f)
  {
    hide Count;
    if sym.Some? {
      var w := GenToInt(v.c, e, v.r);
      var store := [Store(I32, OperandOf(e, w.r), SlotOf(sym.value))];
      SmallNamed(v.c, e, v.r, x, f);
      CountShort(store, x);
      CountAppend3(v.code, w.code, store, x);
    }
  }

  lemma LastNamed(code: seq<Instr>, i: Instr, x: Item, f: string)
    requires Named(code, x, f) && !i.LabelDef? && !i.Alloca?
    ensures Named(code + [i], x, f)
  {
    CountShort([i], x);
    CountAppend(code, [i], x);
  }

  lemma {:induction false} ExprNamed(t: Scopes<Symbol>, c: Counters, e: Expr, x: Item, f: string)
    ensures Named(GenExpr(t, c, e).code, x, f)
    decreases e, 1
  {
    hide Named, LogicalCode, OperatorCode, CondCode, AssignCode, GenTruth, GenToInt;
    match e
    case Number(_) => NothingNamed(x, f);
    case Var(y) => LoadNamed(c, Find(t, y), x, f);
    case Binary(op, l, r) =>
      if op == LAnd || op == LOr {
        var a := GenExpr(t, Reserve(c), l);
        var c1 := GenTruth(a.c, l, a.r).c;
        ExprNamed(t, Reserve(c), l, x, f);
        ExprNamed(t, c1, r, x, f);
        LogicalNamed(c, op, l, r, a, GenExpr(t, c1, r), x, f);
      } else {
        var a := GenExpr(t, c, l);
        ExprNamed(t, c, l, x, f);
        ExprNamed(t, a.c, r, x, f);
        OperatorNamed(op, l, r, a, GenExpr(t, a.c, r), x, f);
      }
    case Assign(y, rhs) =>
      ExprNamed(t, c, rhs, x, f);
      AssignNamed(Find(t, y), rhs, GenExpr(t, c, rhs), x, f);
    case Unary(op, e1) =>
      if IsStep(op) {
        StepNamed(c, op, if e1.Var? then Find(t, e1.name) else None, x, f);
      } else {
        var a := GenExpr(t, c, e1);
        ExprNamed(t, c, e1, x, f);
        LastNamed(a.code, UnaryInstr(op, a.c.temps + 1, OperandOf(e1, a.r)), x, f);
      }
    case Cond(q, s, d) =>
      var a := GenExpr(t, Reserve(c), q);
      var c1 := GenTruth(a.c, q, a.r).c;
      var b := GenExpr(t, c1, s);
      var c2 := GenToInt(b.c, s, b.r).c;
      ExprNamed(t, Reserve(c), q, x, f);
      ExprNamed(t, c1, s, x, f);
      ExprNamed(t, c2, d, x, f);
      CondNamed(c, q, s, d, a, b, GenExpr(t, c2, d), x, f);
    case Call(g, args) =>
      var a := GenArgs(t, c, args);
      ArgsNamed(t, c, args, x, f);
      LastNamed(a.code, CallI(a.c.temps + 1, g, a.args), x, f);
  }

  lemma NothingNamed(x: Item, f: string)
    ensures Named([], x, f)
  {
  }

  lemma LoadNamed(c: Counters, sym: Option<Symbol>, x: Item, f: string)
    ensures Named(LoadCode(c, sym).code, x, f)
  {
    CountShort(LoadCode(c, sym).code, x);
  }

  lemma StepNamed(c: Counters, op: UnaryOp, sym: Option<Symbol>, x: Item, f: string)
    ensures Named(StepCode(c, op, sym).code, x, f)
  {
    CountShort(StepCode(c, op, sym).code, x);
  }

  lemma {:induction false} ArgsNamed(t: Scopes<Symbol>, c: Counters, es: seq<Expr>, x: Item, f: string)
    ensures Named(GenArgs(t, c, es).code, x, f)
    decreases es, 0
  {
    hide Count;
    if es == [] {
      NothingNamed(x, f);
    } else {
      var a := GenExpr(t, c, es[0]);
      ExprNamed(t, c, es[0], x, f);
      ArgsNamed(t, a.c, es[1..], x, f);
      CountAppend(a.code, GenArgs(t, a.c, es[1..]).code, x);
    }
  }

  // ----- Statements -----

  lemma TestNamed(t: Scopes<Symbol>, c: Counters, e: Expr, x: Item, f: string)
    ensures Named(GenTest(t, c, e).code, x, f)
  {
    hide GenExpr, Count;
    var v := GenExpr(t, c, e);
    ExprNamed(t, c, e, x, f);
    SmallNamed(v.c, e, v.r, x, f);
    CountAppend(v.code, GenTruth(v.c, e, v.r).code, x);
  }

  lemma GuardNamed(t: Scopes<Symbol>, c: Counters, e: Option<Expr>, b: Label, l: Label, x: Item, f: string)
    ensures Named(GenGuard(t, c, e, b, l).code, x, f) && Named(GenUpdate(t, c, e).code, x, f)
  {
    hide GenExpr, GenTest, Named;
    NothingNamed(x, f);
    if e.Some? {
      var v := GenTest(t, c, e.value);
      TestNamed(t, c, e.value, x, f);
      ExprNamed(t, c, e.value, x, f);
      LastNamed(v.code, CondBr(v.r, b, l), x, f);
    } else {
      LastNamed([], Br(b), x, f);
      assert [] + [Br(b)] == [Br(b)];
    }
  }

  lemma SlotNamed(t: Table, y: string, isParameter: bool, ty: Type, x: Item, f: string)
    requires t.fn == Some(f) && t.scopes.Inner? && t.level <= INT_MAX && Fits(f, y)
    ensures Named([Alloca(SlotOf(NewSymbol(t, y, VariableSymbol, isParameter)), ty)], x, f)
  {
    CountShort([Alloca(SlotOf(NewSymbol(t, y, VariableSymbol, isParameter)), ty)], x);
  }

  lemma DeclNamed(g: Context, y: string, init: Option<Expr>, x: Item, f: string)
    requires g.table.fn == Some(f) && g.table.scopes.Inner? && g.table.level <= INT_MAX && Fits(f, y)
    ensures Named(GenDecl(g, y, init).code, x, f)
  {
    hide GenExpr, Count, Fits, ItemFits;
    NothingNamed(x, f);
    if y !in g.table.scopes.vars {
      var slot := SlotOf(NewSymbol(g.table, y, VariableSymbol, false));
      var g1 := g.(table := AddSymbol(g.table, y, VariableSymbol, false));
      SlotNamed(g.table, y, false, I32, x, f);
      if init.Some? {
        var e := init.value;
        var v := GenExpr(g1.table.scopes, g1.c, e);
        var w := GenToInt(v.c, e, v.r);
        var store := Store(I32, OperandOf(e, w.r), slot);
        ExprNamed(g1.table.scopes, g1.c, e, x, f);
        SmallNamed(v.c, e, v.r, x, f);
        LastNamed(w.code, store, x, f);
        CountAppend3([Alloca(slot, I32)], v.code, w.code + [store], x);
      }
    }
  }

  /** Inside function f, shallow enough for its statement. */
  predicate Inside(g: Context, s: Stmt, f: string) {
    g.table.fn == Some(f) && g.table.scopes.Inner? && g.table.level + Nesting(s) <= INT_MAX && LocalsFit(s, f)
  }

  lemma {:induction false} StmtNamed(g: Context, s: Stmt, x: Item, f: string)
    requires Inside(g, s, f)
    ensures Named(GenStmt(g, s).code, x, f)
    decreases s, 1
  {
    hide GenExpr, GenTest, GenGuard, GenUpdate, GenDecl, Count, Named, Fits, ReturnCode;
    NothingNamed(x, f);
    if !g.inReturnBlock {
      match s
      case Block(ss) => StmtsNamed(InNewScope(g), ss, x, f);
      case Decl(y, init) => DeclNamed(g, y, init, x, f);
      case ExprStmt(e) => ExprNamed(g.table.scopes, g.c, e, x, f);
      case If(_, _, _) => IfNamed(g, s, x, f);
      case While(_, _) => WhileNamed(g, s, x, f);
      case DoWhile(_, _) => DoNamed(g, s, x, f);
      case For(_, _, _, _) => ForNamed(g, s, x, f);
      case Return(e) => ReturnNamed(g, e, x, f);
      case Break => JumpNamed(g, g.breakLabel, x, f);
      case Continue => JumpNamed(g, g.continueLabel, x, f);
      case Empty =>
    }
  }

  lemma JumpNamed(g: Context, l: Option<Label>, x: Item, f: string)
    ensures Named(GenJump(g, l).code, x, f)
  {
    CountShort(GenJump(g, l).code, x);
  }

  lemma ReturnNamed(g: Context, e: Expr, x: Item, f: string)
    ensures Named(ReturnCode(g, e, GenExpr(g.table.scopes, g.c, e)).code, x, f)
  {
    hide GenExpr, Count;
    var v := GenExpr(g.table.scopes, g.c, e);
    var w := GenToInt(v.c, e, v.r);
    ExprNamed(g.table.scopes, g.c, e, x, f);
    SmallNamed(v.c, e, v.r, x, f);
    LastNamed(w.code, Ret(OperandOf(e, w.r)), x, f);
    CountAppend(v.code, w.code + [Ret(OperandOf(e, w.r))], x);
  }

  lemma {:induction false} ScopedNamed(g: Context, s: Stmt, x: Item, f: string)
    requires g.table.fn == Some(f) && g.table.level + 1 + Nesting(s) <= INT_MAX && LocalsFit(s, f)
    ensures Named(GenScoped(g, s).code, x, f)
    decreases s, 2
  {
    hide GenStmt, LocalsFit, Nesting;
    StmtNamed(InNewScope(g), s, x, f);
  }

  lemma {:induction false} IfNamed(g: Context, s: Stmt, x: Item, f: string)
    requires s.If? && !g.inReturnBlock && Inside(g, s, f)
    ensures Named(GenStmt(g, s).code, x, f)
    decreases s, 0
  {
    hide GenTest, GenScoped, Count, IsLabelPrefix, IfCode, IfElseCode;
    OwnPrefixes();
    var t := GenTest(g.table.scopes, TakeLabels(g, 3).c, s.cond);
    var g1 := g.(c := t.c);
    var a := GenScoped(g1, s.thenStmt);
    TestNamed(g.table.scopes, TakeLabels(g, 3).c, s.cond, x, f);
    ScopedNamed(g1, s.thenStmt, x, f);
    ScopedRestores(g1, s.thenStmt);
    if s.elseStmt.None? {
      IfCount(g, t, a, x);
    } else {
      ScopedNamed(AfterThen(a), s.elseStmt.value, x, f);
      IfElseCount(g, t, a, GenScoped(AfterThen(a), s.elseStmt.value), x);
    }
  }

  lemma {:induction false} WhileNamed(g: Context, s: Stmt, x: Item, f: string)
    requires s.While? && !g.inReturnBlock && Inside(g, s, f)
    ensures Named(GenStmt(g, s).code, x, f)
    decreases s, 0
  {
    hide GenTest, GenScoped, Count, IsLabelPrefix, WhileCode;
    OwnPrefixes();
    var t := GenTest(g.table.scopes, TakeLabels(g, 3).c, s.cond);
    TestNamed(g.table.scopes, TakeLabels(g, 3).c, s.cond, x, f);
    ScopedNamed(WhileContext(g, t.c), s.body, x, f);
    WhileCount(g, t, GenScoped(WhileContext(g, t.c), s.body), x);
  }

  lemma {:induction false} DoNamed(g: Context, s: Stmt, x: Item, f: string)
    requires s.DoWhile? && !g.inReturnBlock && Inside(g, s, f)
    ensures Named(GenStmt(g, s).code, x, f)
    decreases s, 0
  {
    hide GenTest, GenScoped, Count, IsLabelPrefix, DoCode;
    OwnPrefixes();
    var b := GenScoped(DoContext(g), s.body);
    ScopedNamed(DoContext(g), s.body, x, f);
    TestNamed(b.g.table.scopes, b.g.c, s.cond, x, f);
    DoCount(g, b, GenTest(b.g.table.scopes, b.g.c, s.cond), x);
  }

  lemma {:induction false} ForNamed(g: Context, s: Stmt, x: Item, f: string)
    requires s.For? && !g.inReturnBlock && Inside(g, s, f)
    ensures Named(GenStmt(g, s).code, x, f)
    decreases s, 0
  {
    hide GenGuard, GenUpdate, Count, IsLabelPrefix, ForCode;
    OwnPrefixes();
    var i := GenStmt(ForContext(g), s.first);
    StmtNamed(ForContext(g), s.first, x, f);
    StmtRestores(ForContext(g), s.first);
    var t := GenGuard(i.g.table.scopes, i.g.c, s.guard, ForBody(g), ForEnd(g));
    GuardNamed(i.g.table.scopes, i.g.c, s.guard, ForBody(g), ForEnd(g), x, f);
    var g1 := i.g.(c := t.c, inReturnBlock := false);
    var b := GenStmt(g1, s.body);
    StmtNamed(g1, s.body, x, f);
    var u := GenUpdate(b.g.table.scopes, b.g.c, s.update);
    GuardNamed(b.g.table.scopes, b.g.c, s.update, ForBody(g), ForEnd(g), x, f);
    ForCount(g, i, t, b, u, x);
  }

  lemma {:induction false} StmtsNamed(g: Context, ss: seq<Stmt>, x: Item, f: string)
    requires g.table.fn == Some(f) && g.table.scopes.Inner? && g.table.level + AllNesting(ss) <= INT_MAX
             && AllLocalsFit(ss, f)
    ensures Named(GenStmts(g, ss).code, x, f)
    decreases ss, 0
  {
    hide GenStmt, Count, LocalsFit, Nesting;
    NothingNamed(x, f);
    if ss != [] && !g.inReturnBlock {
      var a := GenStmt(g, ss[0]);
      StmtNamed(g, ss[0], x, f);
      StmtRestores(g, ss[0]);
      StmtsNamed(a.g, ss[1..], x, f);
      CountAppend(a.code, GenStmts(a.g, ss[1..]).code, x);
    }
  }

  // ----- Functions -----

  predicate ParamsFit(params: seq<string>, f: string) { forall i :: 0 <= i < |params| ==> Fits(f, params[i]) }

  lemma {:induction false} ParamsNamed(t: Table, params: seq<string>, x: Item, f: string)
    requires t.fn == Some(f) && t.scopes.Inner? && t.level <= INT_MAX && ParamsFit(params, f)
    ensures Named(GenParams(t, params).code, x, f)
    decreases params
  {
    hide Count, ItemFits, Fits;
    NothingNamed(x, f);
    if params != [] {
      var y := params[0];
      var t1 := AddSymbol(t, y, VariableSymbol, true);
      ParamsNamed(t1, params[1..], x, f);
      if y !in t.scopes.vars {
        var slot := SlotOf(NewSymbol(t, y, VariableSymbol, true));
        SlotNamed(t, y, true, I32, x, f);
        LineCounts(Alloca(slot, I32), Store(I32, Incoming(y), slot), x);
        LineCounts(Alloca(slot, I32), Alloca(slot, I32), x);
        CountAppend([Alloca(slot, I32), Store(I32, Incoming(y), slot)], GenParams(t1, params[1..]).code, x);
      }
    }
  }

  /** Identifiers that fit the name buffer, and scopes no deeper than an int
      counts. */
  predicate FunctionFits(f: FunDef) {
    && IsIdentifier(f.name) && ParamsFit(f.params, f.name) && LocalsFit(f.body, f.name)
    && 1 + Nesting(f.body) <= INT_MAX
  }

  lemma FunctionNamed(g: Context, f: FunDef, x: Item)
    requires g.table.scopes.Base? && g.table.level == 0 && FunctionFits(f)
    ensures Named(GenFunction(g, f).code, x, f.name)
  {
    hide GenStmt, GenParams, Count, LocalsFit, Nesting, ParamsFit, ItemFits;
    var g1, g2 := FunctionEntry(g, f), BodyContext(g, f);
    var ps := GenParams(g1.table, f.params);
    var b := GenStmt(g2, f.body);
    ParamsRestore(g1.table, f.params);
    ParamsNamed(g1.table, f.params, x, f.name);
    StmtNamed(g2, f.body, x, f.name);
    var last := Epilogue(b.g.inReturnBlock);
    CountShort(last, x);
    CountAppend3(ps.code, b.code, last, x);
  }
}
