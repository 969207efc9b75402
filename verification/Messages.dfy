/** A check of names on the source alone, with C's scopes: the branches of an
    `if` and the bodies of loops are blocks, a name is in scope in its own
    initializer, and only what is compiled is looked at. */
module Scoping {
  import opened Options
  import opened Ast
  import opened Scopes

  type NameTable = Scopes<()>

  function Lost(t: NameTable, x: string): nat { if Find(t, x).None? then 1 else 0 }

  /** How many names of an expression are not in scope. */
  function InExpr(t: NameTable, e: Expr): nat
    decreases e, 1
  {
    match e
    case Number(_) => 0
    case Var(x) => Lost(t, x)
    case Binary(_, l, r) => InExpr(t, l) + InExpr(t, r)
    case Assign(x, v) => InExpr(t, v) + Lost(t, x)
    case Unary(op, e1) => if IsStep(op) && !e1.Var? then 1 else InExpr(t, e1)
    case Cond(c, a, b) => InExpr(t, c) + InExpr(t, a) + InExpr(t, b)
    case Call(_, args) => InArgs(t, args)
  }

  function InArgs(t: NameTable, es: seq<Expr>): nat
    decreases es, 0
  {
    if es == [] then 0 else InExpr(t, es[0]) + InArgs(t, es[1..])
  }

  function InOption(t: NameTable, e: Option<Expr>): nat { if e.None? then 0 else InExpr(t, e.value) }

  /** Only a declaration of a new name changes the scopes. */
  function NamesAfter(t: NameTable, s: Stmt): NameTable {
    if s.Decl? && s.name !in t.vars then Bind(t, s.name, ()) else t
  }

  /** Names used where no declaration of them is in scope, and declarations of a
      name that the innermost scope has already. */
  function InStmt(t: NameTable, s: Stmt): nat
    decreases s, 1
  {
    match s
    case Block(ss) => InStmts(Push(t), ss)
    case Decl(x, init) => if x in t.vars then 1 else InOption(Bind(t, x, ()), init)
    case ExprStmt(e) => InExpr(t, e)
    case If(c, a, b) => InExpr(t, c) + InStmt(Push(t), a) + if b.None? then 0 else InStmt(Push(t), b.value)
    case While(c, body) => InExpr(t, c) + InStmt(Push(t), body)
    case DoWhile(body, c) => InStmt(Push(t), body) + InExpr(t, c)
    case For(first, c, u, body) =>
      var t1 := NamesAfter(Push(t), first);
      InStmt(Push(t), first) + InOption(t1, c) + InStmt(t1, body) + InOption(t1, u)
    case Return(e) => InExpr(t, e)
    case _ => 0
  }

  function InStmts(t: NameTable, ss: seq<Stmt>): nat
    decreases ss, 0
  {
    if ss == [] then 0
    else InStmt(t, ss[0]) + if CanComplete(ss[0], true) then InStmts(NamesAfter(t, ss[0]), ss[1..]) else 0
  }

  function BindAll(t: NameTable, xs: seq<string>): NameTable
    decreases xs
  {
    if xs == [] then t else BindAll(Bind(t, xs[0], ()), xs[1..])
  }

  /** Control can fall off the end of the last function so far. */
  predicate OpenAfter(ds: seq<TopDecl>)
    decreases ds
  {
    ds == [] ||
    var d := ds[|ds| - 1];
    if d.Function? then CanComplete(d.def.body, false) else OpenAfter(ds[..|ds| - 1])
  }

  /** The functions with a prototype are known from the start. */
  function Prototypes(ds: seq<TopDecl>): NameTable
    decreases ds
  {
    if ds == [] then Base(map[])
    else
      var front := Prototypes(ds[..|ds| - 1]);
      if ds[|ds| - 1].Prototype? then Bind(front, ds[|ds| - 1].name, ()) else front
  }

  /** A variable right after a function that never falls off its end is left
      out. */
  function NamesAfterTop(t: NameTable, open: bool, d: TopDecl): NameTable {
    match d
    case GlobalVar(x, _) => if open then Bind(t, x, ()) else t
    case Function(def) => Bind(t, def.name, ())
    case Prototype(_, _) => t
  }

  function InTop(t: NameTable, open: bool, d: TopDecl): nat {
    match d
    case GlobalVar(x, _) => if open && x in t.vars then 1 else 0
    case Function(def) => InStmt(BindAll(Push(Bind(t, def.name, ())), def.params), def.body)
    case Prototype(_, _) => 0
  }

  function NamesOfTops(t: NameTable, ds: seq<TopDecl>): NameTable
    decreases ds
  {
    if ds == [] then t
    else
      var front := ds[..|ds| - 1];
      NamesAfterTop(NamesOfTops(t, front), OpenAfter(front), ds[|ds| - 1])
  }

  function InTops(t: NameTable, ds: seq<TopDecl>): nat
    decreases ds
  {
    if ds == [] then 0
    else
      var front := ds[..|ds| - 1];
      InTops(t, front) + InTop(NamesOfTops(t, front), OpenAfter(front), ds[|ds| - 1])
  }

  function InProgram(ds: seq<TopDecl>): nat { InTops(Prototypes(ds), ds) }
}
/** The generator reports exactly the errors that the check of names on the
    source counts. */
module Messages {
  import opened Options
  import opened Ast
  import opened Scopes
  import opened Ir
  import opened Codegen
  import opened Statements
  import opened Programs
  import opened Agreement
  import opened Checker
  import opened WholeProgram
  import opened Headers
  import opened Scoping
  import Functions

  /** The same names in every scope. */
  predicate Alike(t: NameTable, s: Scopes<Symbol>)
    decreases t
  {
    && t.vars.Keys == s.vars.Keys && t.Base? == s.Base?
    && (t.Inner? && s.Inner? ==> Alike(t.outer, s.outer))
  }

  lemma {:induction false} AlikeFinds(t: NameTable, s: Scopes<Symbol>, x: string)
    requires Alike(t, s)
    ensures Find(t, x).Some? <==> Find(s, x).Some?
    decreases t
  {
    if x !in t.vars && t.Inner? {
      AlikeFinds(t.outer, s.outer, x);
    }
  }

  // ----- Expressions -----

  lemma NameReported(t: NameTable, s: Scopes<Symbol>, c: Counters, x: string, e: Expr, v: ExprCode, op: UnaryOp)
    requires Alike(t, s)
    ensures LoadCode(c, Find(s, x)).c.errors == c.errors + Lost(t, x)
    ensures AssignCode(Find(s, x), e, v).c.errors == v.c.errors + Lost(t, x)
    ensures StepCode(c, op, Find(s, x)).c.errors == c.errors + Lost(t, x)
  {
    hide Find, Alike;
    AlikeFinds(t, s, x);
    SmallErrors(v.c, e, v.r);
  }

  lemma {:induction false} ExprReports(t: NameTable, s: Scopes<Symbol>, c: Counters, e: Expr)
    requires Alike(t, s)
    ensures GenExpr(s, c, e).c.errors == c.errors + InExpr(t, e)
    decreases e, 1
  {
    hide Alike, Lost, LoadCode, AssignCode, StepCode, LogicalCode, OperatorCode, CondCode, GenTruth, GenToInt;
    match e
    case Number(_) =>
    case Var(x) => NameReported(t, s, c, x, e, ExprCode(c, [], 0), Neg);
    case Binary(_, _, _) => BinaryReports(t, s, c, e);
    case Assign(x, rhs) =>
      ExprReports(t, s, c, rhs);
      NameReported(t, s, c, x, rhs, GenExpr(s, c, rhs), Neg);
    case Unary(op, e1) =>
      if !IsStep(op) {
        ExprReports(t, s, c, e1);
      } else if e1.Var? {
        NameReported(t, s, c, e1.name, e, ExprCode(c, [], 0), op);
      } else {
        StepUnknown(c, op);
      }
    case Cond(_, _, _) => ConditionalReports(t, s, c, e);
    case Call(_, args) => ArgsReport(t, s, c, args);
  }

  lemma StepUnknown(c: Counters, op: UnaryOp)
    ensures StepCode(c, op, None).c.errors == c.errors + 1
  {
  }

  lemma {:induction false} BinaryReports(t: NameTable, s: Scopes<Symbol>, c: Counters, e: Expr)
    requires e.Binary? && Alike(t, s)
    ensures GenExpr(s, c, e).c.errors == c.errors + InExpr(t, e)
    decreases e, 0
  {
    hide Alike, LogicalCode, OperatorCode, GenTruth;
    var op, l, r := e.op, e.left, e.right;
    if op == LAnd || op == LOr {
      var x := GenExpr(s, Reserve(c), l);
      var c1 := GenTruth(x.c, l, x.r).c;
      ExprReports(t, s, Reserve(c), l);
      SmallErrors(x.c, l, x.r);
      ExprReports(t, s, c1, r);
      PartErrors(c, e, l, r, op, x, GenExpr(s, c1, r), x);
    } else {
      var x := GenExpr(s, c, l);
      ExprReports(t, s, c, l);
      ExprReports(t, s, x.c, r);
      PartErrors(c, e, l, r, op, x, GenExpr(s, x.c, r), x);
    }
  }

  lemma {:induction false} ConditionalReports(t: NameTable, s: Scopes<Symbol>, c: Counters, e: Expr)
    requires e.Cond? && Alike(t, s)
    ensures GenExpr(s, c, e).c.errors == c.errors + InExpr(t, e)
    decreases e, 0
  {
    hide Alike, CondCode, GenTruth, GenToInt;
    var q, a, b := e.cond, e.thenExpr, e.elseExpr;
    var x := GenExpr(s, Reserve(c), q);
    var c1 := GenTruth(x.c, q, x.r).c;
    var y := GenExpr(s, c1, a);
    var c2 := GenToInt(y.c, a, y.r).c;
    ExprReports(t, s, Reserve(c), q);
    SmallErrors(x.c, q, x.r);
    ExprReports(t, s, c1, a);
    SmallErrors(y.c, a, y.r);
    ExprReports(t, s, c2, b);
    PartErrors(c, q, a, b, Add, x, y, GenExpr(s, c2, b));
  }

  lemma {:induction false} ArgsReport(t: NameTable, s: Scopes<Symbol>, c: Counters, es: seq<Expr>)
    requires Alike(t, s)
    ensures GenArgs(s, c, es).c.errors == c.errors + InArgs(t, es)
    decreases es, 0
  {
    if es != [] {
      ExprReports(t, s, c, es[0]);
      ArgsReport(t, s, GenExpr(s, c, es[0]).c, es[1..]);
    }
  }

  lemma TestReports(t: NameTable, s: Scopes<Symbol>, c: Counters, e: Expr)
    requires Alike(t, s)
    ensures GenTest(s, c, e).c.errors == c.errors + InExpr(t, e)
  {
    hide GenTruth, GenExpr;
    var x := GenExpr(s, c, e);
    ExprReports(t, s, c, e);
    SmallErrors(x.c, e, x.r);
  }

  lemma OptionsReport(t: NameTable, s: Scopes<Symbol>, c: Counters, e: Option<Expr>, b: Label, l: Label)
    requires Alike(t, s)
    ensures GenGuard(s, c, e, b, l).c.errors == c.errors + InOption(t, e)
    ensures GenUpdate(s, c, e).c.errors == c.errors + InOption(t, e)
  {
    hide GenExpr, GenTest;
    if e.Some? {
      TestReports(t, s, c, e.value);
      ExprReports(t, s, c, e.value);
    }
  }

  // ----- Statements -----

  predicate CanReport(t: NameTable, g: Context, s: Stmt, inLoop: bool) {
    !g.inReturnBlock && Alike(t, g.table.scopes) && StmtInFragment(s, inLoop) && LabelsFit(g, inLoop)
  }

  /** So many errors more, and the same names after it. */
  predicate Reports(t: NameTable, g: Context, s: Stmt) {
    && GenStmt(g, s).g.c.errors == g.c.errors + InStmt(t, s)
    && Alike(NamesAfter(t, s), GenStmt(g, s).g.table.scopes)
  }

  lemma AfterAlike(t: NameTable, g: Context, s: Stmt)
    requires !g.inReturnBlock && Alike(t, g.table.scopes)
    ensures Alike(NamesAfter(t, s), GenStmt(g, s).g.table.scopes)
  {
    hide GenStmt;
    StmtRestores(g, s);
  }

  lemma DeclReports(t: NameTable, g: Context, s: Stmt)
    requires s.Decl? && !g.inReturnBlock && Alike(t, g.table.scopes)
    ensures GenDecl(g, s.name, s.init).g.c.errors == g.c.errors + InStmt(t, s)
  {
    hide GenExpr, GenToInt;
    if s.name !in t.vars && s.init.Some? {
      var e := s.init.value;
      var g1 := g.(table := AddSymbol(g.table, s.name, VariableSymbol, false));
      var x := GenExpr(g1.table.scopes, g1.c, e);
      ExprReports(Bind(t, s.name, ()), g1.table.scopes, g1.c, e);
      SmallErrors(x.c, e, x.r);
    }
  }

  lemma ReturnReports(t: NameTable, g: Context, e: Expr)
    requires Alike(t, g.table.scopes)
    ensures ReturnCode(g, e, GenExpr(g.table.scopes, g.c, e)).g.c.errors == g.c.errors + InExpr(t, e)
  {
    hide Alike, GenExpr, GenToInt;
    var x := GenExpr(g.table.scopes, g.c, e);
    ExprReports(t, g.table.scopes, g.c, e);
    SmallErrors(x.c, e, x.r);
  }

  lemma {:induction false} StmtReports(t: NameTable, g: Context, s: Stmt, inLoop: bool)
    requires CanReport(t, g, s, inLoop)
    ensures Reports(t, g, s)
    decreases s, 1
  {
    hide GenExpr, GenTest, GenGuard, GenUpdate, GenDecl, CanComplete, ReturnCode, Alike, InExpr;
    AfterAlike(t, g, s);
    match s
    case Block(ss) =>
      PushAlike(t, g.table.scopes);
      StmtsReport(Push(t), InNewScope(g), ss, inLoop);
    case Decl(_, _) => DeclReports(t, g, s);
    case ExprStmt(e) => ExprReports(t, g.table.scopes, g.c, e);
    case If(_, _, _) => IfReports(t, g, s, inLoop);
    case While(c, body) =>
      TestReports(t, g.table.scopes, TakeLabels(g, 3).c, c);
      ScopedReports(t, WhileContext(g, GenTest(g.table.scopes, TakeLabels(g, 3).c, c).c), body, true);
    case DoWhile(body, c) =>
      ScopedReports(t, DoContext(g), body, true);
      ScopedRestores(DoContext(g), body);
      var b := GenScoped(DoContext(g), body);
      TestReports(t, b.g.table.scopes, b.g.c, c);
    case For(_, _, _, _) => ForReports(t, g, s, inLoop);
    case Return(e) => ReturnReports(t, g, e);
    case _ =>
  }

  lemma PushAlike(t: NameTable, s: Scopes<Symbol>)
    requires Alike(t, s)
    ensures Alike(Push(t), Push(s))
  {
  }

  lemma {:induction false} ScopedReports(t: NameTable, g: Context, s: Stmt, inLoop: bool)
    requires CanReport(t, g, s, inLoop)
    ensures GenScoped(g, s).g.c.errors == g.c.errors + InStmt(Push(t), s)
    decreases s, 2
  {
    hide Alike, GenStmt, InStmt, StmtInFragment;
    PushAlike(t, g.table.scopes);
    StmtReports(Push(t), InNewScope(g), s, inLoop);
  }

  lemma {:induction false} IfReports(t: NameTable, g: Context, s: Stmt, inLoop: bool)
    requires s.If? && CanReport(t, g, s, inLoop)
    ensures GenStmt(g, s).g.c.errors == g.c.errors + InStmt(t, s)
    decreases s, 0
  {
    hide GenTest, GenScoped, Alike, InExpr;
    TestReports(t, g.table.scopes, TakeLabels(g, 3).c, s.cond);
    var g1 := g.(c := GenTest(g.table.scopes, TakeLabels(g, 3).c, s.cond).c);
    ScopedReports(t, g1, s.thenStmt, inLoop);
    ScopedRestores(g1, s.thenStmt);
    if s.elseStmt.Some? {
      ScopedReports(t, AfterThen(GenScoped(g1, s.thenStmt)), s.elseStmt.value, inLoop);
    }
  }

  lemma {:induction false} ForReports(t: NameTable, g: Context, s: Stmt, inLoop: bool)
    requires s.For? && CanReport(t, g, s, inLoop)
    ensures GenStmt(g, s).g.c.errors == g.c.errors + InStmt(t, s)
    decreases s, 0
  {
    hide GenGuard, GenUpdate, Alike, InOption;
    PushAlike(t, g.table.scopes);
    StmtReports(Push(t), ForContext(g), s.first, false);
    StmtRestores(ForContext(g), s.first);
    var t1 := NamesAfter(Push(t), s.first);
    var i := GenStmt(ForContext(g), s.first);
    OptionsReport(t1, i.g.table.scopes, i.g.c, s.guard, ForBody(g), ForEnd(g));
    var g1 := i.g.(c := GenGuard(i.g.table.scopes, i.g.c, s.guard, ForBody(g), ForEnd(g)).c, inReturnBlock := false);
    StmtReports(t1, g1, s.body, true);
    var b := GenStmt(g1, s.body);
    OptionsReport(t1, b.g.table.scopes, b.g.c, s.update, ForBody(g), ForEnd(g));
  }

  lemma {:induction false} StmtsReport(t: NameTable, g: Context, ss: seq<Stmt>, inLoop: bool)
    requires !g.inReturnBlock && Alike(t, g.table.scopes) && StmtsInFragment(ss, inLoop) && LabelsFit(g, inLoop)
    ensures GenStmts(g, ss).g.c.errors == g.c.errors + InStmts(t, ss)
    decreases ss, 0
  {
    hide Alike, GenStmt, InStmt, CanComplete, StmtInFragment;
    if ss != [] {
      StmtReports(t, g, ss[0], inLoop);
      StmtRestores(g, ss[0]);
      FlagMeans(g, ss[0], inLoop);
      if !GenStmt(g, ss[0]).g.inReturnBlock {
        StmtsReport(NamesAfter(t, ss[0]), GenStmt(g, ss[0]).g, ss[1..], inLoop);
      }
    }
  }

  // ----- Whole programs -----

  lemma {:induction false} ParamsAlike(t: NameTable, s: Table, params: seq<string>)
    requires Alike(t, s.scopes)
    ensures Alike(BindAll(t, params), GenParams(s, params).table.scopes)
    decreases params
  {
    if params != [] {
      ParamsAlike(Bind(t, params[0], ()), AddSymbol(s, params[0], VariableSymbol, true), params[1..]);
    }
  }

  lemma TopReports(t: NameTable, g: Context, d: TopDecl)
    requires Alike(t, g.table.scopes) && AtFileLevel(g)
    requires d.Function? ==> d.def.body.Block? && StmtInFragment(d.def.body, false)
    ensures
      var open := !g.inReturnBlock;
      && GenTop(g, d).g.c.errors == g.c.errors + InTop(t, open, d)
      && Alike(NamesAfterTop(t, open, d), GenTop(g, d).g.table.scopes)
  {
    match d {
      case Function(def) => FunctionReports(t, g, def);
      case _ => hide GenFunction;
    }
  }

  lemma FunctionReports(t: NameTable, g: Context, def: FunDef)
    requires Alike(t, g.table.scopes) && AtFileLevel(g) && def.body.Block? && StmtInFragment(def.body, false)
    ensures
      var t1 := BindAll(Push(Bind(t, def.name, ())), def.params);
      && GenFunction(g, def).g.c.errors == g.c.errors + InStmt(t1, def.body)
      && Alike(Bind(t, def.name, ()), GenFunction(g, def).g.table.scopes)
  {
    hide GenStmt, GenParams, InStmt, StmtInFragment;
    var t1 := Push(Bind(t, def.name, ()));
    var g1 := FunctionEntry(g, def);
    ParamsAlike(t1, g1.table, def.params);
    StmtReports(BindAll(t1, def.params), BodyContext(g, def), def.body, false);
    Functions.FunctionRestores(g, def);
  }

  lemma {:induction false} PrototypesAlike(ds: seq<TopDecl>)
    ensures Alike(Prototypes(ds), GenPrototypes(FileStart(), ds).g.table.scopes)
    ensures GenPrototypes(FileStart(), ds).g.c.errors == 0
    decreases ds
  {
    if ds != [] {
      PrototypesAlike(ds[..|ds| - 1]);
    }
  }

  lemma {:induction false} ReportsBefore(ds: seq<TopDecl>, i: nat)
    requires BodiesInFragment(ds) && i <= |ds|
    ensures StateBefore(ds, i).c.errors == InTops(Prototypes(ds), ds[..i])
    ensures Alike(NamesOfTops(Prototypes(ds), ds[..i]), StateBefore(ds, i).table.scopes)
    decreases i
  {
    hide GenTop, InTop, NamesAfterTop, Alike, OpenAfter, StmtInFragment, AtFileLevel, StateBefore;
    if i == 0 {
      StartReports(ds);
    } else {
      ReportsBefore(ds, i - 1);
      OneMore(ds, i - 1);
      BodiesBodied(ds);
      StateOk(ds, i - 1);
      FlagAtFileScope(ds, i - 1);
      TopReports(NamesOfTops(Prototypes(ds), ds[..i - 1]), StateBefore(ds, i - 1), ds[i - 1]);
    }
  }

  lemma StartReports(ds: seq<TopDecl>)
    ensures StateBefore(ds, 0).c.errors == InTops(Prototypes(ds), ds[..0])
    ensures Alike(NamesOfTops(Prototypes(ds), ds[..0]), StateBefore(ds, 0).table.scopes)
  {
    hide Alike, GenPrototypes, Prototypes;
    PrototypesAlike(ds);
    assert ds[..0] == [];
  }

  /** The generator reports exactly as many errors as the source has names out of
      scope and declarations repeated, in what is compiled. */
  lemma ReportsExactly(ds: seq<TopDecl>)
    requires BodiesInFragment(ds)
    ensures GenProgram(ds).g.c.errors == InProgram(ds)
  {
    hide GenTops, InTops, NamesOfTops, GenPrototypes, Prototypes, Alike;
    ReportsBefore(ds, |ds|);
    assert ds[..|ds|] == ds;
  }

  /** What the checker accepts, when no branch is a declaration and no variable
      is left out, has every name in scope by C's rules as well. */
  lemma AcceptedInScope(ds: seq<TopDecl>)
    requires ProgramInFragment(ds) && Ordered(ds) && CheckTypes(ds).errors == 0
    ensures InProgram(ds) == 0
  {
    hide GenProgram, InProgram, ProgramInFragment, Ordered, CheckTypes, BodiesInFragment;
    AcceptedCompilesSilently(ds);
    FragmentBodies(ds);
    ReportsExactly(ds);
  }

  // ----- What add_symbol says itself -----

  /** The generator adds a function's name that is at file scope already; it goes
      on, and add_symbol has its own message for it. */
  predicate AddFails(ds: seq<TopDecl>, i: nat)
    requires i < |ds|
  {
    match ds[i]
    case Prototype(f, _) => f in GenPrototypes(FileStart(), ds[..i]).g.table.scopes.vars
    case Function(def) => def.name in StateBefore(ds, i).table.scopes.vars
    case GlobalVar(_, _) => false
  }

  predicate Declares(d: TopDecl, x: string) { !d.Prototype? && NameOf(d) == x }

  lemma {:induction false} NamesSoFar(t: NameTable, ds: seq<TopDecl>, x: string)
    ensures x in NamesOfTops(t, ds).vars ==> x in t.vars || exists k :: 0 <= k < |ds| && Declares(ds[k], x)
    ensures x in t.vars ==> x in NamesOfTops(t, ds).vars
    ensures (exists k :: 0 <= k < |ds| && ds[k].Function? && Declares(ds[k], x)) ==> x in NamesOfTops(t, ds).vars
    decreases ds
  {
    if ds != [] {
      var n := |ds| - 1;
      NamesSoFar(t, ds[..n], x);
      if k :| 0 <= k < n && Declares(ds[..n][k], x) {
        assert Declares(ds[k], x);
      }
      if k :| 0 <= k < |ds| && ds[k].Function? && Declares(ds[k], x) {
        assert k < n ==> ds[..n][k] == ds[k];
      }
    }
  }

  lemma NamesKnown(ds: seq<TopDecl>, i: nat, x: string)
    requires BodiesInFragment(ds) && i <= |ds|
    ensures
      var before := StateBefore(ds, i).table.scopes.vars;
      && ((exists k :: 0 <= k < |ds| && ds[k].Prototype? && ds[k].name == x) ==> x in before)
      && ((exists k :: 0 <= k < i && ds[k].Function? && Declares(ds[k], x)) ==> x in before)
      && (x in before ==> (exists k :: 0 <= k < |ds| && ds[k].Prototype? && ds[k].name == x)
                          || (exists k :: 0 <= k < i && Declares(ds[k], x)))
  {
    hide StateBefore, NamesOfTops, GenPrototypes, Prototypes, StmtInFragment, Declares;
    ReportsBefore(ds, i);
    PrototypesAlike(ds);
    PrototypeNames(ds, x);
    var t := Prototypes(ds);
    NamesSoFar(t, ds[..i], x);
    if k :| 0 <= k < i && ds[k].Function? && Declares(ds[k], x) {
      assert ds[..i][k] == ds[k];
    }
    if k :| 0 <= k < |ds[..i]| && Declares(ds[..i][k], x) {
      assert Declares(ds[k], x);
    }
  }

  lemma FailureRepeats(ds: seq<TopDecl>, i: nat)
    requires ProgramInFragment(ds) && i < |ds| && AddFails(ds, i)
    ensures !OneHeaderPerName(ds)
  {
    hide StateBefore, GenPrototypes, StmtInFragment, NoBareDecl;
    FragmentBodies(ds);
    var x := NameOf(ds[i]);
    if ds[i].Prototype? {
      PrototypeNames(ds[..i], x);
      var k :| 0 <= k < i && ds[..i][k].Prototype? && ds[..i][k].name == x;
      assert NameOf(ds[k]) == NameOf(ds[i]);
    } else {
      NamesKnown(ds, i, x);
      if k :| 0 <= k < |ds| && ds[k].Prototype? && ds[k].name == x {
        assert NameOf(ds[k]) == NameOf(ds[i]);
      } else {
        var k :| 0 <= k < i && Declares(ds[k], x);
        assert TopInFragment(ds, ds[k]) && IsFunctionName(ds, x);
        assert NameOf(ds[k]) == NameOf(ds[i]);
      }
    }
  }

  lemma RepetitionFails(ds: seq<TopDecl>, i: nat, j: nat)
    requires ProgramInFragment(ds) && i < j < |ds|
    requires !ds[i].GlobalVar? && !ds[j].GlobalVar? && NameOf(ds[i]) == NameOf(ds[j])
    ensures AddFails(ds, i) || AddFails(ds, j)
  {
    hide StateBefore, GenPrototypes, StmtInFragment, ProgramInFragment;
    FragmentBodies(ds);
    var x := NameOf(ds[i]);
    if ds[j].Prototype? && ds[i].Prototype? {
      PrototypeNames(ds[..j], x);
      assert ds[..j][i] == ds[i];
    } else if ds[j].Prototype? {
      NamesKnown(ds, i, x);
    } else {
      NamesKnown(ds, j, x);
      assert ds[i].Function? ==> Declares(ds[i], x);
    }
  }

  /** Every function's name is added without a message of add_symbol exactly when
      none is declared twice. */
  lemma FunctionsAddedExactly(ds: seq<TopDecl>)
    requires ProgramInFragment(ds)
    ensures (forall i :: 0 <= i < |ds| ==> !AddFails(ds, i)) <==> OneHeaderPerName(ds)
  {
    hide AddFails, ProgramInFragment;
    if i :| 0 <= i < |ds| && AddFails(ds, i) {
      FailureRepeats(ds, i);
    }
    if !OneHeaderPerName(ds) {
      var i, j :| 0 <= i < j < |ds| && !ds[i].GlobalVar? && !ds[j].GlobalVar? && NameOf(ds[i]) == NameOf(ds[j]);
      RepetitionFails(ds, i, j);
    }
  }
}
