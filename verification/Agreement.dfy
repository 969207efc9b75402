/** A program the checker accepts makes the generator report nothing, although
    the generator gives every branch and loop body a scope of its own and the
    checker does not. */
module Agreement {
  import opened Options
  import opened Ast
  import opened Scopes
  import opened Ir
  import opened Codegen
  import opened Linking
  import opened Statements
  import opened Blocks
  import opened Checker

  /** Whatever the one finds, the other finds. */
  ghost predicate Finds<A, B>(t: Scopes<A>, s: Scopes<B>) {
    forall x :: Find(t, x).Some? ==> Find(s, x).Some?
  }

  /** Whatever the checker finds, the generator finds, a variable exactly where
      the checker has one. */
  ghost predicate Knows(t: Scopes<Sig>, s: Scopes<Symbol>) {
    && Finds(t, s)
    && forall x :: Find(t, x).Some? ==> (Find(t, x).value.VariableSig? <==> IsVariable(s, x))
  }

  lemma KnowsFinds(t: Scopes<Sig>, s: Scopes<Symbol>)
    requires Knows(t, s)
    ensures Finds(t, s) && Finds(t, t)
  {
  }

  lemma PushKnows(t: Scopes<Sig>, s: Scopes<Symbol>)
    requires Knows(t, s)
    ensures Knows(t, Push(s)) && Knows(Push(t), Push(s))
  {
    forall x
      ensures Find(Push(t), x) == Find(t, x) && Find(Push(s), x) == Find(s, x)
    {
    }
  }

  lemma BindKnows(t: Scopes<Sig>, s: Scopes<Symbol>, x: string, sym: Symbol)
    requires Knows(t, s) && sym.kind == VariableSymbol
    ensures Knows(Bind(t, x, VariableSig), Bind(s, x, sym))
    ensures Finds(t, Bind(s, x, sym)) && Finds(t, Bind(t, x, VariableSig))
  {
    forall y
      ensures y != x ==> Find(Bind(t, x, VariableSig), y) == Find(t, y) && Find(Bind(s, x, sym), y) == Find(s, y)
      ensures y == x ==> Find(Bind(t, x, VariableSig), y) == Some(VariableSig) && Find(Bind(s, x, sym), y) == Some(sym)
    {
    }
  }

  // ----- Expressions -----

  lemma SmallErrors(c: Counters, e: Expr, r: int)
    ensures GenToInt(c, e, r).c.errors == GenTruth(c, e, r).c.errors == GenPromote(c, e, r).c.errors == c.errors
  {
  }

  /** The parts report what the whole reports. */
  lemma PartErrors(c: Counters, q: Expr, a: Expr, b: Expr, op: BinaryOp, x: ExprCode, y: ExprCode, z: ExprCode)
    ensures LogicalCode(c, op, a, b, x, y).c.errors == y.c.errors
    ensures OperatorCode(op, a, b, x, y).c.errors == y.c.errors
    ensures CondCode(c, q, a, b, x, y, z).c.errors == z.c.errors
  {
    hide GenToInt, GenTruth, GenPromote;
    SmallErrors(y.c, b, y.r);
    SmallErrors(z.c, b, z.r);
    var c1 := y.c.(temps := y.c.temps + 1);
    var px := GenPromote(c1, a, x.r);
    SmallErrors(c1, a, x.r);
    SmallErrors(px.c, b, y.r);
  }

  lemma NodeErrors(c: Counters, sym: Symbol, op: UnaryOp, e: Expr, x: ExprCode, f: string, a: ArgsCode)
    ensures AssignCode(Some(sym), e, x).c.errors == x.c.errors
    ensures LoadCode(c, Some(sym)).c.errors == StepCode(c, op, Some(sym)).c.errors == c.errors
    ensures UnaryCode(op, e, x).c.errors == x.c.errors
    ensures CallCode(f, a).c.errors == a.c.errors
  {
  }

  lemma NameKnown(t: Scopes<Sig>, s: Scopes<Symbol>, x: string)
    requires Finds(t, s) && CheckName(t, x).errors == 0
    ensures Find(s, x).Some?
  {
  }

  lemma NameResolves(t: Scopes<Sig>, t': Scopes<Sig>, s: Scopes<Symbol>, x: string)
    requires Finds(t, t') && Knows(t', s) && CheckName(t, x).errors == 0
    ensures CheckName(t', x).misuses == 0 <==> IsVariable(s, x)
  {
  }

  /** The names of an expression without errors are all variables for the
      generator exactly when the checker sees no function's name among them. */
  lemma {:induction false} ExprResolves(t: Scopes<Sig>, t': Scopes<Sig>, s: Scopes<Symbol>, e: Expr)
    requires Finds(t, t') && Knows(t', s) && CheckExpr(t, e).errors == 0
    ensures CheckExpr(t', e).misuses == 0 <==> Resolved(s, e)
    decreases e, 1
  {
    hide Knows, Finds, IsVariable, CheckName, CheckCallee, CheckArgs, ArgsResolved;
    match e
    case Number(_) =>
    case Var(x) => NameResolves(t, t', s, x);
    case Binary(_, l, r) =>
      ExprResolves(t, t', s, l);
      ExprResolves(t, t', s, r);
    case Assign(x, rhs) =>
      NameResolves(t, t', s, x);
      ExprResolves(t, t', s, rhs);
    case Unary(_, e1) => ExprResolves(t, t', s, e1);
    case Cond(q, a, b) =>
      ExprResolves(t, t', s, q);
      ExprResolves(t, t', s, a);
      ExprResolves(t, t', s, b);
    case Call(f, args) =>
      CallParts(t, f, args);
      CallParts(t', f, args);
      ArgsResolve(t, t', s, args);
  }

  lemma CallParts(t: Scopes<Sig>, f: string, args: seq<Expr>)
    ensures CheckExpr(t, Call(f, args)).errors == 0 ==> CheckArgs(t, args).errors == 0
    ensures CheckExpr(t, Call(f, args)).misuses == CheckArgs(t, args).misuses
  {
    hide CheckArgs;
  }

  lemma {:induction false} ArgsResolve(t: Scopes<Sig>, t': Scopes<Sig>, s: Scopes<Symbol>, es: seq<Expr>)
    requires Finds(t, t') && Knows(t', s) && CheckArgs(t, es).errors == 0
    ensures CheckArgs(t', es).misuses == 0 <==> ArgsResolved(s, es)
    decreases es, 0
  {
    if es != [] {
      ExprResolves(t, t', s, es[0]);
      ArgsResolve(t, t', s, es[1..]);
    }
  }

  /** The generator reports no undefined name. */
  lemma {:induction false} ExprAgrees(t: Scopes<Sig>, s: Scopes<Symbol>, c: Counters, e: Expr)
    requires Finds(t, s) && InFragment(e) && CheckExpr(t, e).errors == 0
    ensures GenExpr(s, c, e).c.errors == c.errors
    decreases e, 1
  {
    hide Finds;
    match e
    case Number(_) =>
    case Var(x) => NameKnown(t, s, x);
    case Binary(op, l, r) => BinaryAgrees(t, s, c, e);
    case Assign(x, rhs) =>
      NameKnown(t, s, x);
      ExprAgrees(t, s, c, rhs);
      NodeErrors(c, Find(s, x).value, Neg, rhs, GenExpr(s, c, rhs), x, ArgsCode(c, [], []));
    case Unary(op, e1) =>
      if IsStep(op) {
        NameKnown(t, s, e1.name);
      } else {
        ExprAgrees(t, s, c, e1);
      }
    case Cond(q, a, b) => CondAgrees(t, s, c, e);
    case Call(f, args) => ArgsAgree(t, s, c, args);
  }

  lemma {:induction false} BinaryAgrees(t: Scopes<Sig>, s: Scopes<Symbol>, c: Counters, e: Expr)
    requires e.Binary? && Finds(t, s) && InFragment(e) && CheckExpr(t, e).errors == 0
    ensures GenExpr(s, c, e).c.errors == c.errors
    decreases e, 0
  {
    hide Finds, LogicalCode, OperatorCode, GenTruth;
    var op, l, r := e.op, e.left, e.right;
    if op == LAnd || op == LOr {
      var x := GenExpr(s, Reserve(c), l);
      var c1 := GenTruth(x.c, l, x.r).c;
      ExprAgrees(t, s, Reserve(c), l);
      SmallErrors(x.c, l, x.r);
      ExprAgrees(t, s, c1, r);
      PartErrors(c, e, l, r, op, x, GenExpr(s, c1, r), x);
    } else {
      var x := GenExpr(s, c, l);
      ExprAgrees(t, s, c, l);
      ExprAgrees(t, s, x.c, r);
      PartErrors(c, e, l, r, op, x, GenExpr(s, x.c, r), x);
    }
  }

  lemma {:induction false} CondAgrees(t: Scopes<Sig>, s: Scopes<Symbol>, c: Counters, e: Expr)
    requires e.Cond? && Finds(t, s) && InFragment(e) && CheckExpr(t, e).errors == 0
    ensures GenExpr(s, c, e).c.errors == c.errors
    decreases e, 0
  {
    hide Finds, CondCode, GenTruth, GenToInt;
    var q, a, b := e.cond, e.thenExpr, e.elseExpr;
    var x := GenExpr(s, Reserve(c), q);
    var c1 := GenTruth(x.c, q, x.r).c;
    var y := GenExpr(s, c1, a);
    var c2 := GenToInt(y.c, a, y.r).c;
    ExprAgrees(t, s, Reserve(c), q);
    SmallErrors(x.c, q, x.r);
    ExprAgrees(t, s, c1, a);
    SmallErrors(y.c, a, y.r);
    ExprAgrees(t, s, c2, b);
    PartErrors(c, q, a, b, Add, x, y, GenExpr(s, c2, b));
  }

  lemma {:induction false} ArgsAgree(t: Scopes<Sig>, s: Scopes<Symbol>, c: Counters, es: seq<Expr>)
    requires Finds(t, s) && AllValues(es) && CheckArgs(t, es).errors == 0
    ensures GenArgs(s, c, es).c.errors == c.errors
    decreases es, 0
  {
    if es != [] {
      ExprAgrees(t, s, c, es[0]);
      ArgsAgree(t, s, GenExpr(s, c, es[0]).c, es[1..]);
    }
  }

  lemma TestAgrees(t: Scopes<Sig>, s: Scopes<Symbol>, c: Counters, e: Expr)
    requires Knows(t, s) && InFragment(e) && CheckExpr(t, e).errors == 0
    ensures GenTest(s, c, e).c.errors == c.errors
    ensures CheckExpr(t, e).misuses == 0 <==> Resolved(s, e)
  {
    hide Knows, Finds, GenTruth, GenExpr;
    var x := GenExpr(s, c, e);
    KnowsFinds(t, s);
    ExprAgrees(t, s, c, e);
    SmallErrors(x.c, e, x.r);
    ExprResolves(t, t, s, e);
  }

  lemma EffectErrors(t: Scopes<Sig>, s: Scopes<Symbol>, c: Counters, e: Expr)
    requires Finds(t, s) && Discardable(e) && CheckExpr(t, e).errors == 0
    ensures GenExpr(s, c, e).c.errors == c.errors
  {
    hide Finds;
    if InFragment(e) {
      ExprAgrees(t, s, c, e);
    } else {
      NameKnown(t, s, e.name);
    }
  }

  lemma EffectAgrees(t: Scopes<Sig>, s: Scopes<Symbol>, c: Counters, e: Expr)
    requires Knows(t, s) && Discardable(e) && CheckExpr(t, e).errors == 0
    ensures GenExpr(s, c, e).c.errors == c.errors
    ensures CheckExpr(t, e).misuses == 0 <==> Resolved(s, e)
  {
    hide Knows, Finds, GenExpr;
    KnowsFinds(t, s);
    EffectErrors(t, s, c, e);
    ExprResolves(t, t, s, e);
  }

  lemma OptionsAgree(t: Scopes<Sig>, s: Scopes<Symbol>, c: Counters, e: Option<Expr>, b: Label, l: Label)
    requires Knows(t, s) && CheckOption(t, e).errors == 0
    ensures (e.Some? ==> InFragment(e.value)) ==> GenGuard(s, c, e, b, l).c.errors == c.errors
    ensures (e.Some? ==> Discardable(e.value)) ==> GenUpdate(s, c, e).c.errors == c.errors
    ensures CheckOption(t, e).misuses == 0 <==> OptionResolved(s, e)
  {
    hide Knows, Finds, GenExpr, GenTest;
    if e.Some? {
      if InFragment(e.value) {
        TestAgrees(t, s, c, e.value);
      }
      if Discardable(e.value) {
        EffectAgrees(t, s, c, e.value);
      }
      KnowsFinds(t, s);
      ExprResolves(t, t, s, e.value);
    }
  }

  // ----- Statements -----

  /** No branch and no loop body is a declaration.  The checker would put its
      name into the scope around it, the generator into a scope of its own. */
  predicate NoBareDecl(s: Stmt)
    decreases s, 1
  {
    match s
    case Block(ss) => NoneBare(ss)
    case If(_, a, b) => !a.Decl? && NoBareDecl(a) && (b.Some? ==> !b.value.Decl? && NoBareDecl(b.value))
    case While(_, b) => !b.Decl? && NoBareDecl(b)
    case DoWhile(b, _) => !b.Decl? && NoBareDecl(b)
    case For(first, _, _, b) => NoBareDecl(first) && !b.Decl? && NoBareDecl(b)
    case _ => true
  }

  predicate NoneBare(ss: seq<Stmt>)
    decreases ss, 0
  {
    ss == [] || (NoBareDecl(ss[0]) && NoneBare(ss[1..]))
  }

  function CheckedScopes(t: Scopes<Sig>, s: Stmt): Scopes<Sig> {
    if s.Decl? then CheckDecl(t, s.name, None).scopes else t
  }

  /** The checker restores its scopes as the generator does. */
  lemma {:induction false} CheckRestores(t: Scopes<Sig>, s: Stmt)
    requires NoBareDecl(s)
    ensures CheckStmt(t, s).scopes == CheckedScopes(t, s)
    decreases s, 1
  {
    match s
    case Block(ss) => CheckSeqRestores(Push(t), ss);
    case If(_, a, b) =>
      CheckRestores(t, a);
      if b.Some? {
        CheckRestores(t, b.value);
      }
    case While(_, b) => CheckRestores(t, b);
    case DoWhile(b, _) => CheckRestores(t, b);
    case For(first, _, _, b) =>
      CheckRestores(Push(t), first);
      CheckRestores(CheckStmt(Push(t), first).scopes, b);
    case _ =>
  }

  lemma {:induction false} CheckSeqRestores(t: Scopes<Sig>, ss: seq<Stmt>)
    requires NoneBare(ss) && t.Inner?
    ensures CheckStmts(t, ss).scopes.Inner? && CheckStmts(t, ss).scopes.outer == t.outer
    decreases ss, 0
  {
    if ss != [] {
      CheckRestores(t, ss[0]);
      CheckSeqRestores(CheckStmt(t, ss[0]).scopes, ss[1..]);
    }
  }

  /** The innermost generator scope has no name the checker does not know
      there. */
  predicate Tracks(t: Scopes<Sig>, g: Context) {
    g.table.scopes.vars.Keys <= t.vars.Keys
  }

  /** In the fragment there is no jump outside a loop. */
  lemma {:induction false} FragmentCompletes(s: Stmt)
    requires StmtInFragment(s, false)
    ensures CanComplete(s, false) == CanComplete(s, true)
    decreases s, 1
  {
    match s
    case Block(ss) => FragmentAllComplete(ss);
    case If(_, a, b) =>
      FragmentCompletes(a);
      if b.Some? {
        FragmentCompletes(b.value);
      }
    case _ =>
  }

  lemma {:induction false} FragmentAllComplete(ss: seq<Stmt>)
    requires StmtsInFragment(ss, false)
    ensures AllComplete(ss, false) == AllComplete(ss, true)
    decreases ss, 0
  {
    if ss != [] {
      FragmentCompletes(ss[0]);
      FragmentAllComplete(ss[1..]);
    }
  }

  /** Both loop labels or none, and both in a loop. */
  predicate LabelsFit(g: Context, inLoop: bool) {
    LoopLabels(g, g.breakLabel.Some?) && (inLoop ==> g.breakLabel.Some?)
  }

  lemma FlagMeans(g: Context, s: Stmt, inLoop: bool)
    requires !g.inReturnBlock && LabelsFit(g, inLoop) && StmtInFragment(s, inLoop)
    ensures GenStmt(g, s).g.inReturnBlock == !CanComplete(s, true)
  {
    hide GenStmt, CanComplete, StmtInFragment, Scan;
    FragmentPlain(s, inLoop);
    StmtShape(g, s, g.breakLabel.Some?);
    if !g.breakLabel.Some? {
      FragmentCompletes(s);
    }
  }

  ghost predicate CanAgree(t: Scopes<Sig>, g: Context, s: Stmt, inLoop: bool) {
    && !g.inReturnBlock && Knows(t, g.table.scopes) && g.table.scopes.Inner? && (s.Decl? ==> Tracks(t, g))
    && StmtInFragment(s, inLoop) && NoBareDecl(s) && LabelsFit(g, inLoop)
    && CheckStmt(t, s).report.errors == 0
  }

  ghost predicate Agrees(g: Context, x: StmtCode, r: Report, resolved: bool) {
    x.g.c.errors == g.c.errors && (r.misuses == 0 <==> resolved)
  }

  lemma {:induction false} StmtAgrees(t: Scopes<Sig>, g: Context, s: Stmt, inLoop: bool)
    requires CanAgree(t, g, s, inLoop)
    ensures Agrees(g, GenStmt(g, s), CheckStmt(t, s).report, StmtResolved(g, s))
    decreases s, 2
  {
    hide Knows, GenExpr, GenTest, GenGuard, GenUpdate, CheckExpr, Resolved, GenDecl, CheckDecl, CanComplete;
    match s
    case Block(ss) =>
      PushKnows(t, g.table.scopes);
      StmtsAgree(Push(t), InNewScope(g), ss, inLoop);
    case Decl(_, _) => DeclAgrees(t, g, s);
    case ExprStmt(e) => EffectAgrees(t, g.table.scopes, g.c, e);
    case If(_, _, _) => IfAgrees(t, g, s, inLoop);
    case While(_, _) => WhileAgrees(t, g, s, inLoop);
    case DoWhile(_, _) => DoAgrees(t, g, s, inLoop);
    case For(_, _, _, _) => ForAgrees(t, g, s, inLoop);
    case Break =>
    case Continue =>
    case Return(e) => ReturnAgrees(t, g, e);
    case Empty =>
  }

  lemma ReturnAgrees(t: Scopes<Sig>, g: Context, e: Expr)
    requires Knows(t, g.table.scopes) && InFragment(e) && CheckExpr(t, e).errors == 0
    ensures ReturnCode(g, e, GenExpr(g.table.scopes, g.c, e)).g.c.errors == g.c.errors
    ensures CheckExpr(t, e).misuses == 0 <==> Resolved(g.table.scopes, e)
  {
    hide Knows, GenExpr, GenToInt;
    var x := GenExpr(g.table.scopes, g.c, e);
    EffectAgrees(t, g.table.scopes, g.c, e);
    SmallErrors(x.c, e, x.r);
  }

  lemma DeclAgrees(t: Scopes<Sig>, g: Context, s: Stmt)
    requires s.Decl? && Knows(t, g.table.scopes) && Tracks(t, g) && !g.inReturnBlock
    requires s.init.Some? ==> InFragment(s.init.value)
    requires CheckDecl(t, s.name, s.init).report.errors == 0
    ensures Agrees(g, GenDecl(g, s.name, s.init), CheckDecl(t, s.name, s.init).report, StmtResolved(g, s))
  {
    hide Knows, Finds, GenExpr, GenToInt, CheckExpr;
    assert s.name !in g.table.scopes.vars;
    if s.init.Some? {
      var e := s.init.value;
      var g1 := g.(table := AddSymbol(g.table, s.name, VariableSymbol, false));
      BindKnows(t, g.table.scopes, s.name, NewSymbol(g.table, s.name, VariableSymbol, false));
      EffectErrors(t, g1.table.scopes, g1.c, e);
      ExprResolves(t, Bind(t, s.name, VariableSig), g1.table.scopes, e);
      var x := GenExpr(g1.table.scopes, g1.c, e);
      SmallErrors(x.c, e, x.r);
    }
  }

  lemma {:induction false} ScopedAgrees(t: Scopes<Sig>, g: Context, s: Stmt, inLoop: bool)
    requires !g.inReturnBlock && Knows(t, g.table.scopes) && g.table.scopes.Inner? && !s.Decl?
    requires StmtInFragment(s, inLoop) && NoBareDecl(s) && LabelsFit(g, inLoop)
    requires CheckStmt(t, s).report.errors == 0
    ensures Agrees(g, GenScoped(g, s), CheckStmt(t, s).report, ScopedResolved(g, s))
    decreases s, 3
  {
    hide Knows, GenStmt, StmtResolved, CheckStmt;
    PushKnows(t, g.table.scopes);
    StmtAgrees(t, InNewScope(g), s, inLoop);
  }

  /** What the checker's acceptance of a statement says about its parts. */
  lemma PartsCanAgree(t: Scopes<Sig>, s: Stmt, inLoop: bool)
    requires StmtInFragment(s, inLoop) && NoBareDecl(s) && CheckStmt(t, s).report.errors == 0
    ensures s.While? || s.DoWhile? ==>
      && InFragment(s.cond) && StmtInFragment(s.body, true) && !s.body.Decl? && NoBareDecl(s.body)
      && CheckStmt(t, s.body).report.errors == 0
    ensures s.While? ==>
      CheckExpr(t, s.cond).errors == 0
        && CheckStmt(t, s).report == Plus(CheckExpr(t, s.cond), CheckStmt(t, s.body).report)
    ensures s.DoWhile? ==>
      var t1 := CheckStmt(t, s.body).scopes;
      CheckExpr(t1, s.cond).errors == 0
        && CheckStmt(t, s).report == Plus(CheckStmt(t, s.body).report, CheckExpr(t1, s.cond))
    ensures s.If? ==>
      && InFragment(s.cond) && StmtInFragment(s.thenStmt, inLoop) && !s.thenStmt.Decl? && NoBareDecl(s.thenStmt)
      && CheckExpr(t, s.cond).errors == 0 && CheckStmt(t, s.thenStmt).report.errors == 0
  {
  }

  lemma ElseCanAgree(t: Scopes<Sig>, s: Stmt, inLoop: bool)
    requires s.If? && StmtInFragment(s, inLoop) && NoBareDecl(s) && CheckStmt(t, s).report.errors == 0
    ensures s.elseStmt.Some? ==>
      var e, t1 := s.elseStmt.value, CheckStmt(t, s.thenStmt).scopes;
      && StmtInFragment(e, inLoop) && !e.Decl? && NoBareDecl(e) && CheckStmt(t1, e).report.errors == 0
      && CheckStmt(t, s).report
         == Plus(CheckExpr(t, s.cond), Plus(CheckStmt(t, s.thenStmt).report, CheckStmt(t1, e).report))
    ensures s.elseStmt.None? ==> CheckStmt(t, s).report == Plus(CheckExpr(t, s.cond), CheckStmt(t, s.thenStmt).report)
  {
  }

  /** The state after an `if`, and which names must resolve in it. */
  lemma IfParts(g: Context, s: Stmt)
    requires s.If? && !g.inReturnBlock
    ensures
      var x := GenTest(g.table.scopes, TakeLabels(g, 3).c, s.cond);
      var a := GenScoped(g.(c := x.c), s.thenStmt);
      && (s.elseStmt.None? ==>
            GenStmt(g, s).g.c == a.g.c
            && (StmtResolved(g, s) <==> Resolved(g.table.scopes, s.cond) && ScopedResolved(g.(c := x.c), s.thenStmt)))
      && (s.elseStmt.Some? ==>
            GenStmt(g, s).g.c == GenScoped(AfterThen(a), s.elseStmt.value).g.c
            && (StmtResolved(g, s) <==>
                && Resolved(g.table.scopes, s.cond) && ScopedResolved(g.(c := x.c), s.thenStmt)
                && ScopedResolved(AfterThen(a), s.elseStmt.value)))
  {
    hide GenExpr, GenTest, GenScoped, Resolved, ScopedResolved;
  }

  /** The branches of an `if`, compiled after its test. */
  lemma {:induction false} BranchesAgree(t: Scopes<Sig>, g: Context, g1: Context, s: Stmt, inLoop: bool)
    requires s.If? && CanAgree(t, g, s, inLoop) && g1 == g.(c := g1.c) && g1.c.errors == g.c.errors
    ensures Agrees(g, GenScoped(g1, s.thenStmt), CheckStmt(t, s.thenStmt).report, ScopedResolved(g1, s.thenStmt))
    ensures s.elseStmt.Some? ==>
              var a, e := GenScoped(g1, s.thenStmt), s.elseStmt.value;
              Agrees(g, GenScoped(AfterThen(a), e), CheckStmt(CheckStmt(t, s.thenStmt).scopes, e).report,
                     ScopedResolved(AfterThen(a), e))
    decreases s, 0
  {
    hide Knows, GenScoped, CheckExpr, ScopedResolved, CheckStmt, StmtInFragment, NoBareDecl;
    PartsCanAgree(t, s, inLoop);
    ElseCanAgree(t, s, inLoop);
    ScopedAgrees(t, g1, s.thenStmt, inLoop);
    ScopedRestores(g1, s.thenStmt);
    CheckRestores(t, s.thenStmt);
    if s.elseStmt.Some? {
      ScopedAgrees(t, AfterThen(GenScoped(g1, s.thenStmt)), s.elseStmt.value, inLoop);
    }
  }

  lemma {:induction false} IfAgrees(t: Scopes<Sig>, g: Context, s: Stmt, inLoop: bool)
    requires s.If? && CanAgree(t, g, s, inLoop)
    ensures Agrees(g, GenStmt(g, s), CheckStmt(t, s).report, StmtResolved(g, s))
    decreases s, 1
  {
    hide Knows, GenTest, GenScoped, CheckExpr, Resolved, ScopedResolved, CheckStmt, StmtInFragment, NoBareDecl,
         GenStmt, StmtResolved, Tracks, LabelsFit;
    PartsCanAgree(t, s, inLoop);
    ElseCanAgree(t, s, inLoop);
    IfParts(g, s);
    TestAgrees(t, g.table.scopes, TakeLabels(g, 3).c, s.cond);
    BranchesAgree(t, g, g.(c := GenTest(g.table.scopes, TakeLabels(g, 3).c, s.cond).c), s, inLoop);
  }

  lemma {:induction false} WhileAgrees(t: Scopes<Sig>, g: Context, s: Stmt, inLoop: bool)
    requires s.While? && !g.inReturnBlock && CanAgree(t, g, s, inLoop)
    ensures Agrees(g, GenStmt(g, s), CheckStmt(t, s).report, StmtResolved(g, s))
    decreases s, 0
  {
    hide Knows, GenExpr, GenTest, GenScoped, CheckExpr, Resolved, ScopedResolved, CheckStmt, StmtInFragment, NoBareDecl;
    PartsCanAgree(t, s, inLoop);
    TestAgrees(t, g.table.scopes, TakeLabels(g, 3).c, s.cond);
    ScopedAgrees(t, WhileContext(g, GenTest(g.table.scopes, TakeLabels(g, 3).c, s.cond).c), s.body, true);
  }

  lemma {:induction false} DoAgrees(t: Scopes<Sig>, g: Context, s: Stmt, inLoop: bool)
    requires s.DoWhile? && !g.inReturnBlock && CanAgree(t, g, s, inLoop)
    ensures Agrees(g, GenStmt(g, s), CheckStmt(t, s).report, StmtResolved(g, s))
    decreases s, 0
  {
    hide Knows, GenExpr, GenTest, GenScoped, CheckExpr, Resolved, ScopedResolved, CheckStmt, StmtInFragment, NoBareDecl;
    PartsCanAgree(t, s, inLoop);
    ScopedAgrees(t, DoContext(g), s.body, true);
    ScopedRestores(DoContext(g), s.body);
    CheckRestores(t, s.body);
    var b := GenScoped(DoContext(g), s.body);
    TestAgrees(t, b.g.table.scopes, b.g.c, s.cond);
  }

  lemma {:induction false} ForAgrees(t: Scopes<Sig>, g: Context, s: Stmt, inLoop: bool)
    requires s.For? && !g.inReturnBlock && CanAgree(t, g, s, inLoop)
    ensures Agrees(g, GenStmt(g, s), CheckStmt(t, s).report, StmtResolved(g, s))
    decreases s, 0
  {
    hide Knows, GenExpr, GenTest, GenGuard, GenUpdate, CheckExpr, Resolved, CheckOption, OptionResolved;
    PushKnows(t, g.table.scopes);
    var i := GenStmt(ForContext(g), s.first);
    StmtAgrees(Push(t), ForContext(g), s.first, false);
    var t1 := CheckStmt(Push(t), s.first).scopes;
    StepKnows(Push(t), ForContext(g), s.first);
    StmtRestores(ForContext(g), s.first);
    OptionsAgree(t1, i.g.table.scopes, i.g.c, s.guard, ForBody(g), ForEnd(g));
    var g1 := i.g.(c := GenGuard(i.g.table.scopes, i.g.c, s.guard, ForBody(g), ForEnd(g)).c, inReturnBlock := false);
    StmtAgrees(t1, g1, s.body, true);
    StmtRestores(g1, s.body);
    var b := GenStmt(g1, s.body);
    OptionsAgree(t1, b.g.table.scopes, b.g.c, s.update, ForBody(g), ForEnd(g));
  }

  /** A declaration that both passes take puts the name into both tables. */
  lemma StepKnows(t: Scopes<Sig>, g: Context, s: Stmt)
    requires Knows(t, g.table.scopes) && Tracks(t, g) && NoBareDecl(s) && g.table.scopes.Inner?
    requires CheckStmt(t, s).report.errors == 0
    ensures GenStmt(g, s).g.inReturnBlock
            || (Knows(CheckStmt(t, s).scopes, GenStmt(g, s).g.table.scopes)
                && Tracks(CheckStmt(t, s).scopes, GenStmt(g, s).g))
  {
    hide Knows, CheckExpr, GenExpr, GenTest;
    CheckRestores(t, s);
    StmtRestores(g, s);
    if s.Decl? && !g.inReturnBlock {
      assert s.name !in t.vars;
      BindKnows(t, g.table.scopes, s.name, NewSymbol(g.table, s.name, VariableSymbol, false));
    }
  }

  lemma {:induction false} StmtsAgree(t: Scopes<Sig>, g: Context, ss: seq<Stmt>, inLoop: bool)
    requires !g.inReturnBlock && Knows(t, g.table.scopes) && g.table.scopes.Inner? && Tracks(t, g)
    requires StmtsInFragment(ss, inLoop) && NoneBare(ss) && LabelsFit(g, inLoop)
    requires CheckStmts(t, ss).report.errors == 0
    ensures Agrees(g, GenStmts(g, ss), CheckStmts(t, ss).report, StmtsResolved(g, ss))
    decreases ss, 0
  {
    hide Knows, GenStmt, CheckStmt, StmtResolved, CanComplete;
    if ss != [] {
      StmtAgrees(t, g, ss[0], inLoop);
      StepKnows(t, g, ss[0]);
      StmtRestores(g, ss[0]);
      FlagMeans(g, ss[0], inLoop);
      if !GenStmt(g, ss[0]).g.inReturnBlock {
        StmtsAgree(CheckStmt(t, ss[0]).scopes, GenStmt(g, ss[0]).g, ss[1..], inLoop);
      }
    }
  }
}
