/** The semantic checker, and what its acceptance tells the generator.  The two
    passes keep symbol tables of their own and open scopes at different
    places. */
module Checker {
  import opened Options
  import opened Ast
  import opened Scopes

  /** What the checker remembers of a name. */
  datatype Sig = VariableSig | FunctionSig(arity: nat)

  /** error_count, and apart from it what the checker lets pass: the uses of a
      function's name as a variable in statements that are compiled. */
  datatype Report = Report(errors: nat, misuses: nat)

  datatype Checked = Checked(scopes: Scopes<Sig>, report: Report)

  function Fine(): Report { Report(0, 0) }

  function Plus(a: Report, b: Report): Report { Report(a.errors + b.errors, a.misuses + b.misuses) }

  function Errors(r: Report): Report { Report(r.errors, 0) }

  function CheckName(t: Scopes<Sig>, x: string): Report {
    match Find<Sig>(t, x)
    case None => Report(1, 0)
    case Some(FunctionSig(_)) => Report(0, 1)
    case Some(VariableSig) => Fine()
  }

  function CheckCallee(t: Scopes<Sig>, f: string, arity: nat): Report {
    match Find<Sig>(t, f)
    case Some(FunctionSig(n)) => if n == arity then Fine() else Report(1, 0)
    case _ => Report(1, 0)
  }

  function CheckExpr(t: Scopes<Sig>, e: Expr): Report
    decreases e, 1
  {
    match e
    case Number(_) => Fine()
    case Var(x) => CheckName(t, x)
    case Binary(_, l, r) => Plus(CheckExpr(t, l), CheckExpr(t, r))
    case Assign(x, v) => Plus(CheckName(t, x), CheckExpr(t, v))
    case Unary(_, e1) => CheckExpr(t, e1)
    case Cond(c, a, b) => Plus(CheckExpr(t, c), Plus(CheckExpr(t, a), CheckExpr(t, b)))
    case Call(f, args) => Plus(CheckCallee(t, f, |args|), CheckArgs(t, args))
  }

  function CheckArgs(t: Scopes<Sig>, es: seq<Expr>): Report
    decreases es, 0
  {
    if es == [] then Fine() else Plus(CheckExpr(t, es[0]), CheckArgs(t, es[1..]))
  }

  function CheckOption(t: Scopes<Sig>, e: Option<Expr>): Report {
    if e.None? then Fine() else CheckExpr(t, e.value)
  }

  /** The initializer is looked at before the name is added.  The name is the
      variable's there all the same (C99 6.2.1), so it is no misuse. */
  function CheckDecl(t: Scopes<Sig>, x: string, init: Option<Expr>): Checked {
    var r := CheckOption(t, init);
    if x in t.vars then Checked(t, Plus(r, Report(1, 0)))
    else
      var t' := Bind(t, x, VariableSig);
      Checked(t', Report(r.errors, CheckOption(t', init).misuses))
  }

  function CheckStmt(t: Scopes<Sig>, s: Stmt): Checked
    decreases s, 1
  {
    match s
    case Block(ss) =>
      var b := CheckStmts(Push(t), ss);
      Checked(Pop(b.scopes), b.report)
    case Decl(x, init) => CheckDecl(t, x, init)
    case ExprStmt(e) => Checked(t, CheckExpr(t, e))
    case If(c, a, b) =>
      var x := CheckStmt(t, a);
      if b.None? then Checked(x.scopes, Plus(CheckExpr(t, c), x.report))
      else
        var y := CheckStmt(x.scopes, b.value);
        Checked(y.scopes, Plus(CheckExpr(t, c), Plus(x.report, y.report)))
    case While(c, body) =>
      var x := CheckStmt(t, body);
      Checked(x.scopes, Plus(CheckExpr(t, c), x.report))
    case DoWhile(body, c) =>
      var x := CheckStmt(t, body);
      Checked(x.scopes, Plus(x.report, CheckExpr(x.scopes, c)))
    case For(first, c, u, body) =>
      var i := CheckStmt(Push(t), first);
      var x := CheckStmt(i.scopes, body);
      Checked(Pop(x.scopes), Plus(i.report, Plus(CheckOption(i.scopes, c), Plus(CheckOption(i.scopes, u), x.report))))
    case Return(e) => Checked(t, CheckExpr(t, e))
    case _ => Checked(t, Fine())
  }

  /** What comes after a statement that never completes is checked but not
      compiled. */
  function CheckStmts(t: Scopes<Sig>, ss: seq<Stmt>): Checked
    decreases ss, 0
  {
    if ss == [] then Checked(t, Fine())
    else
      var x := CheckStmt(t, ss[0]);
      var y := CheckStmts(x.scopes, ss[1..]);
      Checked(y.scopes, Plus(x.report, if CanComplete(ss[0], true) then y.report else Errors(y.report)))
  }

  /** A parameter without a name is passed over. */
  function CheckParams(t: Scopes<Sig>, params: seq<Option<string>>): Checked
    decreases params
  {
    if params == [] then Checked(t, Fine())
    else if params[0].None? then CheckParams(t, params[1..])
    else
      var d := CheckDecl(t, params[0].value, None);
      var rest := CheckParams(d.scopes, params[1..]);
      Checked(rest.scopes, Plus(d.report, rest.report))
  }

  function AllNamed(params: seq<string>): seq<Option<string>>
    decreases params
  {
    if params == [] then [] else [Some(params[0])] + AllNamed(params[1..])
  }

  /** A function's name is added without complaint when it is there already. */
  function AddFunction(t: Scopes<Sig>, f: string, arity: nat): Scopes<Sig> {
    if f in t.vars then t else Bind(t, f, FunctionSig(arity))
  }

  /** The generator looks no name of a file-scope initializer up. */
  function CheckTop(t: Scopes<Sig>, d: TopDecl): Checked {
    match d
    case GlobalVar(x, init) =>
      var c := CheckDecl(t, x, init);
      Checked(c.scopes, Errors(c.report))
    case Function(def) =>
      var t1 := AddFunction(t, def.name, |def.params|);
      var ps := CheckParams(Push(t1), AllNamed(def.params));
      var b := CheckStmt(ps.scopes, def.body);
      Checked(Pop(b.scopes), Plus(ps.report, b.report))
    case Prototype(f, params) =>
      var t1 := AddFunction(t, f, |params|);
      var ps := CheckParams(Push(t1), params);
      Checked(Pop(ps.scopes), ps.report)
  }

  function CheckTops(t: Scopes<Sig>, ds: seq<TopDecl>): Checked
    decreases ds
  {
    if ds == [] then Checked(t, Fine())
    else
      var x := CheckTops(t, ds[..|ds| - 1]);
      var y := CheckTop(x.scopes, ds[|ds| - 1]);
      Checked(y.scopes, Plus(x.report, y.report))
  }

  /** check_types: acceptance means that no error was counted. */
  function CheckTypes(ds: seq<TopDecl>): Report { CheckTops(Base(map[]), ds).report }
}
