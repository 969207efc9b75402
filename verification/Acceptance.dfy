/** Which programs the checker accepts, told by the declarations in scope: every
    name has one before it, no scope has two of a name, and a call has as many
    arguments as its function's first declaration has parameters. */
module Acceptance {
  import opened Options
  import opened Ast
  import opened Scopes
  import opened Linking
  import opened Checker
  import opened WholeProgram

  // ----- Declarations in scope -----

  /** A point of a program: the declarations at file scope before it are the first
      i, and the local variables in scope are some names, those of the innermost
      scope among them. */
  datatype Place = Place(ds: seq<TopDecl>, i: nat, locals: set<string>, here: set<string>)

  ghost predicate DeclaredBefore(ds: seq<TopDecl>, i: nat, x: string)
    requires i <= |ds|
  {
    exists j :: 0 <= j < i && NameOf(ds[j]) == x
  }

  predicate IsFirst(ds: seq<TopDecl>, j: nat)
    requires j < |ds|
  {
    forall k :: 0 <= k < j ==> NameOf(ds[k]) != NameOf(ds[j])
  }

  /** The first declaration of f is one of a function with n parameters. */
  ghost predicate FunctionDeclared(ds: seq<TopDecl>, i: nat, f: string, n: nat)
    requires i <= |ds|
  {
    exists j :: 0 <= j < i && NameOf(ds[j]) == f && IsFirst(ds, j) && !ds[j].GlobalVar? && ArityOf(ds[j]) == n
  }

  ghost predicate InScope(p: Place, x: string)
    requires p.i <= |p.ds|
  {
    x in p.locals || DeclaredBefore(p.ds, p.i, x)
  }

  ghost predicate Callable(p: Place, f: string, n: nat)
    requires p.i <= |p.ds|
  {
    f !in p.locals && FunctionDeclared(p.ds, p.i, f, n)
  }

  // ----- What is well declared -----

  ghost predicate ExprDeclared(p: Place, e: Expr)
    requires p.i <= |p.ds|
    decreases e, 1
  {
    match e
    case Number(_) => true
    case Var(x) => InScope(p, x)
    case Binary(_, l, r) => ExprDeclared(p, l) && ExprDeclared(p, r)
    case Assign(x, v) => InScope(p, x) && ExprDeclared(p, v)
    case Unary(_, e1) => ExprDeclared(p, e1)
    case Cond(c, a, b) => ExprDeclared(p, c) && ExprDeclared(p, a) && ExprDeclared(p, b)
    case Call(f, args) => Callable(p, f, |args|) && ArgsDeclared(p, args)
  }

  ghost predicate ArgsDeclared(p: Place, es: seq<Expr>)
    requires p.i <= |p.ds|
    decreases es, 0
  {
    es == [] || (ExprDeclared(p, es[0]) && ArgsDeclared(p, es[1..]))
  }

  ghost predicate OptionDeclared(p: Place, e: Option<Expr>)
    requires p.i <= |p.ds|
  {
    e.Some? ==> ExprDeclared(p, e.value)
  }

  /** The names a statement leaves in the scope around it.  A branch or loop body
      is no scope to the checker. */
  function Leaves(s: Stmt): set<string> {
    match s
    case Decl(x, _) => {x}
    case If(_, a, b) => Leaves(a) + if b.Some? then Leaves(b.value) else {}
    case While(_, b) => Leaves(b)
    case DoWhile(b, _) => Leaves(b)
    case _ => {}
  }

  function Behind(p: Place, s: Stmt): Place { p.(locals := p.locals + Leaves(s), here := p.here + Leaves(s)) }

  function Inside(p: Place): Place { p.(here := {}) }

  /** An initializer comes before its name. */
  ghost predicate StmtDeclared(p: Place, s: Stmt)
    requires p.i <= |p.ds|
    decreases s, 1
  {
    match s
    case Block(ss) => StmtsDeclared(Inside(p), ss)
    case Decl(x, init) => x !in p.here && OptionDeclared(p, init)
    case ExprStmt(e) => ExprDeclared(p, e)
    case If(c, a, b) =>
      ExprDeclared(p, c) && StmtDeclared(p, a) && (b.Some? ==> StmtDeclared(Behind(p, a), b.value))
    case While(c, b) => ExprDeclared(p, c) && StmtDeclared(p, b)
    case DoWhile(b, c) => StmtDeclared(p, b) && ExprDeclared(Behind(p, b), c)
    case For(first, c, u, b) =>
      var q := Behind(Inside(p), first);
      StmtDeclared(Inside(p), first) && OptionDeclared(q, c) && OptionDeclared(q, u) && StmtDeclared(q, b)
    case Return(e) => ExprDeclared(p, e)
    case _ => true
  }

  ghost predicate StmtsDeclared(p: Place, ss: seq<Stmt>)
    requires p.i <= |p.ds|
    decreases ss, 0
  {
    ss == [] || (StmtDeclared(p, ss[0]) && StmtsDeclared(Behind(p, ss[0]), ss[1..]))
  }

  function NamesOf(xs: seq<string>): set<string> { set x | x in xs }

  predicate DistinctParams(ps: seq<Option<string>>) {
    forall i, j :: 0 <= i < j < |ps| && ps[i].Some? ==> ps[i] != ps[j]
  }

  /** A function's name is in scope in its body. */
  ghost predicate TopDeclared(ds: seq<TopDecl>, i: nat)
    requires i < |ds|
  {
    match ds[i]
    case GlobalVar(x, init) => !DeclaredBefore(ds, i, x) && OptionDeclared(Place(ds, i, {}, {}), init)
    case Function(def) =>
      && DistinctNames(def.params)
      && StmtDeclared(Place(ds, i + 1, NamesOf(def.params), NamesOf(def.params)), def.body)
    case Prototype(_, params) => DistinctParams(params)
  }

  ghost predicate WellDeclared(ds: seq<TopDecl>) { forall i :: 0 <= i < |ds| ==> TopDeclared(ds, i) }

  // ----- What the checker remembers -----

  function SigOf(d: TopDecl): Sig { if d.GlobalVar? then VariableSig else FunctionSig(ArityOf(d)) }

  /** What the first of the declarations of a name says. */
  function FirstSig(ds: seq<TopDecl>, i: nat, x: string): Option<Sig>
    requires i <= |ds|
    decreases i
  {
    if i == 0 then None
    else if FirstSig(ds, i - 1, x).Some? then FirstSig(ds, i - 1, x)
    else if NameOf(ds[i - 1]) == x then Some(SigOf(ds[i - 1])) else None
  }

  lemma {:induction false} FirstSigMeans(ds: seq<TopDecl>, i: nat, x: string)
    requires i <= |ds|
    ensures FirstSig(ds, i, x).Some? <==> DeclaredBefore(ds, i, x)
    ensures forall n: nat :: FirstSig(ds, i, x) == Some(FunctionSig(n)) <==> FunctionDeclared(ds, i, x, n)
    decreases i
  {
    if i > 0 {
      FirstSigMeans(ds, i - 1, x);
      var d := ds[i - 1];
      forall n: nat
        ensures FunctionDeclared(ds, i, x, n) <==>
                FunctionDeclared(ds, i - 1, x, n)
                || (NameOf(d) == x && !DeclaredBefore(ds, i - 1, x) && !d.GlobalVar? && ArityOf(d) == n)
      {
      }
      assert DeclaredBefore(ds, i, x) <==> DeclaredBefore(ds, i - 1, x) || NameOf(d) == x;
    }
  }

  function SigAt(p: Place, x: string): Option<Sig>
    requires p.i <= |p.ds|
  {
    if x in p.locals then Some(VariableSig) else FirstSig(p.ds, p.i, x)
  }

  ghost predicate Sees(t: Scopes<Sig>, p: Place) {
    p.i <= |p.ds| && forall x :: Find(t, x) == SigAt(p, x)
  }

  ghost predicate Stands(t: Scopes<Sig>, p: Place) {
    Sees(t, p) && t.Inner? && t.vars.Keys == p.here && p.here <= p.locals
  }

  // ----- Expressions -----

  lemma NameExactly(t: Scopes<Sig>, p: Place, x: string)
    requires Sees(t, p)
    ensures CheckName(t, x).errors == 0 <==> InScope(p, x)
  {
    FirstSigMeans(p.ds, p.i, x);
  }

  lemma CalleeExactly(t: Scopes<Sig>, p: Place, f: string, n: nat)
    requires Sees(t, p)
    ensures CheckCallee(t, f, n).errors == 0 <==> Callable(p, f, n)
  {
    FirstSigMeans(p.ds, p.i, f);
  }

  lemma {:induction false} ExprExactly(t: Scopes<Sig>, p: Place, e: Expr)
    requires Sees(t, p)
    ensures CheckExpr(t, e).errors == 0 <==> ExprDeclared(p, e)
    decreases e, 1
  {
    hide Sees, CheckName, CheckCallee, InScope, Callable;
    SeesMeans(t, p);
    match e
    case Number(_) =>
    case Var(x) => NameExactly(t, p, x);
    case Binary(_, l, r) =>
      ExprExactly(t, p, l);
      ExprExactly(t, p, r);
    case Assign(x, v) =>
      NameExactly(t, p, x);
      ExprExactly(t, p, v);
    case Unary(_, e1) => ExprExactly(t, p, e1);
    case Cond(c, a, b) =>
      ExprExactly(t, p, c);
      ExprExactly(t, p, a);
      ExprExactly(t, p, b);
    case Call(f, args) =>
      CalleeExactly(t, p, f, |args|);
      ArgsExactly(t, p, args);
  }

  lemma SeesMeans(t: Scopes<Sig>, p: Place)
    requires Sees(t, p)
    ensures p.i <= |p.ds|
  {
  }

  lemma {:induction false} ArgsExactly(t: Scopes<Sig>, p: Place, es: seq<Expr>)
    requires Sees(t, p)
    ensures CheckArgs(t, es).errors == 0 <==> ArgsDeclared(p, es)
    decreases es, 0
  {
    hide Sees;
    SeesMeans(t, p);
    if es != [] {
      ExprExactly(t, p, es[0]);
      ArgsExactly(t, p, es[1..]);
    }
  }

  lemma OptionExactly(t: Scopes<Sig>, p: Place, e: Option<Expr>)
    requires Sees(t, p)
    ensures CheckOption(t, e).errors == 0 <==> OptionDeclared(p, e)
  {
    hide Sees, CheckExpr, ExprDeclared;
    SeesMeans(t, p);
    if e.Some? {
      ExprExactly(t, p, e.value);
    }
  }

  // ----- Statements -----

  lemma StandsMeans(t: Scopes<Sig>, p: Place)
    requires Stands(t, p)
    ensures Sees(t, p) && p.i <= |p.ds| && t.Inner?
  {
  }

  lemma PushStands(t: Scopes<Sig>, p: Place)
    requires Sees(t, p)
    ensures Stands(Push(t), Inside(p))
  {
    forall x
      ensures Find(Push(t), x) == Find(t, x)
    {
    }
  }

  lemma DeclExactly(t: Scopes<Sig>, p: Place, x: string, init: Option<Expr>, s: Stmt)
    requires Stands(t, p) && s == Decl(x, init)
    ensures CheckDecl(t, x, init).report.errors == 0 <==> StmtDeclared(p, s)
    ensures
      var t' := CheckDecl(t, x, init).scopes;
      Stands(t', Behind(p, s)) && t.Inner? && t'.Inner? && t'.outer == t.outer
  {
    hide CheckOption, OptionDeclared;
    OptionExactly(t, p, init);
    var t' := CheckDecl(t, x, init).scopes;
    assert t'.vars.Keys == p.here + {x};
    forall y
      ensures Find(t', y) == SigAt(Behind(p, s), y)
    {
      assert Find(t, y) == SigAt(p, y);
      if x in t.vars {
        assert x in p.locals;
      } else {
        assert Find(Bind(t, x, VariableSig), y) == if y == x then Some(VariableSig) else Find(t, y);
      }
    }
  }

  /** The statement is accepted exactly when it is well declared, and leaves its
      names. */
  ghost predicate Exactly(t: Scopes<Sig>, p: Place, s: Stmt)
    requires p.i <= |p.ds|
  {
    var x := CheckStmt(t, s);
    && (x.report.errors == 0 <==> StmtDeclared(p, s))
    && Stands(x.scopes, Behind(p, s))
    && t.Inner? && x.scopes.Inner? && x.scopes.outer == t.outer
  }

  lemma {:induction false} StmtExactly(t: Scopes<Sig>, p: Place, s: Stmt)
    requires Stands(t, p)
    ensures p.i <= |p.ds| && Exactly(t, p, s)
    decreases s, 1
  {
    hide Stands, Sees, CheckExpr, ExprDeclared, CheckOption, OptionDeclared, CheckDecl;
    StandsMeans(t, p);
    match s
    case Block(ss) =>
      PushStands(t, p);
      StmtsExactly(Push(t), Inside(p), ss);
      Nowhere(t, p, s);
    case Decl(x, init) => DeclExactly(t, p, x, init, s);
    case ExprStmt(e) =>
      ExprExactly(t, p, e);
      Nowhere(t, p, s);
    case If(c, a, b) =>
      ExprExactly(t, p, c);
      StmtExactly(t, p, a);
      var x := CheckStmt(t, a);
      if b.Some? {
        StmtExactly(x.scopes, Behind(p, a), b.value);
        BehindBoth(p, a, b.value, s);
      } else {
        BehindOne(p, a, s);
      }
    case While(c, b) =>
      ExprExactly(t, p, c);
      StmtExactly(t, p, b);
      BehindOne(p, b, s);
    case DoWhile(b, c) =>
      StmtExactly(t, p, b);
      StandsMeans(CheckStmt(t, b).scopes, Behind(p, b));
      ExprExactly(CheckStmt(t, b).scopes, Behind(p, b), c);
      BehindOne(p, b, s);
    case For(first, c, u, b) =>
      PushStands(t, p);
      StmtExactly(Push(t), Inside(p), first);
      var q, t1 := Behind(Inside(p), first), CheckStmt(Push(t), first).scopes;
      StandsMeans(t1, q);
      OptionExactly(t1, q, c);
      OptionExactly(t1, q, u);
      StmtExactly(t1, q, b);
      Nowhere(t, p, s);
    case Return(e) =>
      ExprExactly(t, p, e);
      Nowhere(t, p, s);
    case _ => Nowhere(t, p, s);
  }

  lemma Nowhere(t: Scopes<Sig>, p: Place, s: Stmt)
    requires Leaves(s) == {} && Stands(t, p)
    ensures Stands(t, Behind(p, s))
  {
    assert Behind(p, s) == p by {
      assert p.locals + {} == p.locals && p.here + {} == p.here;
    }
  }

  lemma BehindOne(p: Place, a: Stmt, s: Stmt)
    requires Leaves(s) == Leaves(a)
    ensures Behind(p, s) == Behind(p, a)
  {
  }

  lemma BehindBoth(p: Place, a: Stmt, b: Stmt, s: Stmt)
    requires Leaves(s) == Leaves(a) + Leaves(b)
    ensures Behind(p, s) == Behind(Behind(p, a), b)
  {
    assert p.locals + (Leaves(a) + Leaves(b)) == (p.locals + Leaves(a)) + Leaves(b);
    assert p.here + (Leaves(a) + Leaves(b)) == (p.here + Leaves(a)) + Leaves(b);
  }

  lemma {:induction false} StmtsExactly(t: Scopes<Sig>, p: Place, ss: seq<Stmt>)
    requires Stands(t, p)
    ensures p.i <= |p.ds| && (CheckStmts(t, ss).report.errors == 0 <==> StmtsDeclared(p, ss))
    ensures t.Inner? && CheckStmts(t, ss).scopes.Inner? && CheckStmts(t, ss).scopes.outer == t.outer
    decreases ss, 0
  {
    hide Stands, Sees, CheckStmt, StmtDeclared, CanComplete;
    StandsMeans(t, p);
    if ss != [] {
      StmtExactly(t, p, ss[0]);
      StmtsExactly(CheckStmt(t, ss[0]).scopes, Behind(p, ss[0]), ss[1..]);
    }
  }

  // ----- Parameters -----

  /** Named parameters differ from each other and from what is in scope already. */
  predicate ParamsNew(here: set<string>, ps: seq<Option<string>>) {
    DistinctParams(ps) && forall i :: 0 <= i < |ps| && ps[i].Some? ==> ps[i].value !in here
  }

  function ParamNames(ps: seq<Option<string>>): set<string> { set o | o in ps && o.Some? :: o.value }

  lemma NewStep(here: set<string>, ps: seq<Option<string>>)
    requires ps != []
    ensures ParamsNew(here, ps) <==>
            if ps[0].None? then ParamsNew(here, ps[1..])
            else ps[0].value !in here && ParamsNew(here + {ps[0].value}, ps[1..])
    ensures ParamNames(ps) == ParamNames(ps[1..]) + if ps[0].Some? then {ps[0].value} else {}
  {
    var rest := ps[1..];
    assert ps == [ps[0]] + rest;
    if ParamsNew(here, ps) {
      forall i, j | 0 <= i < j < |rest| && rest[i].Some?
        ensures rest[i] != rest[j]
      {
        assert rest[i] == ps[i + 1] && rest[j] == ps[j + 1];
      }
      forall i | 0 <= i < |rest| && rest[i].Some?
        ensures rest[i].value !in here && rest[i] != ps[0]
      {
        assert rest[i] == ps[i + 1];
      }
    }
    if (if ps[0].None? then ParamsNew(here, rest) else ps[0].value !in here && ParamsNew(here + {ps[0].value}, rest)) {
      forall i, j | 0 <= i < j < |ps| && ps[i].Some?
        ensures ps[i] != ps[j]
      {
        assert ps[j] == rest[j - 1];
        if i > 0 {
          assert ps[i] == rest[i - 1];
        }
      }
      forall i | 0 <= i < |ps| && ps[i].Some?
        ensures ps[i].value !in here
      {
        if i > 0 {
          assert ps[i] == rest[i - 1];
        }
      }
    }
  }

  lemma {:induction false} ParamsExactly(t: Scopes<Sig>, p: Place, ps: seq<Option<string>>)
    requires Stands(t, p)
    ensures
      var x := CheckParams(t, ps);
      && (x.report.errors == 0 <==> ParamsNew(p.here, ps))
      && Stands(x.scopes, p.(locals := p.locals + ParamNames(ps), here := p.here + ParamNames(ps)))
      && x.scopes.outer == t.outer
    decreases ps
  {
    hide CheckDecl, ParamsNew, ParamNames, Stands;
    StandsMeans(t, p);
    if ps == [] {
      NoParameter(t, p, ps);
    } else {
      NewStep(p.here, ps);
      if ps[0].None? {
        ParamsExactly(t, p, ps[1..]);
        assert ParamNames(ps) == ParamNames(ps[1..]);
      } else {
        var s := Decl(ps[0].value, None);
        DeclExactly(t, p, ps[0].value, None, s);
        ParamsExactly(CheckDecl(t, ps[0].value, None).scopes, Behind(p, s), ps[1..]);
        assert p.locals + ParamNames(ps) == (p.locals + {ps[0].value}) + ParamNames(ps[1..]);
        assert p.here + ParamNames(ps) == (p.here + {ps[0].value}) + ParamNames(ps[1..]);
      }
    }
  }

  lemma NoParameter(t: Scopes<Sig>, p: Place, ps: seq<Option<string>>)
    requires Stands(t, p) && ps == []
    ensures ParamsNew(p.here, ps) && Stands(t, p.(locals := p.locals + ParamNames(ps), here := p.here + ParamNames(ps)))
  {
    assert ParamNames(ps) == {} && p.locals + {} == p.locals && p.here + {} == p.here;
  }

  lemma {:induction false} AllNamedAre(xs: seq<string>)
    ensures |AllNamed(xs)| == |xs| && forall i :: 0 <= i < |xs| ==> AllNamed(xs)[i] == Some(xs[i])
    decreases xs
  {
    if xs != [] {
      AllNamedAre(xs[1..]);
    }
  }

  lemma NamedParams(xs: seq<string>)
    ensures ParamsNew({}, AllNamed(xs)) <==> DistinctNames(xs)
    ensures ParamNames(AllNamed(xs)) == NamesOf(xs)
  {
    AllNamedAre(xs);
    forall x
      ensures x in ParamNames(AllNamed(xs)) <==> x in NamesOf(xs)
    {
      if x in xs {
        var i :| 0 <= i < |xs| && xs[i] == x;
        assert AllNamed(xs)[i] == Some(x) && Some(x) in AllNamed(xs);
      }
      if Some(x) in AllNamed(xs) {
        var i :| 0 <= i < |AllNamed(xs)| && AllNamed(xs)[i] == Some(x);
        assert xs[i] == x;
      }
    }
  }

  // ----- Declarations at file scope -----

  /** The checker's file scope is made of the first declarations. */
  ghost predicate AtFile(t: Scopes<Sig>, ds: seq<TopDecl>, i: nat) {
    t.Base? && i <= |ds| && forall x :: Find(t, x) == FirstSig(ds, i, x)
  }

  lemma FileSees(t: Scopes<Sig>, ds: seq<TopDecl>, i: nat)
    requires AtFile(t, ds, i)
    ensures Sees(t, Place(ds, i, {}, {}))
  {
  }

  lemma AddsFirst(t: Scopes<Sig>, ds: seq<TopDecl>, i: nat)
    requires AtFile(t, ds, i) && i < |ds|
    ensures
      var x := NameOf(ds[i]);
      AtFile(if x in t.vars then t else Bind(t, x, SigOf(ds[i])), ds, i + 1)
  {
    var x := NameOf(ds[i]);
    forall y
      ensures Find(Bind(t, x, SigOf(ds[i])), y) == if y == x then Some(SigOf(ds[i])) else Find(t, y)
      ensures y in t.vars <==> Find(t, y).Some?
    {
    }
  }

  lemma TopExactly(t: Scopes<Sig>, ds: seq<TopDecl>, i: nat)
    requires AtFile(t, ds, i) && i < |ds|
    ensures CheckTop(t, ds[i]).report.errors == 0 <==> TopDeclared(ds, i)
    ensures AtFile(CheckTop(t, ds[i]).scopes, ds, i + 1)
  {
    AddsFirst(t, ds, i);
    match ds[i]
    case GlobalVar(x, init) => VariableExactly(t, ds, i);
    case Function(def) => FunctionExactly(t, ds, i);
    case Prototype(f, params) => PrototypeExactly(t, ds, i);
  }

  lemma VariableExactly(t: Scopes<Sig>, ds: seq<TopDecl>, i: nat)
    requires AtFile(t, ds, i) && i < |ds| && ds[i].GlobalVar?
    ensures CheckTop(t, ds[i]).report.errors == 0 <==> TopDeclared(ds, i)
  {
    hide CheckOption, OptionDeclared;
    var x := ds[i].name;
    FileSees(t, ds, i);
    OptionExactly(t, Place(ds, i, {}, {}), ds[i].init);
    FirstSigMeans(ds, i, x);
    assert x in t.vars <==> Find(t, x).Some?;
  }

  lemma FunctionExactly(t: Scopes<Sig>, ds: seq<TopDecl>, i: nat)
    requires AtFile(t, ds, i) && i < |ds| && ds[i].Function?
    ensures CheckTop(t, ds[i]).report.errors == 0 <==> TopDeclared(ds, i)
    ensures CheckTop(t, ds[i]).scopes == AddFunction(t, ds[i].def.name, |ds[i].def.params|)
  {
    hide CheckStmt, StmtDeclared, CheckParams, AllNamed, DistinctNames, Stands, ParamsNew, ParamNames;
    var def := ds[i].def;
    AddsFirst(t, ds, i);
    var t1 := AddFunction(t, def.name, |def.params|);
    var p := Place(ds, i + 1, {}, {});
    FileSees(t1, ds, i + 1);
    PushStands(t1, p);
    ParamsExactly(Push(t1), p, AllNamed(def.params));
    NamedParams(def.params);
    var names := NamesOf(def.params);
    assert {} + names == names;
    StmtExactly(CheckParams(Push(t1), AllNamed(def.params)).scopes, Place(ds, i + 1, names, names), def.body);
  }

  lemma PrototypeExactly(t: Scopes<Sig>, ds: seq<TopDecl>, i: nat)
    requires AtFile(t, ds, i) && i < |ds| && ds[i].Prototype?
    ensures CheckTop(t, ds[i]).report.errors == 0 <==> TopDeclared(ds, i)
    ensures CheckTop(t, ds[i]).scopes == AddFunction(t, ds[i].name, |ds[i].params|)
  {
    hide CheckParams, Stands;
    var params := ds[i].params;
    AddsFirst(t, ds, i);
    var t1 := AddFunction(t, ds[i].name, |params|);
    var p := Place(ds, i + 1, {}, {});
    FileSees(t1, ds, i + 1);
    PushStands(t1, p);
    ParamsExactly(Push(t1), p, params);
    StandsMeans(CheckParams(Push(t1), params).scopes,
                p.(locals := p.locals + ParamNames(params), here := p.here + ParamNames(params)));
  }

  lemma {:induction false} FileBefore(ds: seq<TopDecl>, i: nat)
    requires i <= |ds|
    ensures AtFile(SigsBefore(ds, i), ds, i)
    decreases i
  {
    hide CheckTop, AtFile;
    if i == 0 {
      NothingDeclared(ds);
    } else {
      FileBefore(ds, i - 1);
      OneMore(ds, i - 1);
      TopExactly(SigsBefore(ds, i - 1), ds, i - 1);
    }
  }

  lemma NothingDeclared(ds: seq<TopDecl>)
    ensures AtFile(SigsBefore(ds, 0), ds, 0)
  {
    assert ds[..0] == [];
  }

  lemma {:induction false} ErrorsInParts(ds: seq<TopDecl>)
    ensures CheckTypes(ds).errors == 0 <==>
            forall i :: 0 <= i < |ds| ==> CheckTop(SigsBefore(ds, i), ds[i]).report.errors == 0
    decreases ds
  {
    hide CheckTop;
    if ds != [] {
      var n := |ds| - 1;
      ErrorsInParts(ds[..n]);
      forall i | 0 <= i < n
        ensures SigsBefore(ds[..n], i) == SigsBefore(ds, i) && ds[..n][i] == ds[i]
      {
        assert ds[..n][..i] == ds[..i];
      }
    }
  }

  /** The checker accepts a program exactly when it is well declared. */
  lemma AcceptedExactly(ds: seq<TopDecl>)
    ensures CheckTypes(ds).errors == 0 <==> WellDeclared(ds)
  {
    hide CheckTypes, CheckTop, TopDeclared, SigsBefore;
    ErrorsInParts(ds);
    forall i | 0 <= i < |ds|
      ensures CheckTop(SigsBefore(ds, i), ds[i]).report.errors == 0 <==> TopDeclared(ds, i)
    {
      FileBefore(ds, i);
      TopExactly(SigsBefore(ds, i), ds, i);
    }
  }
}
