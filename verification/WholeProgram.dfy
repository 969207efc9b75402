/** A whole program the checker accepts is compiled without a message, into a
    module that behaves as the program does. */
module WholeProgram {
  import opened Options
  import opened Int32
  import opened Ast
  import opened Scopes
  import opened Scoping
  import opened Source
  import opened Ir
  import opened Codegen
  import opened Linking
  import opened Blocks
  import opened Functions
  import opened Programs
  import opened Checker
  import opened Agreement

  // ----- What a program means -----

  /** The functions of a program; a name's last definition counts. */
  function ProgramOf(ds: seq<TopDecl>): Program
    decreases ds
  {
    if ds == [] then map[]
    else
      var front := ProgramOf(ds[..|ds| - 1]);
      var d := ds[|ds| - 1];
      if d.Function? then front[d.def.name := d.def] else front
  }

  /** The value of a constant expression, if it is one. */
  function ConstantValue(e: Expr): Option<int32> {
    match Eval(map[], 0, e, Base(map[]))
    case Val(v, _) => Some(v)
    case _ => None
  }

  /** What an initializer of a file-scope variable gives; without one the
      variable starts as 0 (C99 6.7.8). */
  function InitialValue(init: Option<Expr>): Option<int32> {
    if init.None? then Some(0) else ConstantValue(init.value)
  }

  function ToCell(v: Option<int32>): Cell { if v.None? then Unset else Held(v.value) }

  function InitialGlobals(ds: seq<TopDecl>): map<string, Cell>
    decreases ds
  {
    if ds == [] then map[]
    else
      var front := InitialGlobals(ds[..|ds| - 1]);
      var d := ds[|ds| - 1];
      if d.GlobalVar? then front[d.name := ToCell(InitialValue(d.init))] else front
  }

  /** The generator prints the value C prescribes exactly for a missing
      initializer, a literal or a constant expression that comes to 0. */
  lemma InitializerPrinted(init: Option<Expr>)
    ensures InitialValue(init) == Some(PrintedInitial(init)) <==>
            init.None? || init.value.Number? || ConstantValue(init.value) == Some(0)
    ensures init.None? ==> InitialValue(init) == Some(0)
  {
  }

  /** `int x = -1;` is printed as 0. */
  lemma NegativeInitializerLost()
    ensures
      var init := Some(Unary(Neg, Number(1)));
      InitialValue(init) == Some(-1) && PrintedInitial(init) == 0
  {
    assert Eval(map[], 0, Number(1), Base(map[])) == Val(1, Base(map[]));
  }

  // ----- What a module means -----

  function ModuleOf(items: seq<TopItem>): Module
    decreases items
  {
    if items == [] then map[]
    else
      var front := ModuleOf(items[..|items| - 1]);
      var d := items[|items| - 1];
      if d.Defined? then front[d.name := d.routine] else front
  }

  /** Memory when the program starts. */
  function MemoryOf(items: seq<TopItem>): map<Slot, MemCell>
    decreases items
  {
    if items == [] then map[]
    else
      var front := MemoryOf(items[..|items| - 1]);
      var d := items[|items| - 1];
      if d.GlobalDef? then front[d.slot := MemCell(I32, Some(IntV(d.initial)))] else front
  }

  /** The state in which the generator came to each function. */
  function EntriesOf(g: Context, ds: seq<TopDecl>): map<string, Context>
    decreases ds
  {
    if ds == [] then map[]
    else
      var front := ds[..|ds| - 1];
      var d := ds[|ds| - 1];
      if d.Function? then EntriesOf(g, front)[d.def.name := GenTops(g, front).g] else EntriesOf(g, front)
  }

  function LinkOf(ds: seq<TopDecl>): Link {
    var x := GenProgram(ds);
    Link(ProgramOf(ds), ModuleOf(x.items), x.g.table.scopes.vars, EntriesOf(AfterPrototypes(ds), ds))
  }

  // ----- Which programs -----

  function NameOf(d: TopDecl): string { if d.Function? then d.def.name else d.name }

  function ArityOf(d: TopDecl): nat
    requires !d.GlobalVar?
  {
    if d.Function? then |d.def.params| else |d.params|
  }

  predicate IsFunctionName(ds: seq<TopDecl>, f: string) {
    exists i :: 0 <= i < |ds| && !ds[i].GlobalVar? && NameOf(ds[i]) == f
  }

  /** Functions of the int fragment, no declaration as a branch or loop body, no
      name both a variable and a function. */
  predicate TopInFragment(ds: seq<TopDecl>, d: TopDecl) {
    match d
    case Function(def) =>
      def.body.Block? && StmtInFragment(def.body, false) && NoBareDecl(def.body) && IsFunctionName(ds, def.name)
    case GlobalVar(x, _) => !IsFunctionName(ds, x)
    case Prototype(f, _) => IsFunctionName(ds, f)
  }

  predicate ProgramInFragment(ds: seq<TopDecl>) {
    forall i :: 0 <= i < |ds| ==> TopInFragment(ds, ds[i])
  }

  /** No variable is declared right after a function that always returns, with
      only prototypes and variables in between. */
  predicate Ordered(ds: seq<TopDecl>) {
    forall i :: 0 <= i < |ds| && ds[i].GlobalVar? ==> OpenAfter(ds[..i])
  }

  predicate ConstantInit(d: TopDecl) {
    d.GlobalVar? && d.init.Some? ==> d.init.value.Number? || ConstantValue(d.init.value) == Some(0)
  }

  predicate ConstantInits(ds: seq<TopDecl>) {
    forall i :: 0 <= i < |ds| ==> ConstantInit(ds[i])
  }

  // ----- One declaration -----

  lemma {:induction false} CheckParamsRestore(t: Scopes<Sig>, params: seq<Option<string>>)
    requires t.Inner?
    ensures
      var x := CheckParams(t, params);
      x.report.misuses == 0 && x.scopes.Inner? && x.scopes.outer == t.outer
    decreases params
  {
    if params != [] {
      CheckParamsRestore(if params[0].None? then t else CheckDecl(t, params[0].value, None).scopes, params[1..]);
    }
  }

  /** Accepted parameters have different names. */
  lemma {:induction false} ParamsDistinct(t: Scopes<Sig>, params: seq<string>)
    requires t.Inner? && CheckParams(t, AllNamed(params)).report.errors == 0
    ensures DistinctNames(params) && forall i :: 0 <= i < |params| ==> params[i] !in t.vars
    decreases params
  {
    if params != [] {
      var x := params[0];
      var rest := params[1..];
      ParamsDistinct(Bind(t, x, VariableSig), rest);
      forall i | 0 < i < |params|
        ensures params[i] != x && params[i] !in t.vars
      {
        assert rest[i - 1] == params[i] && rest[i - 1] !in Bind(t, x, VariableSig).vars;
      }
      forall i, j | 0 < i < j < |params|
        ensures params[i] != params[j]
      {
        assert rest[i - 1] != rest[j - 1];
      }
    }
  }

  lemma {:induction false} ParamsAgree(t: Scopes<Sig>, s: Table, params: seq<string>)
    requires Knows(t, s.scopes) && t.Inner? && s.scopes.Inner? && s.scopes.vars.Keys == t.vars.Keys
    requires CheckParams(t, AllNamed(params)).report.errors == 0
    ensures Knows(CheckParams(t, AllNamed(params)).scopes, GenParams(s, params).table.scopes)
    decreases params
  {
    hide Knows;
    if params != [] {
      var x := params[0];
      assert AllNamed(params)[1..] == AllNamed(params[1..]);
      BindKnows(t, s.scopes, x, NewSymbol(s, x, VariableSymbol, true));
      ParamsAgree(Bind(t, x, VariableSig), AddSymbol(s, x, VariableSymbol, true), params[1..]);
    }
  }

  /** What the generator has at file scope, the checker has, or it is a function
      declared further down; to both the functions' names are functions and the
      others are variables. */
  ghost predicate Covered(ds: seq<TopDecl>, t: Scopes<Sig>, g: Context) {
    && t.Base? && AtFileLevel(g)
    && (forall x :: x in g.table.scopes.vars ==>
          && (x in t.vars || IsFunctionName(ds, x))
          && (g.table.scopes.vars[x].kind == FunctionSymbol <==> IsFunctionName(ds, x)))
    && (forall x :: x in t.vars ==> (t.vars[x].FunctionSig? <==> IsFunctionName(ds, x)))
  }

  /** A function leaves the checker's file scope with its own name added. */
  lemma CheckFunctionRestores(t: Scopes<Sig>, d: TopDecl)
    requires t.Base? && d.Function? && NoBareDecl(d.def.body) && d.def.body.Block?
    ensures CheckTop(t, d).scopes == AddFunction(t, d.def.name, |d.def.params|)
    ensures CheckTop(t, d).report.errors == 0 ==> DistinctNames(d.def.params)
  {
    hide CheckStmt;
    var t1 := Push(AddFunction(t, d.def.name, |d.def.params|));
    CheckParamsRestore(t1, AllNamed(d.def.params));
    if CheckTop(t, d).report.errors == 0 {
      ParamsDistinct(t1, d.def.params);
    }
    CheckRestores(CheckParams(t1, AllNamed(d.def.params)).scopes, d.def.body);
  }

  lemma TopCovers(ds: seq<TopDecl>, t: Scopes<Sig>, g: Context, d: TopDecl)
    requires Covered(ds, t, g) && TopInFragment(ds, d)
    ensures Covered(ds, CheckTop(t, d).scopes, GenTop(g, d).g)
  {
    hide IsFunctionName, StmtInFragment, GenFunction, CheckStmt, CheckParams, AtFileLevel, Covered;
    CoveredLevel(ds, t, g);
    TopKeeps(g, d);
    match d
    case GlobalVar(x, _) => AddCovers(ds, t, g, GenTop(g, d).g, x, VariableSig, VariableSymbol);
    case Function(def) =>
      CheckFunctionRestores(t, d);
      FunctionRestores(g, def);
      AddCovers(ds, t, g, GenTop(g, d).g, def.name, FunctionSig(|def.params|), FunctionSymbol);
    case Prototype(f, params) =>
      CheckParamsRestore(Push(AddFunction(t, f, |params|)), params);
      AddCovers(ds, t, g, g, f, FunctionSig(|params|), FunctionSymbol);
  }

  lemma CoveredLevel(ds: seq<TopDecl>, t: Scopes<Sig>, g: Context)
    requires Covered(ds, t, g)
    ensures t.Base? && AtFileLevel(g) && g.table.scopes.Base?
  {
  }

  /** One more name in both tables, or in the checker's alone. */
  lemma AddCovers(
    ds: seq<TopDecl>, t: Scopes<Sig>, g: Context, g': Context, x: string, sig: Sig, kind: SymbolKind)
    requires Covered(ds, t, g) && AtFileLevel(g')
    requires sig.FunctionSig? <==> IsFunctionName(ds, x)
    requires kind == FunctionSymbol <==> IsFunctionName(ds, x)
    requires g'.table.scopes in {g.table.scopes, AddSymbol(g.table, x, kind, false).scopes}
    ensures Covered(ds, if x in t.vars then t else Bind(t, x, sig), g')
  {
    hide IsFunctionName, AtFileLevel;
  }

  /** A new name at file scope is known to both. */
  lemma AddKnows(t: Scopes<Sig>, s: Scopes<Symbol>, x: string, sig: Sig, sym: Symbol)
    requires Knows(t, s) && t.Base? && s.Base?
    requires sig.VariableSig? <==> sym.kind == VariableSymbol
    ensures Knows(Bind(t, x, sig), Bind(s, x, sym))
    ensures x in s.vars && s.vars[x].kind == sym.kind ==> Knows(Bind(t, x, sig), s)
  {
    forall y
      ensures Find(Bind(t, x, sig), y) == if y == x then Some(sig) else Find(t, y)
      ensures Find(Bind(s, x, sym), y) == if y == x then Some(sym) else Find(s, y)
    {
    }
  }

  /** A name that both have as a function, if they have it. */
  predicate FreeForFunction(t: Scopes<Sig>, s: Scopes<Symbol>, f: string) {
    (f in t.vars ==> t.vars[f].FunctionSig?) && (f in s.vars ==> s.vars[f].kind == FunctionSymbol)
  }

  lemma FunctionKnows(t: Scopes<Sig>, s: Table, f: string, arity: nat)
    requires Knows(t, s.scopes) && t.Base? && s.scopes.Base? && FreeForFunction(t, s.scopes, f)
    ensures Knows(AddFunction(t, f, arity), AddSymbol(s, f, FunctionSymbol, false).scopes)
  {
    hide Knows;
    var sym := NewSymbol(s, f, FunctionSymbol, false);
    AddKnows(t, s.scopes, f, FunctionSig(arity), sym);
    if f in t.vars && f !in s.scopes.vars {
      KnownThere(t, s.scopes, f);
    }
  }

  lemma KnownThere(t: Scopes<Sig>, s: Scopes<Symbol>, x: string)
    requires Knows(t, s) && t.Base? && s.Base? && x in t.vars
    ensures x in s.vars
  {
    assert Find(t, x).Some?;
  }

  /** An accepted function compiles without a message, and its names resolve to
      variables exactly when no function's name is among them. */
  lemma FunctionAgrees(t: Scopes<Sig>, g: Context, d: TopDecl)
    requires d.Function? && d.def.body.Block? && StmtInFragment(d.def.body, false) && NoBareDecl(d.def.body)
    requires t.Base? && AtFileLevel(g) && Knows(t, g.table.scopes) && FreeForFunction(t, g.table.scopes, d.def.name)
    requires CheckTop(t, d).report.errors == 0
    ensures GenFunction(g, d.def).g.c.errors == g.c.errors
    ensures CheckTop(t, d).report.misuses == 0 <==> StmtResolved(BodyContext(g, d.def), d.def.body)
  {
    hide Knows, GenParams, GenStmt, CheckStmt, CheckParams, StmtResolved, StmtInFragment;
    var def := d.def;
    var t1 := Push(AddFunction(t, def.name, |def.params|));
    var g1 := FunctionEntry(g, def);
    FunctionKnows(t, g.table, def.name, |def.params|);
    PushKnows(AddFunction(t, def.name, |def.params|), g1.table.scopes.outer);
    CheckParamsRestore(t1, AllNamed(def.params));
    ParamsAgree(t1, g1.table, def.params);
    ParamsRestore(g1.table, def.params);
    StmtAgrees(CheckParams(t1, AllNamed(def.params)).scopes, BodyContext(g, def), def.body, false);
  }

  /** If variables are not dropped, the generator keeps knowing what the checker
      knows and reports nothing. */
  lemma TopAgrees(ds: seq<TopDecl>, t: Scopes<Sig>, g: Context, d: TopDecl)
    requires Covered(ds, t, g) && TopInFragment(ds, d) && Knows(t, g.table.scopes)
    requires d.GlobalVar? ==> !g.inReturnBlock
    requires d.Prototype? ==> d.name in g.table.scopes.vars
    requires CheckTop(t, d).report.errors == 0
    ensures Knows(CheckTop(t, d).scopes, GenTop(g, d).g.table.scopes)
    ensures GenTop(g, d).g.c.errors == g.c.errors
  {
    hide Knows, IsFunctionName, StmtInFragment, GenFunction, CheckStmt, CheckParams;
    match d
    case GlobalVar(x, _) =>
      assert x !in g.table.scopes.vars;
      AddKnows(t, g.table.scopes, x, VariableSig, NewSymbol(g.table, x, VariableSymbol, false));
    case Function(def) =>
      CheckFunctionRestores(t, d);
      FunctionRestores(g, def);
      FunctionKnows(t, g.table, def.name, |def.params|);
      FunctionAgrees(t, g, d);
    case Prototype(f, params) =>
      CheckParamsRestore(Push(AddFunction(t, f, |params|)), params);
      AddKnows(t, g.table.scopes, f, FunctionSig(|params|), g.table.scopes.vars[f]);
  }

  // ----- Declaration by declaration -----

  function SigsBefore(ds: seq<TopDecl>, i: nat): Scopes<Sig>
    requires i <= |ds|
  {
    CheckTops(Base(map[]), ds[..i]).scopes
  }

  /** What one more declaration adds. */
  lemma OneMore(ds: seq<TopDecl>, i: nat)
    requires i < |ds|
    ensures
      var g := StateBefore(ds, i);
      var g0 := AfterPrototypes(ds);
      && StateBefore(ds, i + 1) == GenTop(g, ds[i]).g
      && GenTops(g0, ds[..i + 1]).items == GenTops(g0, ds[..i]).items + GenTop(g, ds[i]).items
      && SigsBefore(ds, i + 1) == CheckTop(SigsBefore(ds, i), ds[i]).scopes
      && ds[..i + 1][..i] == ds[..i] && ds[..i + 1][i] == ds[i]
  {
    hide GenTop, CheckTop, GenPrototypes;
    assert ds[..i + 1][..i] == ds[..i];
  }

  /** No part of an accepted program has an error. */
  lemma {:induction false} PartsAccepted(ds: seq<TopDecl>, i: nat)
    requires i < |ds|
    ensures
      var r := CheckTop(SigsBefore(ds, i), ds[i]).report;
      r.errors <= CheckTypes(ds).errors && r.misuses <= CheckTypes(ds).misuses
    decreases ds
  {
    hide CheckTop;
    var n := |ds| - 1;
    if i < n {
      assert ds[..n][..i] == ds[..i];
      PartsAccepted(ds[..n], i);
    }
  }

  /** The pass over the prototypes adds their names and nothing else. */
  lemma {:induction false} PrototypeNames(ds: seq<TopDecl>, x: string)
    ensures x in GenPrototypes(FileStart(), ds).g.table.scopes.vars <==>
            exists i :: 0 <= i < |ds| && ds[i].Prototype? && ds[i].name == x
    ensures !GenPrototypes(FileStart(), ds).g.inReturnBlock && GenPrototypes(FileStart(), ds).g.c == FileStart().c
    decreases ds
  {
    if ds != [] {
      var n := |ds| - 1;
      var front := ds[..n];
      PrototypeNames(front, x);
      assert ds[n].Prototype? && ds[n].name == x ==> exists i :: 0 <= i < |ds| && ds[i].Prototype? && ds[i].name == x;
      if i :| 0 <= i < |front| && front[i].Prototype? && front[i].name == x {
        assert ds[i] == front[i];
      }
      if i :| 0 <= i < |ds| && ds[i].Prototype? && ds[i].name == x {
        assert i < n ==> front[i] == ds[i];
      }
    }
  }

  lemma FragmentBodied(ds: seq<TopDecl>)
    requires ProgramInFragment(ds)
    ensures AllBodied(ds)
  {
    forall i | 0 <= i < |ds|
      ensures Bodied(ds[i])
    {
      assert TopInFragment(ds, ds[i]);
    }
  }

  lemma FlagAfterTop(g: Context, d: TopDecl)
    requires AtFileLevel(g)
    requires d.Function? ==> d.def.body.Block? && StmtInFragment(d.def.body, false)
    ensures
      GenTop(g, d).g.inReturnBlock == if d.Function? then !CanComplete(d.def.body, false) else g.inReturnBlock
  {
    hide GenFunction, StmtInFragment, Scan;
    if d.Function? {
      FragmentPlain(d.def.body, false);
      FunctionShape(g, d.def);
    }
  }

  /** Every function has a block of fragment statements for its body. */
  predicate BodiesInFragment(ds: seq<TopDecl>) {
    forall i :: 0 <= i < |ds| && ds[i].Function? ==> ds[i].def.body.Block? && StmtInFragment(ds[i].def.body, false)
  }

  lemma FragmentBodies(ds: seq<TopDecl>)
    requires ProgramInFragment(ds)
    ensures BodiesInFragment(ds)
  {
    hide StmtInFragment, NoBareDecl, IsFunctionName;
    forall i | 0 <= i < |ds| && ds[i].Function?
      ensures ds[i].def.body.Block? && StmtInFragment(ds[i].def.body, false)
    {
      assert TopInFragment(ds, ds[i]);
    }
  }

  /** The flag at file scope tells whether the last function can fall off its
      end. */
  lemma {:induction false} FlagAtFileScope(ds: seq<TopDecl>, i: nat)
    requires BodiesInFragment(ds) && i <= |ds|
    ensures StateBefore(ds, i).inReturnBlock == !OpenAfter(ds[..i])
    decreases i
  {
    hide GenTop, StmtInFragment, GenPrototypes, CanComplete, AtFileLevel, CheckTop;
    if i == 0 {
      PrototypeNames(ds, "");
    } else {
      FlagAtFileScope(ds, i - 1);
      OneMore(ds, i - 1);
      BodiesBodied(ds);
      StateOk(ds, i - 1);
      FlagAfterTop(StateBefore(ds, i - 1), ds[i - 1]);
    }
  }

  lemma BodiesBodied(ds: seq<TopDecl>)
    requires BodiesInFragment(ds)
    ensures AllBodied(ds)
  {
  }

  lemma {:induction false} CoveredBefore(ds: seq<TopDecl>, i: nat)
    requires ProgramInFragment(ds) && i <= |ds|
    ensures Covered(ds, SigsBefore(ds, i), StateBefore(ds, i))
    decreases i
  {
    hide GenTop, CheckTop, TopInFragment, AtFileLevel, IsFunctionName;
    FragmentBodied(ds);
    if i == 0 {
      StateOk(ds, 0);
      OnlyFunctions(FileStart(), ds);
      forall x | x in AfterPrototypes(ds).table.scopes.vars
        ensures IsFunctionName(ds, x)
      {
        PrototypeNames(ds, x);
        var j :| 0 <= j < |ds| && ds[j].Prototype? && ds[j].name == x;
        APrototype(ds, j);
      }
    } else {
      CoveredBefore(ds, i - 1);
      OneMore(ds, i - 1);
      TopCovers(ds, SigsBefore(ds, i - 1), StateBefore(ds, i - 1), ds[i - 1]);
    }
  }

  lemma APrototype(ds: seq<TopDecl>, j: nat)
    requires j < |ds| && ds[j].Prototype?
    ensures IsFunctionName(ds, ds[j].name)
  {
    assert NameOf(ds[j]) == ds[j].name;
  }

  /** The variables that are printed are all of them exactly when none is
      declared right after a function that always returns. */
  lemma GlobalsEmittedExactly(ds: seq<TopDecl>)
    requires ProgramInFragment(ds) && CheckTypes(ds).errors == 0
    ensures (forall i :: 0 <= i < |ds| && ds[i].GlobalVar? ==> GenTop(StateBefore(ds, i), ds[i]).items != [])
            <==> Ordered(ds)
  {
    forall i | 0 <= i < |ds| && ds[i].GlobalVar?
      ensures GenTop(StateBefore(ds, i), ds[i]).items != [] <==> OpenAfter(ds[..i])
    {
      GlobalEmitted(ds, i);
    }
  }

  lemma GlobalEmitted(ds: seq<TopDecl>, i: nat)
    requires ProgramInFragment(ds) && CheckTypes(ds).errors == 0 && i < |ds| && ds[i].GlobalVar?
    ensures ds[i].name !in StateBefore(ds, i).table.scopes.vars
    ensures GenTop(StateBefore(ds, i), ds[i]).items != [] <==> OpenAfter(ds[..i])
  {
    hide StateBefore, OpenAfter, IsFunctionName, AtFileLevel;
    FragmentBodies(ds);
    FlagAtFileScope(ds, i);
    CoveredBefore(ds, i);
    PartsAccepted(ds, i);
    assert TopInFragment(ds, ds[i]);
  }

  lemma {:induction false} PrototypesKnown(ds: seq<TopDecl>, i: nat, j: nat)
    requires ProgramInFragment(ds) && i <= |ds| && j < |ds| && ds[j].Prototype?
    ensures ds[j].name in StateBefore(ds, i).table.scopes.vars
  {
    FragmentBodied(ds);
    PrototypeNames(ds, ds[j].name);
    PrototypesKeep(FileStart(), ds);
    TopsKeep(AfterPrototypes(ds), ds[..i], 0);
    assert ds[..i][..0] == [];
  }

  lemma {:induction false} AgreesBefore(ds: seq<TopDecl>, i: nat)
    requires ProgramInFragment(ds) && Ordered(ds) && CheckTypes(ds).errors == 0 && i <= |ds|
    ensures Knows(SigsBefore(ds, i), StateBefore(ds, i).table.scopes)
    ensures StateBefore(ds, i).c.errors == 0
    decreases i
  {
    hide GenTop, CheckTop, TopInFragment, Covered, OpenAfter;
    if i == 0 {
      PrototypeNames(ds, "");
    } else {
      var d := ds[i - 1];
      AgreesBefore(ds, i - 1);
      OneMore(ds, i - 1);
      PartsAccepted(ds, i - 1);
      CoveredBefore(ds, i - 1);
      FragmentBodies(ds);
      FlagAtFileScope(ds, i - 1);
      if d.Prototype? {
        PrototypesKnown(ds, i - 1, i - 1);
      }
      TopAgrees(ds, SigsBefore(ds, i - 1), StateBefore(ds, i - 1), d);
    }
  }

  /** No function's name is used as a variable if and only if it is not so in any
      part. */
  lemma {:induction false} MisusesInParts(ds: seq<TopDecl>)
    ensures CheckTypes(ds).misuses == 0 <==>
            forall i :: 0 <= i < |ds| ==> CheckTop(SigsBefore(ds, i), ds[i]).report.misuses == 0
    decreases ds
  {
    hide CheckTop;
    if ds != [] {
      var n := |ds| - 1;
      MisusesInParts(ds[..n]);
      forall i | 0 <= i < n
        ensures SigsBefore(ds[..n], i) == SigsBefore(ds, i) && ds[..n][i] == ds[i]
      {
        assert ds[..n][..i] == ds[..i];
      }
    }
  }

  lemma MisuseInPart(ds: seq<TopDecl>, i: nat)
    requires ProgramInFragment(ds) && Ordered(ds) && CheckTypes(ds).errors == 0 && i < |ds|
    ensures CheckTop(SigsBefore(ds, i), ds[i]).report.misuses == 0 <==>
            (ds[i].Function? ==> StmtResolved(BodyContext(StateBefore(ds, i), ds[i].def), ds[i].def.body))
  {
    hide GenFunction, StmtInFragment, StmtResolved, BodyContext, IsFunctionName, Ordered, GenPrototypes, GenTops, Knows,
         AtFileLevel, CheckStmt, CheckParams;
    var t, d := SigsBefore(ds, i), ds[i];
    assert TopInFragment(ds, d);
    PartsAccepted(ds, i);
    CoveredBefore(ds, i);
    AgreesBefore(ds, i);
    match d
    case Function(_) => FunctionAgrees(t, StateBefore(ds, i), d);
    case Prototype(f, params) => CheckParamsRestore(Push(AddFunction(t, f, |params|)), params);
    case GlobalVar(_, _) =>
  }

  /** In an accepted program every name that the generator looks up as a variable
      is one if and only if the checker let no use of a function's name pass. */
  lemma NamesResolveExactly(ds: seq<TopDecl>)
    requires ProgramInFragment(ds) && Ordered(ds) && CheckTypes(ds).errors == 0
    ensures CheckTypes(ds).misuses == 0 <==>
            forall i :: 0 <= i < |ds| && ds[i].Function? ==>
              StmtResolved(BodyContext(StateBefore(ds, i), ds[i].def), ds[i].def.body)
  {
    hide StmtResolved, BodyContext, CheckTop, CheckTypes, SigsBefore, StateBefore, ProgramInFragment, Ordered;
    MisusesInParts(ds);
    forall i | 0 <= i < |ds|
      ensures CheckTop(SigsBefore(ds, i), ds[i]).report.misuses == 0 <==>
              (ds[i].Function? ==> StmtResolved(BodyContext(StateBefore(ds, i), ds[i].def), ds[i].def.body))
    {
      MisuseInPart(ds, i);
    }
  }

  /** The generator reports nothing about a program the checker accepts: no
      undefined name, no symbol it cannot add. */
  lemma AcceptedCompilesSilently(ds: seq<TopDecl>)
    requires ProgramInFragment(ds) && Ordered(ds) && CheckTypes(ds).errors == 0
    ensures GenProgram(ds).g.c.errors == 0
  {
    AgreesBefore(ds, |ds|);
    assert ds[..|ds|] == ds;
  }
}
