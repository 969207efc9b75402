/** Accepted programs the generator does not compile: why the conditions on
    programs are needed. */
module Disagreements {
  import opened Options
  import opened Int32
  import opened Ast
  import opened Scopes
  import opened Ir
  import opened Codegen
  import opened Statements
  import opened Programs
  import opened Checker
  import opened WholeProgram
  import opened Headers
  import opened PrintedNames
  import opened Reader
  import opened References
  import opened FileScope
  import N = Names
  import opened Scoping
  import opened Messages

  /** `int f() { return 1; } int x;` */
  function ReturnThenVariable(): seq<TopDecl> {
    [Function(FunDef("f", [], Block([Return(Number(1))]))), GlobalVar("x", None)]
  }

  lemma InTheFragment()
    ensures ProgramInFragment(ReturnThenVariable())
  {
    var ds := ReturnThenVariable();
    assert NameOf(ds[0]) == "f" && IsFunctionName(ds, "f") && !IsFunctionName(ds, "x");
    assert [Return(Number(1))][1..] == [];
  }

  lemma ReturnAccepted(t: Scopes<Sig>, e: Expr, ss: seq<Stmt>)
    requires e.Number? && ss == [Return(e)]
    ensures CheckStmt(t, Block(ss)) == Checked(t, Fine())
  {
    assert CheckStmt(Push(t), ss[0]) == Checked(Push(t), Fine());
    assert ss[1..] == [] && CheckStmts(Push(t), ss[1..]) == Checked(Push(t), Fine());
  }

  lemma FunctionAccepted(t: Scopes<Sig>, def: FunDef)
    requires t.Base? && def.params == []
    requires CheckStmt(Push(AddFunction(t, def.name, 0)), def.body)
             == Checked(Push(AddFunction(t, def.name, 0)), Fine())
    ensures CheckTop(t, Function(def)) == Checked(AddFunction(t, def.name, 0), Fine())
  {
    hide CheckStmt, CheckParams, AddFunction, AllNamed;
    NoParams(Push(AddFunction(t, def.name, 0)), def.params);
  }

  lemma NoParams(t: Scopes<Sig>, params: seq<string>)
    requires params == []
    ensures CheckParams(t, AllNamed(params)) == Checked(t, Fine())
  {
  }

  lemma BothAccepted()
    ensures CheckTypes(ReturnThenVariable()) == Fine()
  {
    hide CheckTop, CheckStmt, AddFunction;
    var ds := ReturnThenVariable();
    var first := ds[..1];
    assert first == [ds[0]] && first[..0] == [] && CheckTops(Base(map[]), []) == Checked(Base(map[]), Fine());
    ReturnAccepted(Push(AddFunction(Base(map[]), "f", 0)), Number(1), [Return(Number(1))]);
    FunctionAccepted(Base(map[]), ds[0].def);
    assert CheckTops(Base(map[]), first) == Checked(AddFunction(Base(map[]), "f", 0), Fine());
    VariableAccepted();
  }

  lemma VariableAccepted()
    ensures CheckTop(AddFunction(Base(map[]), "f", 0), ReturnThenVariable()[1]).report == Fine()
  {
  }

  /** The checker accepts it, and the generator prints nothing for x. */
  lemma VariableDropped()
    ensures
      var ds := ReturnThenVariable();
      ProgramInFragment(ds) && CheckTypes(ds) == Fine() && GenTop(StateBefore(ds, 1), ds[1]).items == []
  {
    hide GenTop, StateBefore, ProgramInFragment, CheckTypes;
    var ds := ReturnThenVariable();
    InTheFragment();
    BothAccepted();
    assert ds[..1] == [ds[0]];
    assert !CanComplete(Return(Number(1)), false);
    GlobalEmitted(ds, 1);
  }

  /** `{ if (1) int y = 1; return y; }` */
  function Branch(): Stmt { If(Number(1), Decl("y", Some(Number(1))), None) }

  function BareDeclaration(): Stmt { Block([Branch(), Return(Var("y"))]) }

  lemma IfChecked(t: Scopes<Sig>, s: Stmt)
    requires s.If? && s.elseStmt.None?
    ensures
      var x := CheckStmt(t, s.thenStmt);
      CheckStmt(t, s) == Checked(x.scopes, Plus(CheckExpr(t, s.cond), x.report))
  {
    hide CheckExpr;
  }

  lemma DeclChecked(t: Scopes<Sig>, s: Stmt)
    requires s.Decl?
    ensures CheckStmt(t, s) == CheckDecl(t, s.name, s.init)
  {
    hide CheckDecl;
  }

  lemma LeakedName(t: Scopes<Sig>, s: Stmt)
    requires t.vars == map[] && s.If? && s.elseStmt.None? && s.cond.Number? && s.thenStmt.Decl?
    requires s.thenStmt.name == "y" && s.thenStmt.init.Some? && s.thenStmt.init.value.Number?
    ensures CheckStmt(t, s) == Checked(Bind(t, "y", VariableSig), Fine())
  {
    hide CheckStmt;
    IfChecked(t, s);
    DeclChecked(t, s.thenStmt);
  }

  lemma LeakAccepted(t: Scopes<Sig>, ss: seq<Stmt>, last: Stmt)
    requires ss == [Branch(), last] && last == Return(Var("y"))
    ensures CheckStmt(t, Block(ss)).report == Fine()
  {
    hide Branch, CheckStmt, CheckStmts, Find;
    LeakedBranch(Push(t));
    BranchCompletes();
    UseAccepted(Push(t), last);
    SeqOfTwo(Push(t), ss);
    BlockChecked(t, ss);
  }

  lemma UseAccepted(t: Scopes<Sig>, s: Stmt)
    requires s == Return(Var("y"))
    ensures CheckStmt(Bind(t, "y", VariableSig), s).report == Fine()
  {
  }

  lemma BranchCompletes()
    ensures CanComplete(Branch(), true)
  {
  }

  lemma SeqOfTwo(t: Scopes<Sig>, ss: seq<Stmt>)
    requires |ss| == 2 && CanComplete(ss[0], true)
    ensures
      var x := CheckStmt(t, ss[0]);
      CheckStmts(t, ss).report == Plus(x.report, Plus(CheckStmt(x.scopes, ss[1]).report, Fine()))
  {
    hide CheckStmt;
    var x := CheckStmt(t, ss[0]);
    var rest := ss[1..];
    assert rest[0] == ss[1] && rest[1..] == [];
    var y := CheckStmt(x.scopes, ss[1]);
    assert CheckStmts(y.scopes, rest[1..]) == Checked(y.scopes, Fine());
    assert CheckStmts(x.scopes, rest).report == Plus(y.report, Fine());
  }

  lemma BlockChecked(t: Scopes<Sig>, ss: seq<Stmt>)
    ensures CheckStmt(t, Block(ss)).report == CheckStmts(Push(t), ss).report
  {
  }

  lemma LeakedBranch(t: Scopes<Sig>)
    requires t.vars == map[]
    ensures CheckStmt(t, Branch()) == Checked(Bind(t, "y", VariableSig), Fine())
  {
    hide CheckStmt;
    LeakedName(t, Branch());
  }

  lemma LeakUnknown(g: Context)
    requires !g.inReturnBlock && Find(g.table.scopes, "y").None?
    ensures GenStmt(g, BareDeclaration()).g.c.errors == g.c.errors + 1
  {
    hide GenStmt, Branch;
    var ss := [Branch(), Return(Var("y"))];
    assert ss[1..] == [ss[1]] && [ss[1]][1..] == [];
    var g1 := InNewScope(g);
    BranchErrors(g1);
    ReturnUndefined(GenStmt(g1, Branch()).g);
    BlockUnfolds(g, ss);
  }

  lemma BlockUnfolds(g: Context, ss: seq<Stmt>)
    requires !g.inReturnBlock
    ensures GenStmt(g, Block(ss)).g.c == GenStmts(InNewScope(g), ss).g.c
  {
  }

  lemma ReturnUndefined(g: Context)
    requires !g.inReturnBlock && Find(g.table.scopes, "y").None?
    ensures GenStmt(g, Return(Var("y"))).g.c.errors == g.c.errors + 1
  {
  }

  /** The checker lets a bare declaration's name live on after the `if`, the
      generator does not find it there. */
  lemma BareDeclarationLost(t: Scopes<Sig>, g: Context)
    requires !g.inReturnBlock && Find(g.table.scopes, "y").None?
    ensures CheckStmt(t, BareDeclaration()).report == Fine()
    ensures GenStmt(g, BareDeclaration()).g.c.errors == g.c.errors + 1
  {
    LeakAccepted(t, [Branch(), Return(Var("y"))], Return(Var("y")));
    LeakUnknown(g);
  }

  lemma BranchErrors(g: Context)
    requires !g.inReturnBlock && g.table.scopes.Inner?
    ensures
      var x := GenStmt(g, Branch());
      !x.g.inReturnBlock && x.g.c.errors == g.c.errors && x.g.table.scopes == g.table.scopes
  {
    StmtRestores(g, Branch());
    IfErrors(g);
  }

  lemma IfErrors(g: Context)
    requires !g.inReturnBlock && g.table.scopes.Inner?
    ensures
      var x := GenStmt(g, If(Number(1), Decl("y", Some(Number(1))), None));
      !x.g.inReturnBlock && x.g.c.errors == g.c.errors
  {
    var s := Decl("y", Some(Number(1)));
    var t := GenTest(g.table.scopes, TakeLabels(g, 3).c, Number(1));
    var g1 := InNewScope(g.(c := t.c));
    assert "y" !in g1.table.scopes.vars;
    assert GenStmt(g1, s).g.c.errors == g.c.errors;
  }

  /** `int g(); int g() { }` */
  function ForwardDeclared(): seq<TopDecl> { [Prototype("g", []), Function(FunDef("g", [], Block([])))] }

  lemma ForwardInTheFragment()
    ensures ProgramInFragment(ForwardDeclared()) && Ordered(ForwardDeclared()) && ConstantInits(ForwardDeclared())
  {
    var ds := ForwardDeclared();
    assert NameOf(ds[0]) == "g" && IsFunctionName(ds, "g");
  }

  lemma EmptyAccepted(t: Scopes<Sig>, ss: seq<Stmt>)
    requires ss == []
    ensures CheckStmt(t, Block(ss)) == Checked(t, Fine())
  {
  }

  lemma ForwardAccepted()
    ensures CheckTypes(ForwardDeclared()) == Fine()
  {
    hide CheckTop, CheckStmt, AddFunction;
    var ds := ForwardDeclared();
    var first, t := ds[..1], AddFunction(Base(map[]), "g", 0);
    assert first == [ds[0]] && first[..0] == [] && CheckTops(Base(map[]), []) == Checked(Base(map[]), Fine());
    PrototypeAccepted(Base(map[]), "g", []);
    EmptyAccepted(Push(AddFunction(t, "g", 0)), []);
    KnownFunction(t);
    FunctionAccepted(t, ds[1].def);
    assert CheckTops(Base(map[]), first) == Checked(t, Fine());
  }

  lemma KnownFunction(t: Scopes<Sig>)
    requires t == AddFunction(Base(map[]), "g", 0)
    ensures t.Base?
  {
  }

  lemma PrototypeAccepted(t: Scopes<Sig>, f: string, params: seq<Option<string>>)
    requires t.Base? && params == []
    ensures CheckTop(t, Prototype(f, params)) == Checked(AddFunction(t, f, 0), Fine())
  {
    hide AddFunction;
  }

  /** A function declared before its definition is printed with two headers, and
      LLVM refuses the module. */
  lemma ForwardDeclarationUnreadable()
    ensures
      var ds := ForwardDeclared();
      && ProgramInFragment(ds) && Ordered(ds) && ConstantInits(ds) && CheckTypes(ds) == Fine()
      && ReadModule(GenProgram(ds).items) == None
  {
    hide ProgramInFragment, Ordered, ConstantInits, CheckTypes, GenProgram, ReadModule;
    var ds := ForwardDeclared();
    ForwardInTheFragment();
    ForwardAccepted();
    FragmentBodied(ds);
    assert NameOf(ds[0]) == NameOf(ds[1]);
    HeadersDistinctExactly(ds);
    TwiceNamed(GenProgram(ds).items);
  }

  /** Equal headers print alike. */
  lemma TwiceNamed(items: seq<TopItem>)
    requires !DistinctHeaders(items)
    ensures ReadModule(items) == None
  {
    hide HeaderOf, PrintHeader, RoutineReads;
    var i, j :| 0 <= i < j < |items| && HeaderOf(items[i]) == HeaderOf(items[j]);
    assert PrintHeader(HeaderOf(items[i])) == PrintHeader(HeaderOf(items[j]));
  }

  /** `int f() { return f; }` */
  function FunctionReturned(): FunDef { FunDef("f", [], Block([Return(Var("f"))])) }

  lemma MisuseChecked(t: Scopes<Sig>, s: Stmt, ss: seq<Stmt>)
    requires s == Return(Var("f")) && ss == [s] && Find(t, "f") == Some(FunctionSig(0))
    ensures CheckStmt(t, Block(ss)) == Checked(t, Report(0, 1))
  {
    assert Find(Push(t), "f") == Find(t, "f");
    assert CheckStmt(Push(t), s) == Checked(Push(t), Report(0, 1));
    assert ss[1..] == [] && CheckStmts(Push(t), ss[1..]) == Checked(Push(t), Fine());
  }

  lemma MisuseAccepted()
    ensures CheckTypes([Function(FunctionReturned())]) == Report(0, 1)
  {
    hide CheckStmt;
    var def := FunctionReturned();
    var ds := [Function(def)];
    var t := Push(AddFunction(Base(map[]), "f", 0));
    assert ds[..0] == [] && CheckTops(Base(map[]), []) == Checked(Base(map[]), Fine());
    NoParams(t, def.params);
    FindsFunction(t);
    MisuseChecked(t, Return(Var("f")), [Return(Var("f"))]);
  }

  lemma FindsFunction(t: Scopes<Sig>)
    requires t == Push(AddFunction(Base(map[]), "f", 0))
    ensures Find(t, "f") == Some(FunctionSig(0))
  {
    assert Find(t.outer, "f") == Some(FunctionSig(0));
  }

  /** What is printed for the `return` of a name. */
  lemma NameReturned(g: Context, ss: seq<Stmt>, s: Stmt, sym: Symbol)
    requires s.Return? && s.value.Var? && ss == [s] && Find(g.table.scopes, s.value.name) == Some(sym)
    requires !g.inReturnBlock && g.c == Counters(0, 0, 0)
    ensures
      var x := GenStmts(g, ss);
      x.g.inReturnBlock && x.code == [Load(1, I32, SlotOf(sym)), Ret(Tmp(1))]
  {
    assert GenExpr(g.table.scopes, g.c, s.value).code == [Load(1, I32, SlotOf(sym))];
    assert ss[1..] == [];
  }

  lemma MisusePrinted()
    ensures
      GenFunction(FileStart(), FunctionReturned()).code == [Load(1, I32, Global(AtFileScope("f", 1))), Ret(Tmp(1))]
  {
    hide GenStmts;
    var def := FunctionReturned();
    var g := BodyContext(FileStart(), def);
    assert GenParams(FunctionEntry(FileStart(), def).table, []).code == [];
    var sym := Symbol(FunctionSymbol, AtFileScope("f", 1), true, false);
    var base: Scopes<Symbol> := Base(map["f" := sym]);
    assert Find(base, "f") == Some(sym) && Find(Push(base), "f") == Some(sym);
    assert Find(Push(Push(base)), "f") == Some(sym);
    assert InNewScope(g).table.scopes == Push(Push(base));
    NameReturned(InNewScope(g), [Return(Var("f"))], Return(Var("f")), sym);
  }

  lemma OneFunction(ds: seq<TopDecl>, def: FunDef)
    requires ds == [Function(def)]
    ensures GenProgram(ds).items == [Defined(def.name, Routine(def.params, GenFunction(FileStart(), def).code))]
  {
    hide GenFunction;
    assert ds[..0] == [];
    assert GenPrototypes(FileStart(), ds[..0]) == ProgramCode(FileStart(), []);
    assert GenPrototypes(FileStart(), ds) == ProgramCode(FileStart(), []);
    assert GenTops(FileStart(), ds[..0]) == ProgramCode(FileStart(), []);
  }

  lemma MisuseFaults(items: seq<TopItem>, r: Routine, code: seq<Instr>)
    requires r == Routine([], code) && items == [Defined("f", r)]
    requires code == [Load(1, I32, Global(AtFileScope("f", 1))), Ret(Tmp(1))]
    ensures
      var m := ModuleOf(items);
      && "f" in m && m["f"].params == []
      && Steps(m, Active(Entry(m, "f", []), [], MemoryOf(items)), 1) == Faulted(UnknownSlot)
  {
    assert items[..0] == [] && ModuleOf(items[..0]) == map[] && MemoryOf(items[..0]) == map[];
    var m := ModuleOf(items);
    var s := Active(Entry(m, "f", []), [], map[]);
    OneStepFaults(m, s, code);
  }

  lemma OneStepFaults(m: Module, s: State, code: seq<Instr>)
    requires s.Active? && s.top.fn in m && m[s.top.fn].code == code && s.top.pc == 0 && s.globals == map[]
    requires code != [] && code[0] == Load(1, I32, Global(AtFileScope("f", 1)))
    ensures Steps(m, s, 1) == Faulted(UnknownSlot)
  {
    assert Steps(m, s, 1) == Steps(m, Step(m, s), 0);
  }

  lemma NothingToLoad(items: seq<TopItem>, r: Routine)
    requires items == [Defined("f", r)] && r.code != [] && r.code[0] == Load(1, I32, Global(AtFileScope("f", 1)))
    ensures ReadModule(items) == None
  {
    hide NamesDiffer, BlocksClosed, ValuesDefined;
    assert VariableTexts(items) == {};
    assert !LineRefers(r.code[0], OutsideOf(items, r.params));
    assert items[0].Defined? && items[0] in items;
  }

  /** The checker accepts a function's name as a variable, LLVM refuses the
      module, and the machine faults at it. */
  lemma FunctionNameMisused(ds: seq<TopDecl>)
    requires ds == [Function(FunctionReturned())]
    ensures CheckTypes(ds) == Report(0, 1) && ReadModule(GenProgram(ds).items) == None
    ensures
      var m := ModuleOf(GenProgram(ds).items);
      && "f" in m && m["f"].params == []
      && Steps(m, Active(Entry(m, "f", []), [], MemoryOf(GenProgram(ds).items)), 1) == Faulted(UnknownSlot)
  {
    hide GenProgram, GenFunction, CheckTypes, ModuleOf, MemoryOf, Steps, Step, ReadModule;
    MisuseAccepted();
    OneFunction(ds, FunctionReturned());
    MisusePrinted();
    var code := GenFunction(FileStart(), FunctionReturned()).code;
    MisuseFaults(GenProgram(ds).items, Routine([], code), code);
    NothingToLoad(GenProgram(ds).items, Routine([], code));
  }

  /** `int f() { return 1; } int x; int g() { return x; }` */
  function DroppedAndUsed(): seq<TopDecl> {
    ReturnThenVariable() + [Function(FunDef("g", [], Block([Return(Var("x"))])))]
  }

  lemma UsedInTheFragment()
    ensures ProgramInFragment(DroppedAndUsed())
  {
    var ds := DroppedAndUsed();
    assert NameOf(ds[0]) == "f" && IsFunctionName(ds, "f") && NameOf(ds[2]) == "g" && IsFunctionName(ds, "g");
    assert !IsFunctionName(ds, "x");
    assert [Return(Number(1))][1..] == [] && [Return(Var("x"))][1..] == [];
  }

  lemma KnownReturned(t: Scopes<Sig>, s: Stmt, ss: seq<Stmt>)
    requires s.Return? && s.value.Var? && ss == [s] && Find(t, s.value.name) == Some(VariableSig)
    ensures CheckStmt(t, Block(ss)) == Checked(t, Fine())
  {
    assert Find(Push(t), s.value.name) == Find(t, s.value.name);
    assert CheckStmt(Push(t), s) == Checked(Push(t), Fine());
    assert ss[1..] == [] && CheckStmts(Push(t), ss[1..]) == Checked(Push(t), Fine());
  }

  lemma LastAccepted(ds: seq<TopDecl>, t: Scopes<Sig>, def: FunDef)
    requires ds != [] && ds[|ds| - 1] == Function(def) && def.params == []
    requires CheckTops(Base(map[]), ds[..|ds| - 1]) == Checked(t, Fine()) && t.Base?
    requires CheckStmt(Push(AddFunction(t, def.name, 0)), def.body)
             == Checked(Push(AddFunction(t, def.name, 0)), Fine())
    ensures CheckTypes(ds) == Fine()
  {
    hide CheckTop, CheckStmt, AddFunction;
    FunctionAccepted(t, def);
  }

  lemma UsedAccepted()
    ensures CheckTypes(DroppedAndUsed()) == Fine()
  {
    hide CheckTops, CheckStmt, CheckTypes;
    var ds := DroppedAndUsed();
    var t := Bind(AddFunction(Base(map[]), "f", 0), "x", VariableSig);
    assert ds[..2] == ReturnThenVariable();
    TwoChecked();
    var t1 := Push(AddFunction(t, "g", 0));
    assert Find(t1.outer, "x") == Some(VariableSig) && Find(t1, "x") == Some(VariableSig);
    KnownReturned(t1, Return(Var("x")), [Return(Var("x"))]);
    LastAccepted(ds, t, ds[2].def);
  }

  lemma TwoChecked()
    ensures CheckTops(Base(map[]), ReturnThenVariable())
            == Checked(Bind(AddFunction(Base(map[]), "f", 0), "x", VariableSig), Fine())
  {
    hide CheckStmt;
    var ds := ReturnThenVariable();
    var first := ds[..1];
    assert first == [ds[0]] && first[..0] == [] && CheckTops(Base(map[]), []) == Checked(Base(map[]), Fine());
    ReturnAccepted(Push(AddFunction(Base(map[]), "f", 0)), Number(1), [Return(Number(1))]);
    FunctionAccepted(Base(map[]), ds[0].def);
    assert CheckTops(Base(map[]), first) == Checked(AddFunction(Base(map[]), "f", 0), Fine());
  }

  /** A block of one `return`. */
  lemma OnlyReturn(t: NameTable, ss: seq<Stmt>)
    requires |ss| == 1 && ss[0].Return?
    ensures InStmt(t, Block(ss)) == InExpr(Push(t), ss[0].value) && !CanComplete(Block(ss), false)
  {
    hide InExpr;
    var s := ss[0];
    assert !CanComplete(s, true) && !CanComplete(s, false) && InStmt(Push(t), s) == InExpr(Push(t), s.value);
    assert InStmts(Push(t), ss) == InExpr(Push(t), s.value) && !AllComplete(ss, false);
  }

  lemma NoUse(t: NameTable, e: Expr)
    requires e == Number(1)
    ensures InExpr(t, e) == 0
  {
  }

  lemma LostUse(t: NameTable, e: Expr)
    requires e == Var("x") && Find(t, "x").None?
    ensures InExpr(t, e) == 1
  {
  }

  lemma OneLost()
    ensures InProgram(DroppedAndUsed()) == 1
  {
    hide InStmt, CanComplete, InExpr;
    var ds := DroppedAndUsed();
    var one, two := ds[..1], ds[..2];
    assert two[..1] == one && one[..0] == [] && two[1] == ds[1] && one[0] == ds[0];
    NoPrototypes(ds);
    var t: NameTable := Base(map[]);
    var t1: NameTable := Base(map["f" := ()]);
    var t2: NameTable := Base(map["f" := (), "g" := ()]);
    OnlyReturn(Push(t1), [Return(Number(1))]);
    NoUse(Push(Push(t1)), Number(1));
    assert InTops(t, one) == 0 && NamesOfTops(t, one) == t1 && !OpenAfter(one);
    assert InTops(t, two) == 0 && NamesOfTops(t, two) == t1 && !OpenAfter(two);
    assert Find(t2, "x").None? && Find(Push(t2), "x") == Find(t2, "x");
    OnlyReturn(Push(t2), [Return(Var("x"))]);
    LostUse(Push(Push(t2)), Var("x"));
    assert Bind(t1, "g", ()) == t2;
  }

  lemma NoPrototypes(ds: seq<TopDecl>)
    requires |ds| == 3 && forall i :: 0 <= i < |ds| ==> !ds[i].Prototype?
    ensures Prototypes(ds) == Base(map[])
  {
    var two := ds[..2];
    var one := two[..1];
    assert one[..0] == [] && Prototypes([]) == Base(map[]);
    assert one[0] == ds[0] && two[1] == ds[1];
    assert Prototypes(one) == Base(map[]);
    assert Prototypes(two) == Base(map[]);
  }

  /** The checker accepts it, and the generator does not find x. */
  lemma DroppedVariableUndefined()
    ensures
      var ds := DroppedAndUsed();
      ProgramInFragment(ds) && CheckTypes(ds) == Fine() && GenProgram(ds).g.c.errors == 1
  {
    hide GenProgram, InProgram, ProgramInFragment, CheckTypes, BodiesInFragment, DroppedAndUsed;
    var ds := DroppedAndUsed();
    UsedInTheFragment();
    UsedAccepted();
    OneLost();
    FragmentBodies(ds);
    ReportsExactly(ds);
  }

  /** `int f(int t1) { return t1; }` */
  function ParameterReturned(): FunDef { FunDef("f", ["t1"], Block([Return(Var("t1"))])) }

  lemma ParameterInTheFragment(ds: seq<TopDecl>)
    requires ds == [Function(ParameterReturned())]
    ensures ProgramInFragment(ds) && Ordered(ds) && ConstantInits(ds) && OneHeaderPerName(ds)
  {
    assert NameOf(ds[0]) == "f" && IsFunctionName(ds, "f");
    assert [Return(Var("t1"))][1..] == [];
  }

  lemma OneParameter(t: Scopes<Sig>, params: seq<string>)
    requires |params| == 1 && params[0] !in t.vars
    ensures CheckParams(t, AllNamed(params)) == Checked(Bind(t, params[0], VariableSig), Fine())
  {
    assert AllNamed(params) == [Some(params[0])] && AllNamed(params)[1..] == [];
  }

  lemma ParameterAccepted(ds: seq<TopDecl>, def: FunDef, s: Stmt)
    requires def == ParameterReturned() && ds == [Function(def)] && s == Return(Var("t1"))
    ensures CheckTypes(ds) == Fine()
  {
    hide CheckStmt, CheckParams;
    assert ds[..0] == [] && CheckTops(Base(map[]), []) == Checked(Base(map[]), Fine());
    var t := Push(AddFunction(Base(map[]), "f", 1));
    OneParameter(t, def.params);
    var t1 := Bind(t, "t1", VariableSig);
    assert Find(t1, "t1") == Some(VariableSig);
    KnownReturned(t1, s, [s]);
    assert CheckTop(Base(map[]), ds[0]).report == Fine();
  }

  lemma ParameterPrinted(def: FunDef)
    requires def == ParameterReturned()
    ensures
      var code := GenFunction(FileStart(), def).code;
      |code| > 2 && DefinedName(code[2]) == Some(N.TempName(1))
  {
    hide GenStmts;
    var t := FunctionEntry(FileStart(), def).table;
    var t1 := AddSymbol(t, "t1", VariableSymbol, true);
    assert def.params[1..] == [] && GenParams(t1, []) == TableCode(t1, []);
    assert GenParams(t, def.params).table == t1 && |GenParams(t, def.params).code| == 2;
    var g := InNewScope(BodyContext(FileStart(), def));
    var sym := NewSymbol(t, "t1", VariableSymbol, true);
    assert Find(t1.scopes, "t1") == Some(sym) && Find(g.table.scopes, "t1") == Some(sym);
    NameReturned(g, [Return(Var("t1"))], Return(Var("t1")), sym);
  }

  lemma SameText(items: seq<TopItem>, r: Routine)
    requires items == [Defined("f", r)] && r.params == ["t1"]
    requires |r.code| > 2 && DefinedName(r.code[2]) == Some(N.TempName(1))
    ensures ReadModule(items) == None
  {
    hide BlocksClosed, ValuesDefined, Refers, DefinedName;
    N.ParameterMayClash();
    assert items[0].Defined? && items[0] in items;
    assert "t1" in r.params && N.PrintLocal(DefinedName(r.code[2]).value) == "t1";
  }

  /** The checker accepts a parameter called t1, a function is declared once, and
      LLVM refuses the module for its two names t1. */
  lemma ParameterNameUnreadable(ds: seq<TopDecl>)
    requires ds == [Function(ParameterReturned())]
    ensures ProgramInFragment(ds) && Ordered(ds) && ConstantInits(ds) && CheckTypes(ds) == Fine()
    ensures OneHeaderPerName(ds) && ReadModule(GenProgram(ds).items) == None
  {
    hide ProgramInFragment, Ordered, ConstantInits, CheckTypes, GenProgram, GenFunction, ReadModule, OneHeaderPerName,
         DefinedName;
    var def := ParameterReturned();
    ParameterInTheFragment(ds);
    ParameterAccepted(ds, def, Return(Var("t1")));
    OneFunction(ds, def);
    ParameterPrinted(def);
    SameText(GenProgram(ds).items, Routine(def.params, GenFunction(FileStart(), def).code));
  }

  /** The cast that stores a comparison turns the bit into -1, where C has 1. */
  lemma StoredComparisonRuns(
    m: Module, code: seq<Instr>, c: Counters, e: Expr, r: int, b: bool, fr: Frame, rest: seq<Saved>,
    g: map<Slot, MemCell>)
    requires IsComparison(e) && r in fr.temps && fr.temps[r] == BoolV(b)
    ensures
      var x := GenToInt(c, e, r);
      && |x.code| == 1
      && Execute(m, code, x.code[0], fr, rest, g) == Active(SetTemp(fr, x.r, IntV(if b then -1 else 0)), rest, g)
  {
  }

  /** `!` itself gives the right bit; what is stored of it is cast as above. */
  lemma NotComputed(
    m: Module, code: seq<Instr>, t: int, r: int, n: int32, fr: Frame, rest: seq<Saved>, g: map<Slot, MemCell>)
    requires r in fr.temps && fr.temps[r] == IntV(n)
    ensures
      Execute(m, code, UnaryInstr(Not, t, Tmp(r)), fr, rest, g)
      == Active(SetTemp(fr, t, BoolV(if n == 0 then true else false)), rest, g)
  {
  }
}
