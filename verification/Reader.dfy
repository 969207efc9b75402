/** LLVM's reader: it refuses a module in which two names print the same, a name
    is used that nothing defines, a definition does not dominate a use, types do
    not fit or blocks are not closed.  And exactly which accepted programs are
    printed as modules that it reads. */
module Reader {
  import opened Options
  import opened Ast
  import opened Scoping
  import opened Ir
  import opened Codegen
  import opened Definitions
  import opened Linking
  import opened Blocks
  import Targets
  import opened Functions
  import opened Dominance
  import opened StmtAvailability
  import opened Programs
  import opened Checker
  import opened Agreement
  import opened WholeProgram
  import opened Headers
  import opened Names
  import opened NameShapes
  import opened PrintedNames
  import opened Messages
  import opened References
  import opened FileScope

  // ----- What is read -----

  /** Incoming parameters, labels, temporaries and slots print differently. */
  predicate NamesDiffer(r: Routine) {
    && DistinctNames(r.params)
    && (forall a, b ::
          0 <= a < b < |r.code| && DefinedName(r.code[a]).Some? && DefinedName(r.code[b]).Some? ==>
            PrintLocal(DefinedName(r.code[a]).value) != PrintLocal(DefinedName(r.code[b]).value))
    && (forall a, p :: 0 <= a < |r.code| && DefinedName(r.code[a]).Some? && p in r.params ==>
          PrintLocal(DefinedName(r.code[a]).value) != p)
  }

  predicate DefinesLabel(code: seq<Instr>, l: Label) {
    exists k :: 0 <= k < |code| && code[k] == LabelDef(l)
  }

  /** Every block but the first has a label and each is closed by a branch to
      labels that are there or by a return. */
  ghost predicate BlocksClosed(code: seq<Instr>) {
    && code != [] && !code[0].LabelDef? && IsTerminator(code[|code| - 1])
    && (forall i :: 0 < i < |code| ==> (code[i].LabelDef? <==> IsTerminator(code[i - 1])))
    && (forall i, l :: 0 <= i < |code| && BranchesTo(code[i], l) ==> DefinesLabel(code, l))
  }

  /** What a line uses is defined, of that type, in some line and on every path
      to it. */
  ghost predicate ValuesDefined(code: seq<Instr>) {
    && (forall i :: 0 <= i < |code| ==> LineTyped(code[i]))
    && (forall i, x :: 0 <= i < |code| && x in Uses(code[i]) ==> SetIn(code, x))
    && (forall path, x :: IsPath(code, path) && path[|path| - 1] < |code| && x in Uses(code[path[|path| - 1]]) ==>
          SetOnTheWay(code, path, x))
  }

  predicate SetIn(code: seq<Instr>, x: Typed) { exists k :: 0 <= k < |code| && x in Sets(code[k]) }

  predicate SetOnTheWay(code: seq<Instr>, path: seq<nat>, x: Typed) {
    exists k :: 0 <= k < |path| - 1 && path[k] < |code| && x in Sets(code[path[k]])
  }

  /** What a routine may use of its module and of its own parameters. */
  function OutsideOf(items: seq<TopItem>, params: seq<string>): Outside {
    Outside(VariableTexts(items), Callees(items), set p | p in params)
  }

  ghost predicate RoutineReads(items: seq<TopItem>, r: Routine) {
    NamesDiffer(r) && BlocksClosed(r.code) && ValuesDefined(r.code) && Refers(r.code, OutsideOf(items, r.params))
  }

  ghost predicate Readable(items: seq<TopItem>) {
    && HeadersDiffer(items)
    && (forall item :: item in items && item.Defined? ==> RoutineReads(items, item.routine))
  }

  ghost function ReadModule(items: seq<TopItem>): Option<Module> {
    if Readable(items) then Some(ModuleOf(items)) else None
  }

  // ----- Which programs -----

  /** No parameter has the name of a temporary or label of its function. */
  ghost predicate ParametersFree(r: Routine) {
    forall p :: p in r.params && GeneratedShape(p) ==> Count(r.code, ItemOf(GeneratedName(p))) == 0
  }

  ghost predicate NoClash(ds: seq<TopDecl>) {
    forall item :: item in GenProgram(ds).items && item.Defined? ==> ParametersFree(item.routine)
  }

  // ----- One routine -----

  lemma NamesDifferExactly(ds: seq<TopDecl>, i: nat)
    requires AllBodied(ds) && GoodNames(ds) && i < |GenProgram(ds).items| && GenProgram(ds).items[i].Defined?
    requires
      var ps := GenProgram(ds).items[i].routine.params;
      DistinctNames(ps) && forall p :: p in ps ==> IsIdentifier(p)
    ensures
      var r := GenProgram(ds).items[i].routine;
      NamesDiffer(r) <==> ParametersFree(r)
  {
    hide GenProgram, GoodNames, PrintLocal, IsIdentifier, GeneratedShape, DefinedName, Count;
    var items := GenProgram(ds).items;
    var r := items[i].routine;
    forall a, b | 0 <= a < b < |r.code| && DefinedName(r.code[a]).Some? && DefinedName(r.code[b]).Some?
      ensures PrintLocal(DefinedName(r.code[a]).value) != PrintLocal(DefinedName(r.code[b]).value)
    {
      CompilationNamesDistinct(ds, i, a, i, b);
    }
    forall p | p in r.params
      ensures
        (exists a :: 0 <= a < |r.code| && DefinedName(r.code[a]).Some? && PrintLocal(DefinedName(r.code[a]).value) == p)
        <==> GeneratedShape(p) && Count(r.code, ItemOf(GeneratedName(p))) > 0
    {
      ParametersClashExactly(ds, i, p);
      if a :| 0 <= a < |r.code| && DefinedName(r.code[a]).Some? && PrintLocal(DefinedName(r.code[a]).value) == p {
        assert NameAt(items, i, a).Some?;
      }
    }
  }

  lemma BlocksOk(g: Context, f: FunDef)
    requires AtFileLevel(g) && f.body.Block? && StmtInFragment(f.body, false)
    ensures BlocksClosed(GenFunction(g, f).code)
  {
    hide GenFunction, StmtInFragment, PlainInits, Count;
    FragmentPlain(f.body, false);
    ControlFlowWellFormed(g, f);
    var code := GenFunction(g, f).code;
    forall i, l | 0 <= i < |code| && BranchesTo(code[i], l)
      ensures DefinesLabel(code, l)
    {
      assert Targets.Aims(code[i], l) > 0;
      var k := CountFinds(code, LabelItem(l));
    }
  }

  lemma ValuesOk(g: Context, f: FunDef)
    requires AtFileLevel(g) && f.body.Block? && StmtInFragment(f.body, false) && StmtResolved(BodyContext(g, f), f.body)
    ensures ValuesDefined(GenFunction(g, f).code)
  {
    hide GenFunction, StmtInFragment, StmtResolved, BodyContext, Uses, LineTyped, Sets, Pass, Follows;
    var code := GenFunction(g, f).code;
    FunctionPasses(g, f);
    forall i | 0 <= i < |code|
      ensures LineTyped(code[i])
    {
      UsesKnown(code, i);
    }
    forall i, x | 0 <= i < |code| && x in Uses(code[i])
      ensures SetIn(code, x)
    {
      UsesAreDefined(g, f, i, x);
    }
    forall path, x | IsPath(code, path) && path[|path| - 1] < |code| && x in Uses(code[path[|path| - 1]])
      ensures SetOnTheWay(code, path, x)
    {
      UsesAreDominated(g, f, path, x);
    }
  }

  lemma {:induction false} InPart(t: NameTable, ds: seq<TopDecl>, k: nat)
    requires k < |ds| && InTops(t, ds) == 0
    ensures InTop(NamesOfTops(t, ds[..k]), OpenAfter(ds[..k]), ds[k]) == 0
    decreases ds
  {
    hide InTop, OpenAfter, NamesAfterTop;
    if k < |ds| - 1 {
      assert ds[..|ds| - 1][..k] == ds[..k];
      InPart(t, ds[..|ds| - 1], k);
    }
  }

  /** The function's outside references are those of the source. */
  lemma RoutineRefers(ds: seq<TopDecl>, k: nat)
    requires ProgramInFragment(ds) && CheckTypes(ds).errors == 0 && InProgram(ds) == 0 && GoodNames(ds)
    requires k < |ds| && ds[k].Function?
    ensures
      var g, def := StateBefore(ds, k), ds[k].def;
      Refers(GenFunction(g, def).code, OutsideOf(GenProgram(ds).items, def.params))
      <==> StmtResolved(BodyContext(g, def), def.body)
  {
    hide GenProgram, GenFunction, StateBefore, Prototypes, NamesOfTops, VariableTexts, Callees, GoodNames,
         CheckTypes, Refers, StmtInFragment, StmtResolved, BodyContext, StmtCallsIn, SymbolsFit, InStmt, Alike,
         IsFunctionName, NoBareDecl, AtFileLevel, OpenAfter;
    var g, def := StateBefore(ds, k), ds[k].def;
    var t := NamesOfTops(Prototypes(ds), ds[..k]);
    FragmentBodied(ds);
    FragmentBodies(ds);
    StateOk(ds, k);
    ReportsBefore(ds, k);
    InPart(Prototypes(ds), ds, k);
    EntryFits(ds, k);
    BodyCalls(ds, k);
    assert TopInFragment(ds, ds[k]);
    FunctionRefers(t, g, def, OutsideOf(GenProgram(ds).items, def.params));
  }

  lemma {:induction false} ParamsNamed(params: seq<string>, f: string)
    requires ParamsFit(params, f)
    ensures forall p :: p in params ==> IsIdentifier(p)
    decreases params
  {
    if params != [] {
      ParamsNamed(params[1..], f);
    }
  }

  lemma ParametersOk(ds: seq<TopDecl>, k: nat)
    requires ProgramInFragment(ds) && CheckTypes(ds).errors == 0 && GoodNames(ds) && k < |ds| && ds[k].Function?
    ensures DistinctNames(ds[k].def.params) && forall p :: p in ds[k].def.params ==> IsIdentifier(p)
  {
    hide CheckTop, GenProgram, StmtInFragment, IsFunctionName, IsIdentifier, LocalsFit, Covered;
    assert NamesFit(ds, ds[k]) && TopInFragment(ds, ds[k]);
    ParamsNamed(ds[k].def.params, ds[k].def.name);
    PartsAccepted(ds, k);
    CoveredBefore(ds, k);
    CoveredLevel(ds, SigsBefore(ds, k), StateBefore(ds, k));
    CheckFunctionRestores(SigsBefore(ds, k), ds[k]);
  }

  function RoutineOf(ds: seq<TopDecl>, k: nat): Routine
    requires k < |ds| && ds[k].Function?
  {
    Routine(ds[k].def.params, GenFunction(StateBefore(ds, k), ds[k].def).code)
  }

  lemma RoutinePrinted(ds: seq<TopDecl>, k: nat)
    requires k < |ds| && ds[k].Function?
    ensures Defined(ds[k].def.name, RoutineOf(ds, k)) in GenProgram(ds).items
  {
    hide GenProgram, GenFunction, StateBefore;
    ItemPrinted(ds, k, Defined(ds[k].def.name, RoutineOf(ds, k)));
  }

  /** A function of an accepted program is read exactly when no function's name
      is used as a variable in it and no parameter has the name of something
      generated. */
  lemma RoutineReadsExactly(ds: seq<TopDecl>, k: nat)
    requires ProgramInFragment(ds) && CheckTypes(ds).errors == 0 && InProgram(ds) == 0 && GoodNames(ds)
    requires k < |ds| && ds[k].Function?
    ensures
      RoutineReads(GenProgram(ds).items, RoutineOf(ds, k)) <==>
      StmtResolved(BodyContext(StateBefore(ds, k), ds[k].def), ds[k].def.body) && ParametersFree(RoutineOf(ds, k))
  {
    hide GenProgram, GenFunction, StateBefore, GoodNames, CheckTypes, Refers, StmtInFragment, StmtResolved,
         BodyContext, ParametersFree, NamesDiffer, BlocksClosed, ValuesDefined, IsFunctionName, NoBareDecl, AtFileLevel,
         IsIdentifier, OutsideOf;
    FragmentBodied(ds);
    StateOk(ds, k);
    assert TopInFragment(ds, ds[k]);
    RoutinePrinted(ds, k);
    var i :| 0 <= i < |GenProgram(ds).items|
             && GenProgram(ds).items[i] == Defined(ds[k].def.name, RoutineOf(ds, k));
    ParametersOk(ds, k);
    NamesDifferExactly(ds, i);
    BlocksOk(StateBefore(ds, k), ds[k].def);
    RoutineRefers(ds, k);
    if StmtResolved(BodyContext(StateBefore(ds, k), ds[k].def), ds[k].def.body) {
      ValuesOk(StateBefore(ds, k), ds[k].def);
    }
  }

  /** A printed function is that of a declaration. */
  lemma RoutineSource(ds: seq<TopDecl>, item: TopItem) returns (k: nat)
    requires item in GenProgram(ds).items && item.Defined?
    ensures k < |ds| && ds[k].Function? && item == Defined(ds[k].def.name, RoutineOf(ds, k))
  {
    hide GenProgram, GenFunction, StateBefore;
    var i :| 0 <= i < |GenProgram(ds).items| && GenProgram(ds).items[i] == item;
    k := ItemSource(ds, i);
  }

  // ----- The module -----

  /** Every name that the generator looks up as a variable is one. */
  predicate AllResolved(ds: seq<TopDecl>) {
    forall k :: 0 <= k < |ds| && ds[k].Function? ==>
      StmtResolved(BodyContext(StateBefore(ds, k), ds[k].def), ds[k].def.body)
  }

  /** LLVM reads what is printed for an accepted program that the generator
      reports nothing about if and only if no function is declared twice, all
      names are variables, and no parameter has the name of a temporary or label
      that its function defines. */
  lemma SilentReadsExactly(ds: seq<TopDecl>)
    requires ProgramInFragment(ds) && CheckTypes(ds).errors == 0 && InProgram(ds) == 0 && GoodNames(ds)
    ensures
      ReadModule(GenProgram(ds).items)
      == if OneHeaderPerName(ds) && AllResolved(ds) && NoClash(ds) then Some(ModuleOf(GenProgram(ds).items)) else None
  {
    hide GenProgram, GoodNames, InProgram, CheckTypes, ProgramInFragment, OneHeaderPerName, HeadersDiffer, RoutineReads,
         ParametersFree, RoutineOf, StmtResolved, BodyContext, StateBefore, ModuleOf;
    var items := GenProgram(ds).items;
    FragmentBodied(ds);
    FileNamesPrintDistinct(ds);
    forall k | 0 <= k < |ds| && ds[k].Function?
      ensures Defined(ds[k].def.name, RoutineOf(ds, k)) in items
      ensures RoutineReads(items, RoutineOf(ds, k)) <==>
              && StmtResolved(BodyContext(StateBefore(ds, k), ds[k].def), ds[k].def.body)
              && ParametersFree(RoutineOf(ds, k))
    {
      RoutinePrinted(ds, k);
      RoutineReadsExactly(ds, k);
    }
    forall item | item in items && item.Defined?
      ensures exists k :: 0 <= k < |ds| && ds[k].Function? && item == Defined(ds[k].def.name, RoutineOf(ds, k))
    {
      var k := RoutineSource(ds, item);
    }
  }

  /** If no file-scope variable is left out, the names are variables exactly when
      the checker let no use of a function's name pass. */
  lemma ReadsExactly(ds: seq<TopDecl>)
    requires ProgramInFragment(ds) && Ordered(ds) && CheckTypes(ds).errors == 0 && GoodNames(ds)
    ensures
      ReadModule(GenProgram(ds).items)
      == if OneHeaderPerName(ds) && CheckTypes(ds).misuses == 0 && NoClash(ds) then Some(ModuleOf(GenProgram(ds).items))
         else None
  {
    hide GenProgram, GoodNames, Ordered, CheckTypes, ProgramInFragment, OneHeaderPerName, ReadModule, NoClash,
         StmtResolved, BodyContext, StateBefore, ModuleOf, InProgram;
    AcceptedInScope(ds);
    SilentReadsExactly(ds);
    NamesResolveExactly(ds);
  }
}
