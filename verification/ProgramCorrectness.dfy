/** The module printed for an accepted program runs as the program does. */
module ProgramCorrectness {
  import opened Options
  import opened Int32
  import opened Ast
  import opened Scoping
  import opened Source
  import opened Ir
  import opened Codegen
  import opened Definitions
  import opened Relation
  import opened Linking
  import opened Functions
  import opened Dominance
  import opened StmtAvailability
  import opened Programs
  import opened Checker
  import opened WholeProgram
  import opened Headers
  import opened PrintedNames
  import opened Reader
  import opened Correctness

  /** The int fragment, accepted by the checker with no function's name used as
      a variable. */
  predicate Accepted(ds: seq<TopDecl>) {
    ProgramInFragment(ds) && Ordered(ds) && ConstantInits(ds) && CheckTypes(ds) == Fine()
  }

  /** What is printed for it can be read: a function is declared once, names fit
      the buffer, and no parameter is named like something generated. */
  ghost predicate Compilable(ds: seq<TopDecl>) {
    Accepted(ds) && OneHeaderPerName(ds) && GoodNames(ds) && NoClash(ds)
  }

  // ----- The link between program and module -----

  /** A routine was generated from its function in a state that led to g. */
  ghost predicate Generated(def: FunDef, r: Routine, e: Context, g: Context) {
    && r == Routine(def.params, GenFunction(e, def).code)
    && def.body.Block? && StmtInFragment(def.body, false) && DistinctNames(def.params)
    && StmtResolved(BodyContext(e, def), def.body)
    && AtFileLevel(e) && Extends(GenFunction(e, def).g, g)
  }

  ghost predicate LinkedSoFar(p: Program, m: Module, e: map<string, Context>, g: Context) {
    p.Keys == m.Keys == e.Keys && forall f :: f in p ==> Generated(p[f], m[f], e[f], g)
  }

  lemma GeneratedThen(def: FunDef, r: Routine, e: Context, g: Context, g': Context)
    requires Generated(def, r, e, g) && Extends(g, g')
    ensures Generated(def, r, e, g')
  {
    hide GenFunction, StmtInFragment, StmtResolved, BodyContext;
    ExtendsThen(GenFunction(e, def).g, g, g');
  }

  lemma NewFunction(ds: seq<TopDecl>, i: nat)
    requires Accepted(ds) && i < |ds| && ds[i].Function?
    ensures
      var g, def := StateBefore(ds, i), ds[i].def;
      Generated(def, Routine(def.params, GenFunction(g, def).code), g, GenTop(g, ds[i]).g)
  {
    hide GenFunction, StmtInFragment, StmtResolved, BodyContext, CheckTop, IsFunctionName, Ordered, ConstantInits,
         GenPrototypes, GenTops;
    var g, d := StateBefore(ds, i), ds[i];
    var t := SigsBefore(ds, i);
    assert TopInFragment(ds, d);
    PartsAccepted(ds, i);
    CoveredBefore(ds, i);
    AgreesBefore(ds, i);
    CheckFunctionRestores(t, d);
    FunctionAgrees(t, g, d);
    Unchanged(GenFunction(g, d.def).g);
  }

  /** Adding one function, or none, keeps the link. */
  lemma LinkStep(
    p: Program, m: Module, e: map<string, Context>, g: Context, g': Context, def: FunDef, r: Routine, e1: Context)
    requires LinkedSoFar(p, m, e, g) && Extends(g, g')
    ensures LinkedSoFar(p, m, e, g')
    ensures Generated(def, r, e1, g') ==> LinkedSoFar(p[def.name := def], m[def.name := r], e[def.name := e1], g')
  {
    hide Generated, Extends;
    forall f | f in p
      ensures Generated(p[f], m[f], e[f], g')
    {
      GeneratedThen(p[f], m[f], e[f], g, g');
    }
  }

  lemma MapsStep(ds: seq<TopDecl>, i: nat)
    requires i < |ds|
    ensures
      var g0 := AfterPrototypes(ds);
      var d, g := ds[i], StateBefore(ds, i);
      var items, items' := GenTops(g0, ds[..i]).items, GenTops(g0, ds[..i + 1]).items;
      && items' == items + GenTop(g, d).items && StateBefore(ds, i + 1) == GenTop(g, d).g
      && ProgramOf(ds[..i + 1]) == (if d.Function? then ProgramOf(ds[..i])[d.def.name := d.def] else ProgramOf(ds[..i]))
      && EntriesOf(g0, ds[..i + 1])
         == (if d.Function? then EntriesOf(g0, ds[..i])[d.def.name := g] else EntriesOf(g0, ds[..i]))
      && InitialGlobals(ds[..i + 1])
         == (if d.GlobalVar? then InitialGlobals(ds[..i])[d.name := ToCell(InitialValue(d.init))]
             else InitialGlobals(ds[..i]))
  {
    hide GenTop, GenPrototypes, InitialValue;
    OneMore(ds, i);
  }

  lemma {:induction false} LinkedBefore(ds: seq<TopDecl>, i: nat)
    requires Accepted(ds) && i <= |ds|
    ensures
      var g0 := AfterPrototypes(ds);
      LinkedSoFar(ProgramOf(ds[..i]), ModuleOf(GenTops(g0, ds[..i]).items), EntriesOf(g0, ds[..i]), StateBefore(ds, i))
    decreases i
  {
    hide Generated, GenFunction, GenTop, GenPrototypes, Accepted, Extends, LinkedSoFar, StateBefore, InitialGlobals,
         GenTops, ProgramOf, EntriesOf, ModuleOf, MemoryOf, AfterPrototypes;
    if i == 0 {
      NothingLinked(ds);
    } else {
      LinkedBefore(ds, i - 1);
      LinkedNext(ds, i - 1);
    }
  }

  lemma NothingLinked(ds: seq<TopDecl>)
    ensures
      var g0 := AfterPrototypes(ds);
      LinkedSoFar(ProgramOf(ds[..0]), ModuleOf(GenTops(g0, ds[..0]).items), EntriesOf(g0, ds[..0]), StateBefore(ds, 0))
  {
    hide GenPrototypes;
  }

  lemma LinkedNext(ds: seq<TopDecl>, i: nat)
    requires Accepted(ds) && i < |ds|
    requires
      var g0 := AfterPrototypes(ds);
      LinkedSoFar(ProgramOf(ds[..i]), ModuleOf(GenTops(g0, ds[..i]).items), EntriesOf(g0, ds[..i]), StateBefore(ds, i))
    ensures
      var g0 := AfterPrototypes(ds);
      LinkedSoFar(ProgramOf(ds[..i + 1]), ModuleOf(GenTops(g0, ds[..i + 1]).items), EntriesOf(g0, ds[..i + 1]),
                  StateBefore(ds, i + 1))
  {
    hide Generated, GenFunction, GenPrototypes, Accepted, Extends, LinkedSoFar, StateBefore, InitialGlobals,
         GenTops, ProgramOf, EntriesOf, ModuleOf, MemoryOf, AfterPrototypes;
    var g0 := AfterPrototypes(ds);
    var d, g := ds[i], StateBefore(ds, i);
    MapsStep(ds, i);
    StateExtends(ds, i);
    var items := GenTops(g0, ds[..i]).items;
    LastItem(items, GenTop(g, d).items);
    if d.Function? {
      NewFunction(ds, i);
      LinkStep(ProgramOf(ds[..i]), ModuleOf(items), EntriesOf(g0, ds[..i]), g, StateBefore(ds, i + 1),
               d.def, Routine(d.def.params, GenFunction(g, d.def).code), g);
    } else {
      LinkStep(ProgramOf(ds[..i]), ModuleOf(items), EntriesOf(g0, ds[..i]), g, StateBefore(ds, i + 1),
               FunDef("", [], Empty), Routine([], []), g);
    }
  }

  lemma LastItem(items: seq<TopItem>, more: seq<TopItem>)
    requires |more| <= 1
    ensures
      ModuleOf(items + more) ==
      if more != [] && more[0].Defined? then ModuleOf(items)[more[0].name := more[0].routine] else ModuleOf(items)
    ensures
      MemoryOf(items + more) ==
      if more != [] && more[0].GlobalDef? then
        MemoryOf(items)[more[0].slot := MemCell(I32, Some(IntV(more[0].initial)))]
      else MemoryOf(items)
  {
    if more == [] {
      assert items + more == items;
    } else {
      assert (items + more)[..|items + more| - 1] == items;
    }
  }

  lemma StateExtends(ds: seq<TopDecl>, i: nat)
    requires Accepted(ds) && i < |ds|
    ensures AtFileLevel(StateBefore(ds, i)) && Extends(StateBefore(ds, i), StateBefore(ds, i + 1))
  {
    hide GenTop, Ordered, ConstantInits, CheckTypes, TopInFragment, AtFileLevel, Extends;
    FragmentBodied(ds);
    StateOk(ds, i);
    OneMore(ds, i);
    TopKeeps(StateBefore(ds, i), ds[i]);
  }

  /** `declare` lines define nothing. */
  lemma {:induction false} DeclaredOnly(g: Context, ds: seq<TopDecl>, items: seq<TopItem>)
    ensures ModuleOf(GenPrototypes(g, ds).items + items) == ModuleOf(items)
    ensures MemoryOf(GenPrototypes(g, ds).items + items) == MemoryOf(items)
    decreases |ds| + |items|
  {
    var ps := GenPrototypes(g, ds).items;
    if items != [] {
      var n := |items| - 1;
      assert (ps + items)[..|ps| + n] == ps + items[..n];
      DeclaredOnly(g, ds, items[..n]);
    } else {
      assert ps + items == ps;
      if ds != [] {
        var x := GenPrototypes(g, ds[..|ds| - 1]);
        DeclaredOnly(g, ds[..|ds| - 1], []);
        assert x.items + [] == x.items;
        LastItem(x.items, GenPrototype(x.g, ds[|ds| - 1]).items);
      }
    }
  }

  lemma ProgramLinks(ds: seq<TopDecl>)
    requires Accepted(ds)
    ensures LinkOk(LinkOf(ds))
  {
    hide Generated, GenFunction, Accepted, GenTops, GenPrototypes, ModuleOf, ProgramOf, EntriesOf, RoutineOk,
         UniqueLabels, AtFileLevel;
    var k := LinkOf(ds);
    var g0 := AfterPrototypes(ds);
    var g := GenProgram(ds).g;
    LinkedBefore(ds, |ds|);
    assert ds[..|ds|] == ds;
    DeclaredOnly(FileStart(), ds, GenTops(g0, ds).items);
    FinalSymbols(ds);
    forall f | f in k.prog
      ensures RoutineOk(k.prog[f], k.mod[f], k.entry[f], k.fs) && UniqueLabels(k.mod[f].code)
    {
      GeneratedOk(k.prog[f], k.mod[f], k.entry[f], g);
    }
  }

  lemma FinalSymbols(ds: seq<TopDecl>)
    requires Accepted(ds)
    ensures AtFileLevel(GenProgram(ds).g) && GlobalsOk(GenProgram(ds).g.table.scopes.vars)
  {
    hide Ordered, ConstantInits, CheckTypes, GenTops, GenPrototypes, TopInFragment;
    FragmentBodied(ds);
    StateOk(ds, 0);
  }

  lemma GeneratedOk(def: FunDef, r: Routine, e: Context, g: Context)
    requires Generated(def, r, e, g) && AtFileLevel(g)
    ensures RoutineOk(def, r, e, g.table.scopes.vars)
    ensures UniqueLabels(r.code)
  {
    hide GenFunction, StmtInFragment, StmtResolved, BodyContext, Count;
    FunctionRestores(e, def);
    AddAtFileLevel(e, def.name, FunctionSymbol);
    var s := FunctionEntry(e, def).table.scopes;
    assert s.outer == GenFunction(e, def).g.table.scopes && TableOk(s.outer);
    forall l: Label
      ensures Count(r.code, LabelItem(l)) <= 1
    {
      FunctionDefinesOnce(e, def, LabelItem(l));
    }
  }

  // ----- Memory at the start -----

  /** A printed variable adds a cell of its own. */
  lemma MemoryStep(vars: map<string, Cell>, mem: map<Slot, MemCell>, g: Context, x: string, v: int32)
    requires AtFileLevel(g) && GlobalsMatch(vars, mem, g.table.scopes.vars) && x !in g.table.scopes.vars
    ensures
      var sym := NewSymbol(g.table, x, VariableSymbol, false);
      GlobalsMatch(vars[x := Held(v)], mem[SlotOf(sym) := MemCell(I32, Some(IntV(v)))], g.table.scopes.vars[x := sym])
  {
    var sym := NewSymbol(g.table, x, VariableSymbol, false);
    forall y | y in g.table.scopes.vars
      ensures g.table.scopes.vars[y].llvm.uid != sym.llvm.uid
    {
    }
  }

  lemma FunctionStep(vars: map<string, Cell>, mem: map<Slot, MemCell>, g: Context, f: string)
    requires GlobalsMatch(vars, mem, g.table.scopes.vars)
    ensures GlobalsMatch(vars, mem, AddSymbol(g.table, f, FunctionSymbol, false).scopes.vars)
  {
  }

  lemma NoMemory(ds: seq<TopDecl>)
    ensures
      GlobalsMatch(InitialGlobals(ds[..0]), MemoryOf(GenTops(AfterPrototypes(ds), ds[..0]).items),
                   StateBefore(ds, 0).table.scopes.vars)
  {
    hide GenPrototypes;
    OnlyFunctions(FileStart(), ds);
  }

  /** The printed variables hold what C says they start with. */
  lemma {:induction false} MemoryBefore(ds: seq<TopDecl>, i: nat)
    requires Accepted(ds) && i <= |ds|
    ensures
      GlobalsMatch(InitialGlobals(ds[..i]), MemoryOf(GenTops(AfterPrototypes(ds), ds[..i]).items),
                   StateBefore(ds, i).table.scopes.vars)
    decreases i
  {
    hide GenFunction, GenPrototypes, Accepted, AtFileLevel, Extends, InitialValue, OpenAfter, GenTops, ProgramOf,
         EntriesOf, ModuleOf, MemoryOf, StateBefore, InitialGlobals, GlobalsMatch, BodyContext;
    var g0 := AfterPrototypes(ds);
    if i == 0 {
      NoMemory(ds);
    } else {
      var d, g := ds[i - 1], StateBefore(ds, i - 1);
      var vars, mem := InitialGlobals(ds[..i - 1]), MemoryOf(GenTops(g0, ds[..i - 1]).items);
      MemoryBefore(ds, i - 1);
      MapsStep(ds, i - 1);
      StateExtends(ds, i - 1);
      FileLevelBase(g);
      LastItem(GenTops(g0, ds[..i - 1]).items, GenTop(g, d).items);
      match d
      case GlobalVar(x, init) =>
        GlobalPrinted(ds, i - 1);
        MemoryStep(vars, mem, g, x, PrintedInitial(init));
      case Function(def) =>
        ABody(ds, i - 1);
        FunctionRestores(g, def);
        FunctionStep(vars, mem, g, def.name);
      case Prototype(_, _) =>
    }
  }

  lemma FileLevelBase(g: Context)
    requires AtFileLevel(g)
    ensures g.table.scopes.Base?
  {
  }

  lemma ABody(ds: seq<TopDecl>, i: nat)
    requires Accepted(ds) && i < |ds| && ds[i].Function?
    ensures ds[i].def.body.Block?
  {
    assert TopInFragment(ds, ds[i]);
  }

  lemma GlobalPrinted(ds: seq<TopDecl>, i: nat)
    requires Accepted(ds) && i < |ds| && ds[i].GlobalVar?
    ensures
      var g := StateBefore(ds, i);
      && !g.inReturnBlock && ds[i].name !in g.table.scopes.vars
      && ToCell(InitialValue(ds[i].init)) == Held(PrintedInitial(ds[i].init))
  {
    hide StateBefore, OpenAfter, ConstantValue, IsFunctionName, TopInFragment;
    GlobalEmitted(ds, i);
    FragmentBodies(ds);
    FlagAtFileScope(ds, i);
    assert ConstantInit(ds[i]);
    InitializerPrinted(ds[i].init);
  }

  // ----- The main theorem -----

  /** The machine n steps into a call of a function of the compiled program, from
      the program's initial memory. */
  ghost function RunOf(ds: seq<TopDecl>, f: string, vs: seq<int32>, n: nat): State
    requires f in ModuleOf(GenProgram(ds).items) && |ModuleOf(GenProgram(ds).items)[f].params| == |vs|
  {
    StateAt(LinkOf(ds), f, vs, MemoryOf(GenProgram(ds).items), n)
  }

  lemma ProgramCallable(ds: seq<TopDecl>, f: string, vs: seq<int32>)
    requires Accepted(ds) && f in ProgramOf(ds) && |ProgramOf(ds)[f].params| == |vs|
    ensures Callable(LinkOf(ds), f, vs, InitialGlobals(ds), MemoryOf(GenProgram(ds).items))
  {
    hide Accepted, LinkOk, GenTops, GenPrototypes, ModuleOf, ProgramOf, EntriesOf, GlobalsMatch, InitialGlobals,
         MemoryOf;
    ProgramLinks(ds);
    MemoryBefore(ds, |ds|);
    assert ds[..|ds|] == ds;
    DeclaredOnly(FileStart(), ds, GenTops(AfterPrototypes(ds), ds).items);
    CallableIff(LinkOf(ds), f, vs, InitialGlobals(ds), MemoryOf(GenProgram(ds).items));
  }

  /** A program and the module that LLVM reads from what is printed for it agree
      on every call: one returns v exactly when the other does, one fails exactly
      when the other does and for the same reason, one runs forever exactly when
      the other does, and when both are done memory shows the file-scope
      variables. */
  lemma CompilationCorrect(ds: seq<TopDecl>, f: string, vs: seq<int32>, v: int32, err: Error)
    requires Compilable(ds) && f in ProgramOf(ds) && |ProgramOf(ds)[f].params| == |vs|
    ensures ReadModule(GenProgram(ds).items) == Some(ModuleOf(GenProgram(ds).items))
    ensures f in ModuleOf(GenProgram(ds).items) && |ModuleOf(GenProgram(ds).items)[f].params| == |vs|
    ensures (exists fuel: nat, g :: Invoke(ProgramOf(ds), fuel, f, vs, InitialGlobals(ds)) == Answer(v, g)) <==>
            (exists n: nat, mem :: RunOf(ds, f, vs, n) == Halted(v, mem))
    ensures err != Unbound ==>
              ((exists fuel: nat :: Invoke(ProgramOf(ds), fuel, f, vs, InitialGlobals(ds)) == Failed(err)) <==>
               (exists n: nat :: RunOf(ds, f, vs, n) == Faulted(FaultOf(err))))
    ensures (forall fuel: nat :: Invoke(ProgramOf(ds), fuel, f, vs, InitialGlobals(ds)) == NoAnswer) <==>
            (forall n: nat :: RunOf(ds, f, vs, n).Active?)
    ensures forall fuel: nat, g, n: nat, mem ::
              Invoke(ProgramOf(ds), fuel, f, vs, InitialGlobals(ds)) == Answer(v, g)
                && RunOf(ds, f, vs, n) == Halted(v, mem)
              ==> GlobalsMatch(g, mem, GenProgram(ds).g.table.scopes.vars)
  {
    hide Accepted, LinkOk, GenTops, GenPrototypes, GenProgram, ModuleOf, ProgramOf, EntriesOf, GlobalsMatch,
         InitialGlobals, MemoryOf, Invoke, StateAt, ReadModule, OneHeaderPerName, GoodNames, NoClash;
    CompiledReads(ds);
    ProgramCallable(ds, f, vs);
    var k, mem := LinkOf(ds), MemoryOf(GenProgram(ds).items);
    forall n: nat
      ensures RunOf(ds, f, vs, n) == StateAt(k, f, vs, mem, n)
    {
    }
    ReturnsAlike(k, f, vs, InitialGlobals(ds), mem, v);
    DivergesAlike(k, f, vs, InitialGlobals(ds), mem);
    if err != Unbound {
      FailsAlike(k, f, vs, InitialGlobals(ds), mem, err);
    }
    forall fuel: nat, g, n: nat, mem' |
      Invoke(ProgramOf(ds), fuel, f, vs, InitialGlobals(ds)) == Answer(v, g) && RunOf(ds, f, vs, n) == Halted(v, mem')
      ensures GlobalsMatch(g, mem', GenProgram(ds).g.table.scopes.vars)
    {
      ResultsAgree(k, f, vs, InitialGlobals(ds), mem, fuel, n);
    }
  }

  lemma CompiledReads(ds: seq<TopDecl>)
    requires Compilable(ds)
    ensures ReadModule(GenProgram(ds).items) == Some(ModuleOf(GenProgram(ds).items))
  {
    hide GenProgram, Ordered, ConstantInits, CheckTypes, ReadModule, ProgramInFragment, GoodNames, NoClash;
    ReadsExactly(ds);
  }

  /** No run of a compiled program reads a temporary that is not set or has
      another type, falls into a label, runs off a block or misses a slot. */
  lemma CompiledRunsAreDisciplined(ds: seq<TopDecl>, f: string, vs: seq<int32>, n: nat)
    requires Compilable(ds) && f in ProgramOf(ds) && |ProgramOf(ds)[f].params| == |vs|
    requires f in ModuleOf(GenProgram(ds).items) && |ModuleOf(GenProgram(ds).items)[f].params| == |vs|
    ensures RunOf(ds, f, vs, n).Faulted? ==>
              RunOf(ds, f, vs, n).fault in {ArithmeticFault, UninitialisedRead, BadCallFault}
  {
    hide Accepted, LinkOk, GenTops, GenPrototypes, GenProgram, ModuleOf, ProgramOf, EntriesOf, GlobalsMatch,
         InitialGlobals, MemoryOf,
         Invoke, StateAt;
    ProgramCallable(ds, f, vs);
    DisciplineHolds(LinkOf(ds), f, vs, InitialGlobals(ds), MemoryOf(GenProgram(ds).items), n);
  }

  /** Statically too, as LLVM checks it: on every path through a printed function
      the temporaries and slots that a line uses were set before. */
  lemma CompiledUsesAreDominated(ds: seq<TopDecl>, f: string, path: seq<nat>, x: Typed)
    requires Accepted(ds) && f in ModuleOf(GenProgram(ds).items)
    requires IsPath(ModuleOf(GenProgram(ds).items)[f].code, path)
    requires path[|path| - 1] < |ModuleOf(GenProgram(ds).items)[f].code|
    requires x in Uses(ModuleOf(GenProgram(ds).items)[f].code[path[|path| - 1]])
    ensures
      var code := ModuleOf(GenProgram(ds).items)[f].code;
      exists k :: 0 <= k < |path| - 1 && path[k] < |code| && x in Sets(code[path[k]])
  {
    hide GenFunction, Accepted, GenTops, GenPrototypes, ModuleOf, ProgramOf, EntriesOf, StmtInFragment, StmtResolved,
         BodyContext, IsPath, Uses, LinkedSoFar, Extends;
    var g0 := AfterPrototypes(ds);
    LinkedBefore(ds, |ds|);
    assert ds[..|ds|] == ds;
    DeclaredOnly(FileStart(), ds, GenTops(g0, ds).items);
    LinkedFunction(ProgramOf(ds), ModuleOf(GenProgram(ds).items), EntriesOf(g0, ds), GenProgram(ds).g, f);
    UsesAreDominated(EntriesOf(g0, ds)[f], ProgramOf(ds)[f], path, x);
  }

  lemma LinkedFunction(p: Program, m: Module, e: map<string, Context>, g: Context, f: string)
    requires LinkedSoFar(p, m, e, g) && f in m
    ensures f in p && f in e && Generated(p[f], m[f], e[f], g)
  {
  }
}
