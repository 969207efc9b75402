/** generate_llvm_ir: a whole program, from declarations to a module. */
module Programs {
  import opened Options
  import opened Int32
  import opened Ast
  import opened Scopes
  import opened Ir
  import opened Codegen
  import opened Definitions
  import Functions
  import Relation

  /** What is printed at file scope: `declare`, a global with its initial value,
      `define`. */
  datatype TopItem =
    | Declared(name: string, arity: nat)
    | GlobalDef(slot: Slot, initial: int32)
    | Defined(name: string, routine: Routine)

  datatype ProgramCode = ProgramCode(g: Context, items: seq<TopItem>)

  function FileStart(): Context {
    Context(Table(Base(map[]), 0, 0, None), Counters(0, 0, 0), false, None, None)
  }

  /** A prototype declares its function; the pass over them comes first. */
  function GenPrototype(g: Context, d: TopDecl): ProgramCode {
    if d.Prototype? then
      ProgramCode(
        g.(table := AddSymbol(g.table, d.name, FunctionSymbol, false)), [Declared(d.name, |d.params|)])
    else ProgramCode(g, [])
  }

  function GenPrototypes(g: Context, ds: seq<TopDecl>): ProgramCode
    decreases ds
  {
    if ds == [] then ProgramCode(g, [])
    else
      var x := GenPrototypes(g, ds[..|ds| - 1]);
      var y := GenPrototype(x.g, ds[|ds| - 1]);
      ProgramCode(y.g, x.items + y.items)
  }

  /** The value printed for a global: only a literal is looked at. */
  function PrintedInitial(init: Option<Expr>): int32 {
    if init.Some? && init.value.Number? then init.value.value else 0
  }

  /** A declaration at file scope goes through generate_statement too, so it is
      dropped when the flag is set. */
  function GenGlobal(g: Context, x: string, init: Option<Expr>): ProgramCode {
    if g.inReturnBlock then ProgramCode(g, [])
    else if x in g.table.scopes.vars then ProgramCode(g.(c := AddError(g.c)), [])
    else
      ProgramCode(
        g.(table := AddSymbol(g.table, x, VariableSymbol, false)),
        [GlobalDef(SlotOf(NewSymbol(g.table, x, VariableSymbol, false)), PrintedInitial(init))])
  }

  function GenTop(g: Context, d: TopDecl): ProgramCode {
    match d
    case GlobalVar(x, init) => GenGlobal(g, x, init)
    case Function(def) =>
      var x := GenFunction(g, def);
      ProgramCode(x.g, [Defined(def.name, Routine(def.params, x.code))])
    case Prototype(_, _) => ProgramCode(g, [])
  }

  function GenTops(g: Context, ds: seq<TopDecl>): ProgramCode
    decreases ds
  {
    if ds == [] then ProgramCode(g, [])
    else
      var x := GenTops(g, ds[..|ds| - 1]);
      var y := GenTop(x.g, ds[|ds| - 1]);
      ProgramCode(y.g, x.items + y.items)
  }

  function AfterPrototypes(ds: seq<TopDecl>): Context { GenPrototypes(FileStart(), ds).g }

  function GenProgram(ds: seq<TopDecl>): ProgramCode {
    var p := GenPrototypes(FileStart(), ds);
    var t := GenTops(p.g, ds);
    ProgramCode(t.g, p.items + t.items)
  }

  /** The state in which the generator comes to declaration i. */
  function StateBefore(ds: seq<TopDecl>, i: nat): Context
    requires i <= |ds|
  {
    GenTops(AfterPrototypes(ds), ds[..i]).g
  }

  // ----- What stays true at file scope -----

  /** Nothing is open, and the symbols have numbers handed out so far. */
  ghost predicate AtFileLevel(g: Context) {
    && g.table.scopes.Base? && g.table.level == 0
    && g.breakLabel.None? && g.continueLabel.None?
    && (forall x :: x in g.table.scopes.vars ==>
          && g.table.scopes.vars[x].isGlobal && !g.table.scopes.vars[x].isParameter
          && g.table.scopes.vars[x].llvm.uid <= g.table.uid)
    && Relation.DistinctUids(g.table.scopes.vars)
  }

  /** Symbols are only ever added. */
  ghost predicate Extends(g: Context, g': Context) {
    && (forall x :: x in g.table.scopes.vars ==>
          x in g'.table.scopes.vars && g'.table.scopes.vars[x] == g.table.scopes.vars[x])
    && g.table.uid <= g'.table.uid && Grows(g.c, g'.c)
  }

  predicate Bodied(d: TopDecl) { d.Function? ==> d.def.body.Block? }

  predicate AllBodied(ds: seq<TopDecl>) {
    forall i :: 0 <= i < |ds| ==> Bodied(ds[i])
  }

  lemma AddAtFileLevel(g: Context, x: string, kind: SymbolKind)
    requires AtFileLevel(g)
    ensures
      var g' := g.(table := AddSymbol(g.table, x, kind, false));
      AtFileLevel(g') && Extends(g, g')
  {
  }

  lemma PrototypeKeeps(g: Context, d: TopDecl)
    requires AtFileLevel(g)
    ensures AtFileLevel(GenPrototype(g, d).g) && Extends(g, GenPrototype(g, d).g)
  {
    if d.Prototype? {
      AddAtFileLevel(g, d.name, FunctionSymbol);
    }
  }

  lemma {:induction false} PrototypesKeep(g: Context, ds: seq<TopDecl>)
    requires AtFileLevel(g)
    ensures AtFileLevel(GenPrototypes(g, ds).g) && Extends(g, GenPrototypes(g, ds).g)
    decreases ds
  {
    if ds != [] {
      PrototypesKeep(g, ds[..|ds| - 1]);
      PrototypeKeeps(GenPrototypes(g, ds[..|ds| - 1]).g, ds[|ds| - 1]);
    }
  }

  lemma {:induction false} OnlyFunctions(g: Context, ds: seq<TopDecl>)
    requires forall x :: x in g.table.scopes.vars ==> g.table.scopes.vars[x].kind == FunctionSymbol
    ensures forall x :: x in GenPrototypes(g, ds).g.table.scopes.vars ==>
              GenPrototypes(g, ds).g.table.scopes.vars[x].kind == FunctionSymbol
    decreases ds
  {
    if ds != [] {
      OnlyFunctions(g, ds[..|ds| - 1]);
    }
  }

  lemma TopKeeps(g: Context, d: TopDecl)
    requires AtFileLevel(g) && Bodied(d)
    ensures AtFileLevel(GenTop(g, d).g) && Extends(g, GenTop(g, d).g)
  {
    hide GenFunction;
    match d
    case GlobalVar(x, _) => AddAtFileLevel(g, x, VariableSymbol);
    case Function(def) =>
      AddAtFileLevel(g, def.name, FunctionSymbol);
      Functions.FunctionRestores(g, def);
    case Prototype(_, _) =>
  }

  lemma ExtendsThen(a: Context, b: Context, c: Context)
    requires Extends(a, b) && Extends(b, c)
    ensures Extends(a, c)
  {
  }

  lemma {:induction false} TopsKeep(g: Context, ds: seq<TopDecl>, i: nat)
    requires AtFileLevel(g) && AllBodied(ds) && i <= |ds|
    ensures AtFileLevel(GenTops(g, ds).g) && Extends(g, GenTops(g, ds).g)
    ensures AtFileLevel(GenTops(g, ds[..i]).g) && Extends(GenTops(g, ds[..i]).g, GenTops(g, ds).g)
    decreases ds
  {
    hide GenTop, AtFileLevel, Extends;
    if i == |ds| {
      assert ds[..i] == ds;
    }
    if ds == [] {
      Unchanged(g);
    } else {
      var front := ds[..|ds| - 1];
      var x := GenTops(g, front).g;
      TopsKeep(g, front, if i == |ds| then 0 else i);
      TopKeeps(x, ds[|ds| - 1]);
      Unchanged(GenTops(g, ds).g);
      ExtendsThen(g, x, GenTops(g, ds).g);
      if i < |ds| {
        assert front[..i] == ds[..i];
        ExtendsThen(GenTops(g, ds[..i]).g, x, GenTops(g, ds).g);
      }
    }
  }

  lemma Unchanged(g: Context)
    ensures Extends(g, g)
  {
  }

  lemma StateOk(ds: seq<TopDecl>, i: nat)
    requires AllBodied(ds) && i <= |ds|
    ensures AtFileLevel(StateBefore(ds, i)) && Extends(StateBefore(ds, i), GenProgram(ds).g)
    ensures AtFileLevel(GenProgram(ds).g)
  {
    PrototypesKeep(FileStart(), ds);
    TopsKeep(AfterPrototypes(ds), ds, i);
  }

  // ----- Every name the compilation hands out is new -----

  /** How often an item is defined in everything printed. */
  function DefinedIn(item: TopItem, x: Item): nat {
    match item
    case Declared(_, _) => 0
    case GlobalDef(s, _) => if x == SlotItem(s) then 1 else 0
    case Defined(_, r) => Count(r.code, x)
  }

  function Total(items: seq<TopItem>, x: Item): nat
    decreases items
  {
    if items == [] then 0 else Total(items[..|items| - 1], x) + DefinedIn(items[|items| - 1], x)
  }

  lemma {:induction false} TotalAppend(a: seq<TopItem>, b: seq<TopItem>, x: Item)
    ensures Total(a + b, x) == Total(a, x) + Total(b, x)
    decreases b
  {
    if b == [] {
      assert a + b == a;
    } else {
      assert (a + b)[..|a + b| - 1] == a + b[..|b| - 1];
      TotalAppend(a, b[..|b| - 1], x);
    }
  }

  /** Over a whole compilation every label, every temporary and every slot is
      defined at most once. */
  predicate DefinedOnce(g: Context, y: ProgramCode, x: Item) {
    && Grows(g.c, y.g.c) && g.table.uid <= y.g.table.uid
    && Total(y.items, x) <= 1
    && (Total(y.items, x) > 0 ==> Fresh(x, g.c, g.table.uid, y.g.c, y.g.table.uid))
  }

  lemma TotalOne(item: TopItem, x: Item)
    ensures Total([], x) == 0 && Total([item], x) == DefinedIn(item, x)
  {
    assert [item][..0] == [];
  }

  lemma TopOnce(g: Context, d: TopDecl, x: Item)
    requires AtFileLevel(g) && Bodied(d)
    ensures DefinedOnce(g, GenTop(g, d), x)
  {
    hide GenFunction, Count;
    match d
    case GlobalVar(y, init) =>
      TotalOne(GlobalDef(SlotOf(NewSymbol(g.table, y, VariableSymbol, false)), PrintedInitial(init)), x);
    case Function(def) =>
      Functions.FunctionDefinesOnce(g, def, x);
      var r := Routine(def.params, GenFunction(g, def).code);
      TotalOne(Defined(def.name, r), x);
    case Prototype(_, _) =>
  }

  lemma {:induction false} TopsOnce(g: Context, ds: seq<TopDecl>, x: Item)
    requires AtFileLevel(g) && AllBodied(ds)
    ensures DefinedOnce(g, GenTops(g, ds), x)
    decreases ds
  {
    hide GenTop;
    if ds == [] {
      TotalOne(Declared("", 0), x);
    } else {
      var y := GenTops(g, ds[..|ds| - 1]);
      TopsOnce(g, ds[..|ds| - 1], x);
      TopsKeep(g, ds[..|ds| - 1], 0);
      TopOnce(y.g, ds[|ds| - 1], x);
      TotalAppend(y.items, GenTop(y.g, ds[|ds| - 1]).items, x);
    }
  }

  lemma {:induction false} PrototypesDefineNothing(g: Context, ds: seq<TopDecl>, x: Item)
    ensures Total(GenPrototypes(g, ds).items, x) == 0
    decreases ds
  {
    if ds != [] {
      var front := GenPrototypes(g, ds[..|ds| - 1]);
      PrototypesDefineNothing(g, ds[..|ds| - 1], x);
      var last := ds[|ds| - 1];
      TotalOne(if last.Prototype? then Declared(last.name, |last.params|) else Declared("", 0), x);
      TotalAppend(front.items, GenPrototype(front.g, ds[|ds| - 1]).items, x);
    }
  }

  /** Over a whole compilation no label, temporary or slot is defined twice,
      across functions and globals, shadowing and re-entered levels. */
  lemma CompilationDefinesOnce(ds: seq<TopDecl>, x: Item)
    requires AllBodied(ds)
    ensures Total(GenProgram(ds).items, x) <= 1
  {
    PrototypesKeep(FileStart(), ds);
    PrototypesDefineNothing(FileStart(), ds, x);
    TopsOnce(AfterPrototypes(ds), ds, x);
    TotalAppend(GenPrototypes(FileStart(), ds).items, GenTops(AfterPrototypes(ds), ds).items, x);
  }
}
