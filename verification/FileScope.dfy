/** What stands at file scope of a printed module: its variables are the
    generator's variables and no others, and every function the checker knows has
    a header. */
module FileScope {
  import opened Options
  import opened Ast
  import opened Scopes
  import opened Ir
  import opened Codegen
  import opened Functions
  import opened Programs
  import opened Checker
  import opened Agreement
  import opened WholeProgram
  import opened Names
  import opened NameShapes
  import opened PrintedNames
  import opened References

  function SlotText(s: Slot): string { PrintLocal(SlotName(s)) }

  /** The variables of a module, as they are printed. */
  function VariableTexts(items: seq<TopItem>): set<string> {
    set item | item in items && item.GlobalDef? :: SlotText(item.slot)
  }

  /** The functions of a module with their numbers of parameters. */
  function Callees(items: seq<TopItem>): set<(string, nat)> {
    (set item | item in items && item.Declared? :: (item.name, item.arity))
    + (set item | item in items && item.Defined? :: (item.name, |item.routine.params|))
  }

  // ----- Items -----

  lemma {:induction false} PrototypePrinted(g: Context, ds: seq<TopDecl>, k: nat)
    requires k < |ds| && ds[k].Prototype?
    ensures Declared(ds[k].name, |ds[k].params|) in GenPrototypes(g, ds).items
    decreases ds
  {
    if k < |ds| - 1 {
      PrototypePrinted(g, ds[..|ds| - 1], k);
    }
  }

  lemma {:induction false} OnlyDeclared(g: Context, ds: seq<TopDecl>, item: TopItem)
    requires item in GenPrototypes(g, ds).items
    ensures item.Declared?
    decreases ds
  {
    if ds != [] && item in GenPrototypes(g, ds[..|ds| - 1]).items {
      OnlyDeclared(g, ds[..|ds| - 1], item);
    }
  }

  /** What a declaration prints stays. */
  lemma {:induction false} TopPrinted(ds: seq<TopDecl>, k: nat, n: nat, item: TopItem)
    requires k < n <= |ds| && item in GenTop(StateBefore(ds, k), ds[k]).items
    ensures item in GenTops(AfterPrototypes(ds), ds[..n]).items
    decreases n
  {
    hide GenTop, GenTops, AfterPrototypes, StateBefore;
    OneMore(ds, n - 1);
    if k < n - 1 {
      TopPrinted(ds, k, n - 1, item);
    }
  }

  lemma ItemPrinted(ds: seq<TopDecl>, k: nat, item: TopItem)
    requires k < |ds| && item in GenTop(StateBefore(ds, k), ds[k]).items
    ensures item in GenProgram(ds).items
  {
    hide GenTop, GenTops, GenPrototypes;
    TopPrinted(ds, k, |ds|, item);
    assert ds[..|ds|] == ds;
  }

  // ----- Variables -----

  function SymbolText(sym: Symbol): string { SlotText(SlotOf(sym)) }

  /** The names are those of the variables in a table at file scope, and short. */
  ghost predicate Listed(t: Scopes<Symbol>, names: set<string>) {
    && t.Base?
    && (forall x :: x in t.vars ==> OfIdentifiers(t.vars[x].llvm))
    && (forall x :: x in t.vars && t.vars[x].kind == VariableSymbol ==>
          ShortName(t.vars[x].llvm) && SymbolText(t.vars[x]) in names)
    && (forall n :: n in names ==> HasText(t, n))
  }

  ghost predicate HasText(t: Scopes<Symbol>, n: string) {
    exists x :: x in t.vars && t.vars[x].kind == VariableSymbol && SymbolText(t.vars[x]) == n
  }

  predicate CurrentOk(t: Table) { t.fn.Some? ==> IsIdentifier(t.fn.value) }

  lemma StillHasText(t: Scopes<Symbol>, x: string, sym: Symbol, n: string)
    requires t.Base? && HasText(t, n) && x !in t.vars
    ensures HasText(Bind(t, x, sym), n)
  {
    var y :| y in t.vars && t.vars[y].kind == VariableSymbol && SymbolText(t.vars[y]) == n;
    assert Bind(t, x, sym).vars[y] == t.vars[y];
  }

  lemma FunctionListed(t: Table, names: set<string>, f: string)
    requires Listed(t.scopes, names) && CurrentOk(t) && IsIdentifier(f)
    ensures Listed(AddSymbol(t, f, FunctionSymbol, false).scopes, names)
  {
    hide HasText, SlotText, ShortName, IsIdentifier;
    if f !in t.scopes.vars {
      forall n | n in names
        ensures HasText(AddSymbol(t, f, FunctionSymbol, false).scopes, n)
      {
        StillHasText(t.scopes, f, NewSymbol(t, f, FunctionSymbol, false), n);
      }
    }
  }

  lemma VariableListed(t: Table, names: set<string>, x: string)
    requires Listed(t.scopes, names) && x !in t.scopes.vars && ShortName(UniqueNameFor(t, x))
    ensures
      var sym := NewSymbol(t, x, VariableSymbol, false);
      Listed(AddSymbol(t, x, VariableSymbol, false).scopes, names + {SymbolText(sym)})
  {
    hide SlotText;
    var sym := NewSymbol(t, x, VariableSymbol, false);
    var t' := AddSymbol(t, x, VariableSymbol, false).scopes;
    assert t'.vars[x] == sym;
    forall n | n in names + {SymbolText(sym)}
      ensures HasText(t', n)
    {
      if n in names {
        StillHasText(t.scopes, x, sym, n);
      }
    }
  }

  lemma {:induction false} PrototypesListed(ds: seq<TopDecl>)
    requires forall i :: 0 <= i < |ds| && ds[i].Prototype? ==> IsIdentifier(ds[i].name)
    ensures Listed(GenPrototypes(FileStart(), ds).g.table.scopes, {})
    decreases ds
  {
    hide IsIdentifier;
    if ds != [] {
      var front := ds[..|ds| - 1];
      PrototypesListed(front);
      PrototypesOutside(FileStart(), front);
      if ds[|ds| - 1].Prototype? {
        FunctionListed(GenPrototypes(FileStart(), front).g.table, {}, ds[|ds| - 1].name);
      }
    }
  }

  lemma PrototypeNamed(ds: seq<TopDecl>, i: nat)
    requires GoodNames(ds) && i < |ds|
    ensures ds[i].Prototype? ==> IsIdentifier(ds[i].name)
    ensures ds[i].Function? ==> IsIdentifier(ds[i].def.name)
  {
    hide LocalsFit, ParamsFit;
    assert NamesFit(ds, ds[i]);
  }

  lemma StartListed(ds: seq<TopDecl>)
    requires GoodNames(ds)
    ensures Listed(StateBefore(ds, 0).table.scopes, {})
  {
    hide GoodNames, Listed, GenPrototypes;
    forall i | 0 <= i < |ds| && ds[i].Prototype?
      ensures IsIdentifier(ds[i].name)
    {
      PrototypeNamed(ds, i);
    }
    PrototypesListed(ds);
    assert ds[..0] == [];
  }

  lemma CurrentNamed(ds: seq<TopDecl>, i: nat)
    requires AllBodied(ds) && GoodNames(ds) && i <= |ds|
    ensures CurrentOk(StateBefore(ds, i).table)
  {
    hide GoodNames, StateBefore, IsIdentifier;
    FunctionBefore(ds, i);
    var fn := StateBefore(ds, i).table.fn;
    if fn.Some? {
      var k :| 0 <= k < i && ds[k].Function? && ds[k].def.name == fn.value;
      PrototypeNamed(ds, k);
    }
  }

  lemma TextsAppend(a: seq<TopItem>, b: seq<TopItem>)
    ensures VariableTexts(a + b) == VariableTexts(a) + VariableTexts(b)
  {
    hide SlotText;
    forall n
      ensures n in VariableTexts(a + b) <==> n in VariableTexts(a) + VariableTexts(b)
    {
      if n in VariableTexts(a) {
        var item :| item in a && item.GlobalDef? && SlotText(item.slot) == n;
        assert item in a + b;
      }
      if n in VariableTexts(b) {
        var item :| item in b && item.GlobalDef? && SlotText(item.slot) == n;
        assert item in a + b;
      }
    }
  }

  lemma TextsOfOne(item: TopItem)
    ensures VariableTexts([item]) == if item.GlobalDef? then {SlotText(item.slot)} else {}
    ensures VariableTexts([]) == {}
  {
    hide SlotText;
    if item.GlobalDef? {
      assert item in [item];
      assert SlotText(item.slot) in VariableTexts([item]);
    }
  }

  lemma {:induction false} ListedBefore(ds: seq<TopDecl>, i: nat)
    requires AllBodied(ds) && GoodNames(ds) && i <= |ds|
    ensures
      Listed(StateBefore(ds, i).table.scopes, VariableTexts(GenTops(AfterPrototypes(ds), ds[..i]).items))
    decreases i
  {
    hide StateBefore, GoodNames, GenTop, GenTops, AfterPrototypes, Listed, VariableTexts;
    if i == 0 {
      StartListed(ds);
      NothingYet(ds);
    } else {
      ListedBefore(ds, i - 1);
      OneMore(ds, i - 1);
      TextsAppend(GenTops(AfterPrototypes(ds), ds[..i - 1]).items, GenTop(StateBefore(ds, i - 1), ds[i - 1]).items);
      TopListed(ds, i - 1, VariableTexts(GenTops(AfterPrototypes(ds), ds[..i - 1]).items));
    }
  }

  lemma NothingYet(ds: seq<TopDecl>)
    ensures VariableTexts(GenTops(AfterPrototypes(ds), ds[..0]).items) == {}
  {
    hide GenPrototypes;
    assert ds[..0] == [];
    TextsOfOne(Declared("", 0));
  }

  lemma TopListed(ds: seq<TopDecl>, i: nat, names: set<string>)
    requires AllBodied(ds) && GoodNames(ds) && i < |ds|
    requires Listed(StateBefore(ds, i).table.scopes, names)
    ensures
      var x := GenTop(StateBefore(ds, i), ds[i]);
      Listed(x.g.table.scopes, names + VariableTexts(x.items))
  {
    hide GoodNames, GenFunction, Listed, VariableTexts, StateBefore, AtFileLevel, IsIdentifier, CurrentOk, ShortName,
         PrintedInitial, SlotText;
    var g := StateBefore(ds, i);
    StateOk(ds, i);
    CurrentNamed(ds, i);
    PrototypeNamed(ds, i);
    TextsOfOne(if GenTop(g, ds[i]).items == [] then Declared("", 0) else GenTop(g, ds[i]).items[0]);
    match ds[i]
    case GlobalVar(x, _) =>
      GlobalNameGood(ds, i);
      assert names + {} == names;
      if GenTop(g, ds[i]).items != [] {
        VariableListed(g.table, names, x);
      }
    case Function(def) =>
      LevelBase(g);
      FunctionRestores(g, def);
      FunctionListed(g.table, names, def.name);
      assert names + {} == names;
    case Prototype(_, _) =>
      assert names + {} == names;
  }

  lemma LevelBase(g: Context)
    requires AtFileLevel(g)
    ensures g.table.scopes.Base?
  {
  }

  lemma FinalListed(ds: seq<TopDecl>)
    requires AllBodied(ds) && GoodNames(ds)
    ensures Listed(GenProgram(ds).g.table.scopes, VariableTexts(GenProgram(ds).items))
  {
    hide GoodNames, Listed, GenTops, VariableTexts, GenPrototypes;
    ListedBefore(ds, |ds|);
    assert ds[..|ds|] == ds;
    var ps := GenPrototypes(FileStart(), ds).items;
    TextsAppend(ps, GenTops(AfterPrototypes(ds), ds).items);
    NoTexts(ds);
    assert {} + VariableTexts(GenTops(AfterPrototypes(ds), ds).items)
        == VariableTexts(GenTops(AfterPrototypes(ds), ds).items);
  }

  lemma NoTexts(ds: seq<TopDecl>)
    ensures VariableTexts(GenPrototypes(FileStart(), ds).items) == {}
  {
    hide GenPrototypes;
    forall item | item in GenPrototypes(FileStart(), ds).items
      ensures !item.GlobalDef?
    {
      OnlyDeclared(FileStart(), ds, item);
    }
  }

  /** At file scope the variables' names are in the module, and a function's is
      no variable's there: two names of 255 bytes may be the same, but a
      variable's is shorter. */
  lemma FinalFits(ds: seq<TopDecl>, x: string)
    requires AllBodied(ds) && GoodNames(ds) && x in GenProgram(ds).g.table.scopes.vars
    ensures SymbolFits(GenProgram(ds).g.table.scopes.vars[x], VariableTexts(GenProgram(ds).items))
  {
    hide GoodNames, GenProgram, VariableTexts, PrintUnique, OfIdentifiers, Truncated;
    StateOk(ds, 0);
    FinalListed(ds);
    var vars := GenProgram(ds).g.table.scopes.vars;
    var sym := vars[x];
    if sym.kind == FunctionSymbol && SymbolText(sym) in VariableTexts(GenProgram(ds).items) {
      assert HasText(GenProgram(ds).g.table.scopes, SymbolText(sym));
      var y :| y in vars && vars[y].kind == VariableSymbol && SymbolText(vars[y]) == SymbolText(sym);
      assert vars[y].llvm != sym.llvm;
      CutNamesClash(sym.llvm, vars[y].llvm);
      assert false;
    }
  }

  lemma EntryFits(ds: seq<TopDecl>, k: nat)
    requires AllBodied(ds) && GoodNames(ds) && k < |ds| && ds[k].Function?
    ensures
      SymbolsFit(FunctionEntry(StateBefore(ds, k), ds[k].def).table.scopes, VariableTexts(GenProgram(ds).items))
  {
    hide GoodNames, GenProgram, VariableTexts, GenFunction, StateBefore, SymbolFits;
    var g, def := StateBefore(ds, k), ds[k].def;
    var names := VariableTexts(GenProgram(ds).items);
    StateOk(ds, k);
    StateOk(ds, k + 1);
    OneMore(ds, k);
    assert Bodied(ds[k]);
    FunctionRestores(g, def);
    var t := FunctionEntry(g, def).table.scopes;
    assert t.outer == StateBefore(ds, k + 1).table.scopes;
    forall x | Find(t, x).Some?
      ensures SymbolFits(Find(t, x).value, names)
    {
      assert Find(t, x) == Find(t.outer, x);
      FinalFits(ds, x);
    }
  }

  // ----- Functions -----

  lemma DeclaredCallee(ds: seq<TopDecl>, k: nat)
    requires k < |ds| && !ds[k].GlobalVar?
    ensures (NameOf(ds[k]), ArityOf(ds[k])) in Callees(GenProgram(ds).items)
  {
    hide GenTops, GenPrototypes, GenFunction, StateBefore;
    match ds[k]
    case Prototype(f, params) =>
      PrototypePrinted(FileStart(), ds, k);
      assert Declared(f, |params|) in GenProgram(ds).items;
    case Function(def) =>
      var item := Defined(def.name, Routine(def.params, GenFunction(StateBefore(ds, k), def).code));
      ItemPrinted(ds, k, item);
    case GlobalVar(_, _) =>
  }

  lemma AddFunctions(t: Scopes<Sig>, f: string, arity: nat, fns: set<(string, nat)>)
    requires FunctionsIn(t, fns) && (f, arity) in fns
    ensures FunctionsIn(AddFunction(t, f, arity), fns)
  {
    BindFunctions(t, f, FunctionSig(arity), fns);
  }

  lemma {:induction false} ParamFunctions(t: Scopes<Sig>, params: seq<Option<string>>, fns: set<(string, nat)>)
    requires FunctionsIn(t, fns)
    ensures FunctionsIn(CheckParams(t, params).scopes, fns)
    decreases params
  {
    hide FunctionsIn;
    if params != [] {
      if params[0].Some? {
        BindFunctions(t, params[0].value, VariableSig, fns);
        ParamFunctions(CheckDecl(t, params[0].value, None).scopes, params[1..], fns);
      } else {
        ParamFunctions(t, params[1..], fns);
      }
    }
  }

  lemma TopFunctions(ds: seq<TopDecl>, t: Scopes<Sig>, d: TopDecl, fns: set<(string, nat)>)
    requires t.Base? && FunctionsIn(t, fns) && TopInFragment(ds, d)
    requires !d.GlobalVar? ==> (NameOf(d), ArityOf(d)) in fns
    ensures FunctionsIn(CheckTop(t, d).scopes, fns)
  {
    hide FunctionsIn, CheckStmt, StmtInFragment, NoBareDecl, IsFunctionName;
    match d
    case GlobalVar(x, _) => BindFunctions(t, x, VariableSig, fns);
    case Function(def) =>
      CheckFunctionRestores(t, d);
      AddFunctions(t, def.name, |def.params|, fns);
    case Prototype(f, params) =>
      CheckParamsRestore(Push(AddFunction(t, f, |params|)), params);
      AddFunctions(t, f, |params|, fns);
  }

  /** Every function the checker knows has a header in the module. */
  lemma {:induction false} SigsListed(ds: seq<TopDecl>, i: nat)
    requires ProgramInFragment(ds) && i <= |ds|
    ensures FunctionsIn(SigsBefore(ds, i), Callees(GenProgram(ds).items))
    decreases i
  {
    hide GenProgram, Callees, CheckTop, FunctionsIn, TopInFragment, SigsBefore, Covered;
    if i == 0 {
      NoSigs(ds, Callees(GenProgram(ds).items));
    } else {
      SigsListed(ds, i - 1);
      OneMore(ds, i - 1);
      CoveredBefore(ds, i - 1);
      CoveredLevel(ds, SigsBefore(ds, i - 1), StateBefore(ds, i - 1));
      if !ds[i - 1].GlobalVar? {
        DeclaredCallee(ds, i - 1);
      }
      assert TopInFragment(ds, ds[i - 1]);
      TopFunctions(ds, SigsBefore(ds, i - 1), ds[i - 1], Callees(GenProgram(ds).items));
    }
  }

  lemma NoSigs(ds: seq<TopDecl>, fns: set<(string, nat)>)
    ensures FunctionsIn(SigsBefore(ds, 0), fns)
  {
    assert ds[..0] == [];
  }

  /** The functions that an accepted function calls have headers with as many
      parameters. */
  lemma BodyCalls(ds: seq<TopDecl>, k: nat)
    requires ProgramInFragment(ds) && CheckTypes(ds).errors == 0 && k < |ds| && ds[k].Function?
    ensures StmtCallsIn(ds[k].def.body, Callees(GenProgram(ds).items))
  {
    hide GenProgram, Callees, FunctionsIn, SigsBefore, Covered, CheckStmt, CheckTypes, StmtInFragment, StmtCallsIn,
         IsFunctionName;
    var fns, def, t := Callees(GenProgram(ds).items), ds[k].def, SigsBefore(ds, k);
    SigsListed(ds, k);
    DeclaredCallee(ds, k);
    PartsAccepted(ds, k);
    var t1 := AddFunction(t, def.name, |def.params|);
    AddFunctions(t, def.name, |def.params|, fns);
    PushFunctions(t1, fns);
    ParamFunctions(Push(t1), AllNamed(def.params), fns);
    assert TopInFragment(ds, ds[k]);
    CheckedStmtCalls(CheckParams(Push(t1), AllNamed(def.params)).scopes, def.body, fns);
  }
}
