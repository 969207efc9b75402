/** Over a whole compilation no two definitions print the same name. */
module PrintedNames {
  import opened Options
  import opened Ast
  import opened Ir
  import opened Codegen
  import opened Definitions
  import opened Functions
  import opened Programs
  import opened WholeProgram
  import opened Headers
  import opened Names
  import opened NameShapes

  // ----- Which programs -----

  /** Identifiers, and names short enough to fit the buffer together with those
      of the functions that may stand in front of them. */
  predicate NamesFit(ds: seq<TopDecl>, d: TopDecl) {
    match d
    case Function(def) => FunctionFits(def)
    case GlobalVar(x, _) => Fits("", x) && forall k :: 0 <= k < |ds| && ds[k].Function? ==> Fits(ds[k].def.name, x)
    case Prototype(f, _) => IsIdentifier(f)
  }

  /** The same for all of a program, whose symbols an int counts. */
  predicate GoodNames(ds: seq<TopDecl>) {
    && (forall i :: 0 <= i < |ds| ==> NamesFit(ds, ds[i]))
    && GenProgram(ds).g.table.uid <= INT_MAX
  }

  // ----- Where items come from -----

  lemma {:induction false} PrototypeSource(g: Context, ds: seq<TopDecl>, i: nat) returns (k: nat)
    requires i < |GenPrototypes(g, ds).items|
    ensures k < |ds| && ds[k].Prototype? && GenPrototypes(g, ds).items[i] == Declared(ds[k].name, |ds[k].params|)
    decreases ds
  {
    var n := |ds| - 1;
    var x := GenPrototypes(g, ds[..n]);
    if i < |x.items| {
      k := PrototypeSource(g, ds[..n], i);
    } else {
      k := n;
    }
  }

  lemma {:induction false} TopSource(ds: seq<TopDecl>, n: nat, i: nat) returns (k: nat)
    requires n <= |ds| && i < |GenTops(AfterPrototypes(ds), ds[..n]).items|
    ensures k < n && GenTop(StateBefore(ds, k), ds[k]).items == [GenTops(AfterPrototypes(ds), ds[..n]).items[i]]
    decreases n
  {
    hide GenTop, AfterPrototypes;
    assert n > 0 by {
      assert ds[..0] == [];
    }
    OneMore(ds, n - 1);
    OneDeclaration(StateBefore(ds, n - 1), StateBefore(ds, n - 1), ds[n - 1], "");
    if i < |GenTops(AfterPrototypes(ds), ds[..n - 1]).items| {
      k := TopSource(ds, n - 1, i);
    } else {
      k := n - 1;
    }
  }

  /** An item is a prototype's `declare` or what a declaration printed. */
  lemma ItemSource(ds: seq<TopDecl>, i: nat) returns (k: nat)
    requires i < |GenProgram(ds).items|
    ensures k < |ds|
    ensures
      var item := GenProgram(ds).items[i];
      || (ds[k].Prototype? && item == Declared(ds[k].name, |ds[k].params|))
      || GenTop(StateBefore(ds, k), ds[k]).items == [item]
  {
    hide GenTop, GenTops, GenPrototypes;
    var p := GenPrototypes(FileStart(), ds);
    if i < |p.items| {
      k := PrototypeSource(FileStart(), ds, i);
    } else {
      assert ds[..|ds|] == ds;
      k := TopSource(ds, |ds|, i - |p.items|);
    }
  }

  /** The function that a file-scope name carries was defined before. */
  lemma {:induction false} FunctionBefore(ds: seq<TopDecl>, i: nat)
    requires AllBodied(ds) && i <= |ds|
    ensures
      var fn := StateBefore(ds, i).table.fn;
      fn.Some? ==> exists k :: 0 <= k < i && ds[k].Function? && ds[k].def.name == fn.value
    decreases i
  {
    hide GenFunction, AtFileLevel, StateBefore;
    if i == 0 {
      NoFunctionYet(ds);
    } else {
      FunctionBefore(ds, i - 1);
      OneMore(ds, i - 1);
      StateOk(ds, i - 1);
      FunctionAfter(StateBefore(ds, i - 1), ds[i - 1]);
      if ds[i - 1].Function? {
        assert ds[i - 1].def.name == StateBefore(ds, i).table.fn.value;
      }
    }
  }

  lemma FunctionAfter(g: Context, d: TopDecl)
    requires AtFileLevel(g) && Bodied(d)
    ensures GenTop(g, d).g.table.fn == if d.Function? then Some(d.def.name) else g.table.fn
  {
    hide GenFunction;
    if d.Function? {
      FunctionRestores(g, d.def);
    }
  }

  lemma {:induction false} PrototypesOutside(g: Context, ds: seq<TopDecl>)
    ensures GenPrototypes(g, ds).g.table.fn == g.table.fn
    decreases ds
  {
    if ds != [] {
      PrototypesOutside(g, ds[..|ds| - 1]);
    }
  }

  lemma NoFunctionYet(ds: seq<TopDecl>)
    ensures StateBefore(ds, 0).table.fn == None
  {
    PrototypesOutside(FileStart(), ds);
    assert ds[..0] == [];
  }

  // ----- Every name is good -----

  function DefinedName(i: Instr): Option<LocalName> {
    match Defines(i)
    case Some(LabelItem(l)) => Some(LabelName(l))
    case Some(TempItem(t)) => if t < 0 then None else Some(TempName(t))
    case Some(SlotItem(s)) => Some(SlotName(s))
    case None => None
  }

  lemma ItemGood(g: Context, g': Context, f: FunDef, x: Item, i: Instr)
    requires Defines(i) == Some(x) && ItemFits(x, f.name) && IsIdentifier(f.name)
    requires Fresh(x, g.c, g.table.uid, g'.c, g'.table.uid) && g'.table.uid <= INT_MAX
    ensures DefinedName(i).Some? && GoodLocal(DefinedName(i).value)
  {
    hide IsLabelPrefix, GoodName, IsIdentifier, Fits;
    match x {
      case SlotItem(Local(u)) => ShortNameGood(u);
      case SlotItem(ParamAddr(u)) => ShortNameGood(u);
      case _ =>
    }
  }

  /** What a line of a compiled function defines is a name with the shape that
      keeps names apart. */
  lemma LineGood(ds: seq<TopDecl>, i: nat, a: nat)
    requires AllBodied(ds) && GoodNames(ds)
    requires i < |GenProgram(ds).items| && GenProgram(ds).items[i].Defined?
    requires a < |GenProgram(ds).items[i].routine.code|
    ensures
      var line := GenProgram(ds).items[i].routine.code[a];
      Defines(line).Some? ==> DefinedName(line).Some? && GoodLocal(DefinedName(line).value)
  {
    hide GenProgram, GenFunction, StateBefore, FunctionFits, ItemFits, Fresh, DefinedName, GoodLocal;
    var k := ItemSource(ds, i);
    var g, f := StateBefore(ds, k), ds[k].def;
    var line := GenProgram(ds).items[i].routine.code[a];
    assert NamesFit(ds, ds[k]) && Bodied(ds[k]);
    StateOk(ds, k);
    StateOk(ds, k + 1);
    OneMore(ds, k);
    if Defines(line).Some? {
      var x := Defines(line).value;
      CountPositive(GenFunction(g, f).code, a, x);
      FunctionNamed(g, f, x);
      FunctionDefinesOnce(g, f, x);
      NameOfFunctionFits(f);
      ItemGood(g, GenFunction(g, f).g, f, x, line);
    }
  }

  lemma NameOfFunctionFits(f: FunDef)
    requires FunctionFits(f)
    ensures IsIdentifier(f.name)
  {
  }

  // ----- No two lines define the same printed name -----

  lemma {:induction false} TotalOfOne(items: seq<TopItem>, i: nat, x: Item)
    requires i < |items|
    ensures Total(items, x) >= DefinedIn(items[i], x)
    decreases items
  {
    if i < |items| - 1 {
      TotalOfOne(items[..|items| - 1], i, x);
    }
  }

  lemma {:induction false} TotalOfTwo(items: seq<TopItem>, i: nat, j: nat, x: Item)
    requires i < j < |items|
    ensures Total(items, x) >= DefinedIn(items[i], x) + DefinedIn(items[j], x)
    decreases items
  {
    if j < |items| - 1 {
      TotalOfTwo(items[..|items| - 1], i, j, x);
    } else {
      TotalOfOne(items[..|items| - 1], i, x);
    }
  }

  /** Line a of item i, if it is a line of a function that defines a name. */
  function NameAt(items: seq<TopItem>, i: nat, a: nat): Option<LocalName> {
    if i < |items| && items[i].Defined? && a < |items[i].routine.code| then DefinedName(items[i].routine.code[a])
    else None
  }

  lemma SameItem(i: Instr, j: Instr)
    requires DefinedName(i).Some? && DefinedName(i) == DefinedName(j)
    ensures Defines(i).Some? && Defines(i) == Defines(j)
  {
  }

  lemma PlaceOnce(items: seq<TopItem>, i: nat, a: nat, j: nat, b: nat)
    requires NameAt(items, i, a).Some? && NameAt(items, i, a) == NameAt(items, j, b) && (i, a) != (j, b)
    ensures exists x :: Total(items, x) > 1
  {
    hide DefinedName, Count;
    var c, d := items[i].routine.code, items[j].routine.code;
    SameItem(c[a], d[b]);
    var x := Defines(c[a]).value;
    CountPositive(c, a, x);
    CountPositive(d, b, x);
    if i != j {
      TotalOfTwo(items, if i < j then i else j, if i < j then j else i, x);
    } else {
      TwoDefinitions(c, if a < b then a else b, if a < b then b else a, x);
      TotalOfOne(items, i, x);
    }
    assert Total(items, x) > 1;
  }

  /** No two lines of the compiled program define the same printed temporary,
      label or slot, in whatever functions they are. */
  lemma CompilationNamesDistinct(ds: seq<TopDecl>, i: nat, a: nat, j: nat, b: nat)
    requires AllBodied(ds) && GoodNames(ds) && (i, a) != (j, b)
    requires NameAt(GenProgram(ds).items, i, a).Some? && NameAt(GenProgram(ds).items, j, b).Some?
    ensures
      PrintLocal(NameAt(GenProgram(ds).items, i, a).value) != PrintLocal(NameAt(GenProgram(ds).items, j, b).value)
  {
    hide GenProgram, PrintLocal, GoodNames, Total, GoodLocal;
    var items := GenProgram(ds).items;
    LineGood(ds, i, a);
    LineGood(ds, j, b);
    LocalsPrintDistinct(NameAt(items, i, a).value, NameAt(items, j, b).value);
    if NameAt(items, i, a) == NameAt(items, j, b) {
      PlaceOnce(items, i, a, j, b);
      var x :| Total(items, x) > 1;
      CompilationDefinesOnce(ds, x);
    }
  }

  // ----- Parameters -----

  function ItemOf(x: LocalName): Item
    requires x.TempName? || x.LabelName?
  {
    if x.TempName? then TempItem(x.t) else LabelItem(x.l)
  }

  lemma {:induction false} CountFinds(code: seq<Instr>, x: Item) returns (a: nat)
    requires Count(code, x) > 0
    ensures a < |code| && Defines(code[a]) == Some(x)
    decreases code
  {
    if Defines(code[0]) == Some(x) {
      a := 0;
    } else {
      a := CountFinds(code[1..], x);
      a := a + 1;
    }
  }

  /** An incoming parameter prints as a name its function defines exactly when it
      looks like a temporary or label and the function defines that one. */
  lemma ParametersClashExactly(ds: seq<TopDecl>, i: nat, p: string)
    requires AllBodied(ds) && GoodNames(ds) && IsIdentifier(p)
    requires i < |GenProgram(ds).items| && GenProgram(ds).items[i].Defined?
    ensures
      var items := GenProgram(ds).items;
      (exists a: nat :: NameAt(items, i, a).Some? && PrintLocal(NameAt(items, i, a).value) == p)
      <==> GeneratedShape(p) && Count(items[i].routine.code, ItemOf(GeneratedName(p))) > 0
  {
    hide GenProgram, PrintLocal, GoodNames, GoodLocal, GeneratedShape, Count, IsIdentifier;
    var items := GenProgram(ds).items;
    var code := items[i].routine.code;
    if a: nat :| NameAt(items, i, a).Some? && PrintLocal(NameAt(items, i, a).value) == p {
      LineGood(ds, i, a);
      ParameterClashes(p, NameAt(items, i, a).value);
      CountPositive(code, a, Defines(code[a]).value);
    }
    if GeneratedShape(p) && Count(code, ItemOf(GeneratedName(p))) > 0 {
      var a := CountFinds(code, ItemOf(GeneratedName(p)));
      assert NameAt(items, i, a) == Some(GeneratedName(p));
    }
  }

  // ----- File scope -----

  /** What stands after `@`. */
  function PrintHeader(h: Header): string {
    match h
    case FunctionHeader(f) => f
    case VariableHeader(s) => PrintLocal(SlotName(s))
  }

  predicate GoodHeader(h: Header) {
    match h
    case FunctionHeader(f) => IsIdentifier(f)
    case VariableHeader(s) => s.Global? && ShortName(s.name)
  }

  lemma HeadersPrintDistinct(h: Header, k: Header)
    requires GoodHeader(h) && GoodHeader(k)
    ensures PrintHeader(h) == PrintHeader(k) <==> h == k
  {
    hide PrintUnique;
    match (h, k) {
      case (VariableHeader(s), VariableHeader(r)) => GlobalsPrintDistinct(s.name, r.name);
      case (VariableHeader(s), FunctionHeader(f)) => VariableHasDot(s);
      case (FunctionHeader(f), VariableHeader(r)) => VariableHasDot(r);
      case _ =>
    }
  }

  lemma VariableHasDot(s: Slot)
    requires s.Global? && ShortName(s.name)
    ensures !DotFree(PrintLocal(SlotName(s)))
  {
    HasDot(s.name);
  }

  lemma HeaderGood(ds: seq<TopDecl>, i: nat)
    requires AllBodied(ds) && GoodNames(ds) && i < |GenProgram(ds).items|
    ensures GoodHeader(HeaderOf(GenProgram(ds).items[i]))
  {
    hide GenProgram, GenFunction, StateBefore, FunctionFits, IsIdentifier, ShortName;
    var k := ItemSource(ds, i);
    var g, d := StateBefore(ds, k), ds[k];
    assert NamesFit(ds, d);
    match d
    case Function(f) => NameOfFunctionFits(f);
    case GlobalVar(_, _) =>
      StateOk(ds, k);
      GlobalNameGood(ds, k);
    case Prototype(_, _) =>
  }

  lemma GlobalNameGood(ds: seq<TopDecl>, k: nat)
    requires AllBodied(ds) && GoodNames(ds) && k < |ds| && ds[k].GlobalVar?
    ensures
      var u := UniqueNameFor(StateBefore(ds, k).table, ds[k].name);
      GenTop(StateBefore(ds, k), ds[k]).items != [] ==> ShortName(u)
  {
    hide GenProgram, StateBefore, FunctionFits, IsIdentifier, ShortName, PrintedInitial;
    var g, d := StateBefore(ds, k), ds[k];
    assert NamesFit(ds, d);
    StateOk(ds, k);
    StateOk(ds, k + 1);
    OneMore(ds, k);
    FunctionBefore(ds, k);
    if GenTop(g, d).items != [] {
      if g.table.fn.Some? {
        var j :| 0 <= j < k && ds[j].Function? && ds[j].def.name == g.table.fn.value;
        assert NamesFit(ds, ds[j]);
        NameOfFunctionFits(ds[j].def);
      }
      FileNameShort(UniqueNameFor(g.table, d.name));
    }
  }

  predicate HeadersDiffer(items: seq<TopItem>) {
    forall i, j :: 0 <= i < j < |items| ==> PrintHeader(HeaderOf(items[i])) != PrintHeader(HeaderOf(items[j]))
  }

  /** The names printed at file scope are pairwise different exactly when no
      function is declared twice. */
  lemma FileNamesPrintDistinct(ds: seq<TopDecl>)
    requires AllBodied(ds) && GoodNames(ds)
    ensures HeadersDiffer(GenProgram(ds).items) <==> OneHeaderPerName(ds)
  {
    hide GenProgram, PrintHeader, HeaderOf, GoodNames, OneHeaderPerName, GoodHeader;
    var items := GenProgram(ds).items;
    forall i, j | 0 <= i < j < |items|
      ensures PrintHeader(HeaderOf(items[i])) == PrintHeader(HeaderOf(items[j]))
              <==> HeaderOf(items[i]) == HeaderOf(items[j])
    {
      HeaderGood(ds, i);
      HeaderGood(ds, j);
      HeadersPrintDistinct(HeaderOf(items[i]), HeaderOf(items[j]));
    }
    HeadersDistinctExactly(ds);
  }
}
