/** The headers of a printed module: `declare`, `define` or variable. */
module Headers {
  import opened Options
  import opened Ast
  import opened Ir
  import opened Codegen
  import opened Definitions
  import opened Programs
  import opened WholeProgram

  /** What the header of an item names. */
  datatype Header = FunctionHeader(name: string) | VariableHeader(slot: Slot)

  function HeaderOf(item: TopItem): Header {
    match item
    case Declared(f, _) => FunctionHeader(f)
    case GlobalDef(s, _) => VariableHeader(s)
    case Defined(f, _) => FunctionHeader(f)
  }

  predicate DistinctHeaders(items: seq<TopItem>) {
    forall i, j :: 0 <= i < j < |items| ==> HeaderOf(items[i]) != HeaderOf(items[j])
  }

  /** No function has a prototype besides its definition, two prototypes or two
      definitions. */
  predicate OneHeaderPerName(ds: seq<TopDecl>) {
    forall i, j :: 0 <= i < j < |ds| && !ds[i].GlobalVar? && !ds[j].GlobalVar? ==> NameOf(ds[i]) != NameOf(ds[j])
  }

  // ----- Counting headers -----

  function Times<T(==)>(s: seq<T>, x: T): nat {
    if s == [] then 0 else Times(s[..|s| - 1], x) + if s[|s| - 1] == x then 1 else 0
  }

  lemma {:induction false} TimesAppend<T>(a: seq<T>, b: seq<T>, x: T)
    ensures Times(a + b, x) == Times(a, x) + Times(b, x)
    decreases b
  {
    if b == [] {
      assert a + b == a;
    } else {
      assert (a + b)[..|a + b| - 1] == a + b[..|b| - 1];
      TimesAppend(a, b[..|b| - 1], x);
    }
  }

  lemma {:induction false} TimesMeans<T>(s: seq<T>, x: T)
    ensures Times(s, x) > 0 <==> exists i :: 0 <= i < |s| && s[i] == x
    ensures Times(s, x) > 1 <==> exists i, j :: 0 <= i < j < |s| && s[i] == x && s[j] == x
    decreases s
  {
    if s != [] {
      var n := |s| - 1;
      TimesMeans(s[..n], x);
      assert forall i :: 0 <= i < n ==> s[..n][i] == s[i];
    }
  }

  function HeadersOf(items: seq<TopItem>): (r: seq<Header>)
    ensures |r| == |items| && forall i :: 0 <= i < |r| ==> r[i] == HeaderOf(items[i])
  {
    if items == [] then [] else HeadersOf(items[..|items| - 1]) + [HeaderOf(items[|items| - 1])]
  }

  /** The name a declaration gives a function. */
  function FunctionNameOf(d: TopDecl): Option<string> { if d.GlobalVar? then None else Some(NameOf(d)) }

  function FunctionNames(ds: seq<TopDecl>): (r: seq<Option<string>>)
    ensures |r| == |ds| && forall i :: 0 <= i < |r| ==> r[i] == FunctionNameOf(ds[i])
  {
    if ds == [] then [] else FunctionNames(ds[..|ds| - 1]) + [FunctionNameOf(ds[|ds| - 1])]
  }

  lemma HeadersAppend(a: seq<TopItem>, b: seq<TopItem>)
    ensures HeadersOf(a + b) == HeadersOf(a) + HeadersOf(b)
  {
  }

  lemma TimesOne<T>(s: seq<T>, x: T)
    requires |s| <= 1
    ensures Times(s, x) == if s != [] && s[0] == x then 1 else 0
  {
  }

  predicate Heads(b: seq<TopItem>, h: Header) { b != [] && HeaderOf(b[0]) == h }

  lemma OneMoreHeader(a: seq<TopItem>, b: seq<TopItem>, h: Header)
    requires |b| <= 1
    ensures Times(HeadersOf(a + b), h) == Times(HeadersOf(a), h) + if Heads(b, h) then 1 else 0
  {
    HeadersAppend(a, b);
    TimesAppend(HeadersOf(a), HeadersOf(b), h);
    TimesOne(HeadersOf(b), h);
  }

  /** A prototype prints its header in the first pass, a definition in the
      second. */
  lemma OneDeclaration(p: Context, g: Context, d: TopDecl, f: string)
    ensures |GenPrototype(p, d).items| <= 1 && |GenTop(g, d).items| <= 1
    ensures Heads(GenPrototype(p, d).items, FunctionHeader(f)) <==> d.Prototype? && d.name == f
    ensures Heads(GenTop(g, d).items, FunctionHeader(f)) <==> d.Function? && d.def.name == f
  {
    hide GenFunction;
  }

  /** Every declaration of a function prints one header. */
  lemma {:induction false} PassesPrintEachOnce(p: Context, g: Context, ds: seq<TopDecl>, f: string)
    ensures
      Times(HeadersOf(GenPrototypes(p, ds).items), FunctionHeader(f))
      + Times(HeadersOf(GenTops(g, ds).items), FunctionHeader(f))
      == Times(FunctionNames(ds), Some(f))
    decreases ds
  {
    hide GenTop, GenPrototype, Times, HeadersOf, Heads, FunctionNames;
    if ds == [] {
      NoHeaders(p, g, ds, f);
    } else {
      var n := |ds| - 1;
      var x, y := GenPrototypes(p, ds[..n]), GenTops(g, ds[..n]);
      PassesPrintEachOnce(p, g, ds[..n], f);
      OneDeclaration(x.g, y.g, ds[n], f);
      OneMoreHeader(x.items, GenPrototype(x.g, ds[n]).items, FunctionHeader(f));
      OneMoreHeader(y.items, GenTop(y.g, ds[n]).items, FunctionHeader(f));
      OneMoreName(ds, f);
    }
  }

  lemma NoHeaders(p: Context, g: Context, ds: seq<TopDecl>, f: string)
    requires ds == []
    ensures Times(HeadersOf(GenPrototypes(p, ds).items), FunctionHeader(f)) == 0
    ensures Times(HeadersOf(GenTops(g, ds).items), FunctionHeader(f)) == 0
    ensures Times(FunctionNames(ds), Some(f)) == 0
  {
  }

  lemma OneMoreName(ds: seq<TopDecl>, f: string)
    requires ds != []
    ensures
      var d := ds[|ds| - 1];
      Times(FunctionNames(ds), Some(f))
      == Times(FunctionNames(ds[..|ds| - 1]), Some(f)) + if !d.GlobalVar? && NameOf(d) == f then 1 else 0
  {
    assert FunctionNames(ds)[..|ds| - 1] == FunctionNames(ds[..|ds| - 1]);
  }

  /** A variable's header defines its slot. */
  lemma {:induction false} VariableHeadersDefine(items: seq<TopItem>, s: Slot)
    ensures Times(HeadersOf(items), VariableHeader(s)) <= Total(items, SlotItem(s))
    decreases items
  {
    hide Count;
    if items != [] {
      VariableHeadersDefine(items[..|items| - 1], s);
      assert HeadersOf(items)[..|items| - 1] == HeadersOf(items[..|items| - 1]);
    }
  }

  lemma DistinctMeansOnce(items: seq<TopItem>)
    ensures DistinctHeaders(items) <==> forall h: Header :: Times(HeadersOf(items), h) <= 1
  {
    hide Times, HeadersOf;
    var hs := HeadersOf(items);
    if !DistinctHeaders(items) {
      var i, j :| 0 <= i < j < |items| && HeaderOf(items[i]) == HeaderOf(items[j]);
      var h := HeaderOf(items[i]);
      assert hs[i] == h && hs[j] == h;
      TimesMeans(hs, h);
      assert Times(hs, h) > 1;
    } else {
      forall h: Header
        ensures Times(hs, h) <= 1
      {
        TimesMeans(hs, h);
      }
    }
  }

  lemma OneHeaderMeansOnce(ds: seq<TopDecl>)
    ensures OneHeaderPerName(ds) <==> forall f :: Times(FunctionNames(ds), Some(f)) <= 1
  {
    hide Times, FunctionNames;
    var fs := FunctionNames(ds);
    if !OneHeaderPerName(ds) {
      var i, j :| 0 <= i < j < |ds| && !ds[i].GlobalVar? && !ds[j].GlobalVar? && NameOf(ds[i]) == NameOf(ds[j]);
      var f := NameOf(ds[i]);
      assert fs[i] == Some(f) && fs[j] == Some(f);
      TimesMeans(fs, Some(f));
      assert Times(fs, Some(f)) > 1;
    } else {
      forall f
        ensures Times(fs, Some(f)) <= 1
      {
        TimesMeans(fs, Some(f));
      }
    }
  }

  lemma HeadersOfProgram(ds: seq<TopDecl>, h: Header)
    requires AllBodied(ds)
    ensures h.FunctionHeader? ==>
              Times(HeadersOf(GenProgram(ds).items), h) == Times(FunctionNames(ds), Some(h.name))
    ensures h.VariableHeader? ==> Times(HeadersOf(GenProgram(ds).items), h) <= 1
  {
    hide GenTops, GenPrototypes, Times;
    match h
    case FunctionHeader(f) =>
      var p := GenPrototypes(FileStart(), ds);
      PassesPrintEachOnce(FileStart(), p.g, ds, f);
      HeadersAppend(p.items, GenTops(p.g, ds).items);
      TimesAppend(HeadersOf(p.items), HeadersOf(GenTops(p.g, ds).items), h);
    case VariableHeader(s) =>
      VariableHeadersDefine(GenProgram(ds).items, s);
      CompilationDefinesOnce(ds, SlotItem(s));
  }

  /** No file-scope name has two headers exactly when no function is declared
      twice; a function that is called before its definition has to be. */
  lemma HeadersDistinctExactly(ds: seq<TopDecl>)
    requires AllBodied(ds)
    ensures DistinctHeaders(GenProgram(ds).items) <==> OneHeaderPerName(ds)
  {
    hide GenProgram, Times, HeadersOf, FunctionNames, DistinctHeaders, OneHeaderPerName;
    var items := GenProgram(ds).items;
    DistinctMeansOnce(items);
    OneHeaderMeansOnce(ds);
    forall h: Header
      ensures h.FunctionHeader? ==> Times(HeadersOf(items), h) == Times(FunctionNames(ds), Some(h.name))
      ensures h.VariableHeader? ==> Times(HeadersOf(items), h) <= 1
    {
      HeadersOfProgram(ds, h);
    }
    if f :| Times(FunctionNames(ds), Some(f)) > 1 {
      assert Times(HeadersOf(items), FunctionHeader(f)) > 1;
    }
  }
}
