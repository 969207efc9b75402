/** A module whose routines were generated from a program's functions, and the
    vocabulary in which runs of the two are compared. */
module Linking {
  import opened Options
  import opened Ast
  import opened Scopes
  import opened Source
  import opened Ir
  import opened Codegen
  import opened Definitions
  import opened Relation

  // ----- Names that resolve -----

  predicate IsVariable(t: Scopes<Symbol>, x: string) {
    Find(t, x).Some? && Find(t, x).value.kind == VariableSymbol
  }

  /** Every name an expression reads or writes is a variable in scope. */
  predicate Resolved(t: Scopes<Symbol>, e: Expr)
    decreases e, 1
  {
    match e
    case Number(_) => true
    case Var(x) => IsVariable(t, x)
    case Binary(_, l, r) => Resolved(t, l) && Resolved(t, r)
    case Assign(x, v) => IsVariable(t, x) && Resolved(t, v)
    case Unary(_, e1) => Resolved(t, e1)
    case Cond(c, a, b) => Resolved(t, c) && Resolved(t, a) && Resolved(t, b)
    case Call(_, args) => ArgsResolved(t, args)
  }

  predicate ArgsResolved(t: Scopes<Symbol>, es: seq<Expr>)
    decreases es, 0
  {
    es == [] || (Resolved(t, es[0]) && ArgsResolved(t, es[1..]))
  }

  predicate OptionResolved(t: Scopes<Symbol>, e: Option<Expr>) {
    e.Some? ==> Resolved(t, e.value)
  }

  /** The same for the statements the generator gets to, with every declared
      name new in its scope. */
  predicate StmtResolved(g: Context, s: Stmt)
    decreases s, 1
  {
    g.inReturnBlock ||
    match s
    case Block(ss) => StmtsResolved(InNewScope(g), ss)
    case Decl(x, init) =>
      x !in g.table.scopes.vars && OptionResolved(AddSymbol(g.table, x, VariableSymbol, false).scopes, init)
    case ExprStmt(e) => Resolved(g.table.scopes, e)
    case If(c, t, f) =>
      var x := GenTest(g.table.scopes, TakeLabels(g, 3).c, c);
      && Resolved(g.table.scopes, c)
      && ScopedResolved(g.(c := x.c), t)
      && (f.Some? ==> ScopedResolved(AfterThen(GenScoped(g.(c := x.c), t)), f.value))
    case While(c, body) =>
      && Resolved(g.table.scopes, c)
      && ScopedResolved(WhileContext(g, GenTest(g.table.scopes, TakeLabels(g, 3).c, c).c), body)
    case DoWhile(body, c) =>
      && ScopedResolved(DoContext(g), body)
      && Resolved(GenScoped(DoContext(g), body).g.table.scopes, c)
    case For(first, c, u, body) =>
      var i := GenStmt(ForContext(g), first);
      var x := GenGuard(i.g.table.scopes, i.g.c, c, ForBody(g), ForEnd(g));
      var g1 := i.g.(c := x.c, inReturnBlock := false);
      && StmtResolved(ForContext(g), first)
      && OptionResolved(i.g.table.scopes, c)
      && StmtResolved(g1, body)
      && OptionResolved(GenStmt(g1, body).g.table.scopes, u)
    case Return(e) => Resolved(g.table.scopes, e)
    case Break => true
    case Continue => true
    case Empty => true
  }

  predicate ScopedResolved(g: Context, s: Stmt)
    decreases s, 2
  {
    StmtResolved(InNewScope(g), s)
  }

  predicate StmtsResolved(g: Context, ss: seq<Stmt>)
    decreases ss, 0
  {
    ss == [] || g.inReturnBlock || (StmtResolved(g, ss[0]) && StmtsResolved(GenStmt(g, ss[0]).g, ss[1..]))
  }

  // ----- Modules -----

  predicate DistinctNames(xs: seq<string>) {
    forall i, j :: 0 <= i < j < |xs| ==> xs[i] != xs[j]
  }

  ghost predicate UniqueLabels(code: seq<Instr>) {
    forall l: Label :: Count(code, LabelItem(l)) <= 1
  }

  /** A program, its module, the final file-scope symbols and the state in
      which the generator came to each function. */
  datatype Link = Link(prog: Program, mod: Module, fs: map<string, Symbol>, entry: map<string, Context>)

  ghost predicate RoutineOk(f: FunDef, r: Routine, g: Context, fs: map<string, Symbol>) {
    && r == Routine(f.params, GenFunction(g, f).code)
    && f.body.Block? && StmtInFragment(f.body, false) && DistinctNames(f.params)
    && g.table.scopes.Base?
    && TableOk(FunctionEntry(g, f).table.scopes)
    && (forall x :: x in FunctionEntry(g, f).table.scopes.outer.vars ==>
          x in fs && fs[x] == FunctionEntry(g, f).table.scopes.outer.vars[x])
    && StmtResolved(BodyContext(g, f), f.body)
  }

  ghost predicate LinkOk(k: Link) {
    && k.mod.Keys == k.prog.Keys == k.entry.Keys
    && GlobalsOk(k.fs)
    && (forall f :: f in k.prog ==> RoutineOk(k.prog[f], k.mod[f], k.entry[f], k.fs))
    && (forall f :: f in k.mod ==> UniqueLabels(k.mod[f].code))
  }

  // ----- Positions in code -----

  ghost predicate CodeAt(code: seq<Instr>, pc: nat, part: seq<Instr>) {
    pc + |part| <= |code| && code[pc..pc + |part|] == part
  }

  lemma CodeAtAppend(code: seq<Instr>, pc: nat, a: seq<Instr>, b: seq<Instr>)
    requires CodeAt(code, pc, a + b)
    ensures CodeAt(code, pc, a) && CodeAt(code, pc + |a|, b)
  {
    var whole := code[pc..pc + |a + b|];
    assert whole == a + b;
    assert code[pc..pc + |a|] == whole[..|a|];
    assert code[pc + |a|..pc + |a| + |b|] == whole[|a|..];
  }

  lemma CodeAtIndex(code: seq<Instr>, pc: nat, part: seq<Instr>, i: nat)
    requires CodeAt(code, pc, part) && i < |part|
    ensures pc + i < |code| && code[pc + i] == part[i]
  {
    assert code[pc..pc + |part|][i] == part[i];
  }

  /** The position right after a label. */
  function After(code: seq<Instr>, l: Label): nat { FindLabel(code, l, 0) + 1 }

  lemma JumpLands(code: seq<Instr>, l: Label, i: nat, fr: Frame, rest: seq<Saved>, mem: map<Slot, MemCell>)
    requires UniqueLabels(code) && i < |code| && code[i] == LabelDef(l)
    ensures After(code, l) == i + 1
    ensures Jump(code, l, fr, rest, mem) == Active(fr.(pc := i + 1), rest, mem)
  {
    LabelFound(code, l, i);
  }

  // ----- Runs -----

  function FaultOf(e: Error): Fault {
    match e
    case Arithmetic => ArithmeticFault
    case Uninitialised => UninitialisedRead
    case BadCall => BadCallFault
    case Unbound => BadControl
  }

  /** A source run that does not get to its end: an error, or no end within the
      fuel. */
  datatype Stop = Error(error: Source.Error) | Endless

  /** What the machine does then. */
  ghost predicate Stopped(m: Module, fuel: nat, s: State, stop: Stop, n: nat) {
    match stop
    case Error(e) => e != Unbound && Steps(m, s, n) == Faulted(FaultOf(e))
    case Endless => n >= fuel && Steps(m, s, n).Active?
  }

  ghost predicate Goes(m: Module, s: State, n: nat, s': State) {
    Steps(m, s, n) == s'
  }

  lemma Then(m: Module, s: State, i: nat, s1: State, j: nat, s2: State)
    requires Goes(m, s, i, s1) && Goes(m, s1, j, s2)
    ensures Goes(m, s, i + j, s2)
  {
    StepsAdd(m, s, i, j);
  }

  lemma ThenStopped(m: Module, fuel: nat, s: State, i: nat, s1: State, stop: Stop, j: nat)
    requires Goes(m, s, i, s1) && Stopped(m, fuel, s1, stop, j)
    ensures Stopped(m, fuel, s, stop, i + j)
  {
    StepsAdd(m, s, i, j);
  }

  lemma OneStep(m: Module, s: State)
    ensures Goes(m, s, 1, Step(m, s))
  {
    assert Steps(m, s, 1) == Steps(m, Step(m, s), 0);
  }
}
