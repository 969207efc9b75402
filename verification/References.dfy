/** Which names at file scope the printed code refers to: the file-scope
    variables exactly when no function's name is used as a variable, and the
    functions that are called. */
module References {
  import opened Options
  import opened Ast
  import opened Scopes
  import opened Ir
  import opened Names
  import opened Codegen
  import opened Linking
  import opened Statements
  import opened Programs
  import opened Agreement
  import opened Checker
  import opened Scoping
  import opened Messages
  import Functions

  /** What a function may refer to outside its own lines: variables and functions
      at file scope, by the names printed for them and a function by its number of
      parameters too, and its incoming parameters. */
  datatype Outside = Outside(vars: set<string>, fns: set<(string, nat)>, params: set<string>)

  /** The slot at file scope that a line loads or stores. */
  function FileSlot(i: Instr): Option<UniqueName> {
    match i
    case Store(_, _, Global(u)) => Some(u)
    case Load(_, _, Global(u)) => Some(u)
    case _ => None
  }

  function OperandParams(o: Operand): set<string> { if o.Incoming? then {o.param} else {} }

  function ArgParams(args: seq<Arg>): set<string> {
    if args == [] then {} else OperandParams(args[0].operand) + ArgParams(args[1..])
  }

  /** The incoming parameters that a line uses. */
  function ParamsOf(i: Instr): set<string> {
    match i
    case Store(_, o, _) => OperandParams(o)
    case Arith(_, _, a, b) => OperandParams(a) + OperandParams(b)
    case Icmp(_, _, a, b) => OperandParams(a) + OperandParams(b)
    case CallI(_, _, args) => ArgParams(args)
    case Ret(o) => OperandParams(o)
    case _ => {}
  }

  predicate LineRefers(i: Instr, o: Outside) {
    && (FileSlot(i).Some? ==> PrintLocal(SlotName(Global(FileSlot(i).value))) in o.vars)
    && (i.CallI? ==> (i.callee, |i.args|) in o.fns)
    && ParamsOf(i) <= o.params
  }

  /** The code refers to nothing else outside. */
  predicate Refers(code: seq<Instr>, o: Outside) {
    forall k :: 0 <= k < |code| ==> LineRefers(code[k], o)
  }

  // ----- Calls in the source -----

  predicate CallsIn(e: Expr, fns: set<(string, nat)>)
    decreases e, 1
  {
    match e
    case Binary(_, l, r) => CallsIn(l, fns) && CallsIn(r, fns)
    case Assign(_, v) => CallsIn(v, fns)
    case Unary(_, e1) => CallsIn(e1, fns)
    case Cond(c, a, b) => CallsIn(c, fns) && CallsIn(a, fns) && CallsIn(b, fns)
    case Call(f, args) => (f, |args|) in fns && ArgsCallIn(args, fns)
    case _ => true
  }

  predicate ArgsCallIn(es: seq<Expr>, fns: set<(string, nat)>)
    decreases es, 0
  {
    es == [] || (CallsIn(es[0], fns) && ArgsCallIn(es[1..], fns))
  }

  predicate OptionCallsIn(e: Option<Expr>, fns: set<(string, nat)>) { e.Some? ==> CallsIn(e.value, fns) }

  predicate StmtCallsIn(s: Stmt, fns: set<(string, nat)>)
    decreases s, 1
  {
    match s
    case Block(ss) => StmtsCallIn(ss, fns)
    case Decl(_, init) => OptionCallsIn(init, fns)
    case ExprStmt(e) => CallsIn(e, fns)
    case If(c, a, b) => CallsIn(c, fns) && StmtCallsIn(a, fns) && (b.Some? ==> StmtCallsIn(b.value, fns))
    case While(c, b) => CallsIn(c, fns) && StmtCallsIn(b, fns)
    case DoWhile(b, c) => StmtCallsIn(b, fns) && CallsIn(c, fns)
    case For(first, c, u, b) =>
      StmtCallsIn(first, fns) && OptionCallsIn(c, fns) && OptionCallsIn(u, fns) && StmtCallsIn(b, fns)
    case Return(e) => CallsIn(e, fns)
    case _ => true
  }

  predicate StmtsCallIn(ss: seq<Stmt>, fns: set<(string, nat)>)
    decreases ss, 0
  {
    ss == [] || (StmtCallsIn(ss[0], fns) && StmtsCallIn(ss[1..], fns))
  }

  /** The checker's functions are among fns. */
  ghost predicate FunctionsIn(t: Scopes<Sig>, fns: set<(string, nat)>) {
    forall x :: Find(t, x).Some? && Find(t, x).value.FunctionSig? ==> (x, Find(t, x).value.arity) in fns
  }

  lemma PushFunctions(t: Scopes<Sig>, fns: set<(string, nat)>)
    requires FunctionsIn(t, fns)
    ensures FunctionsIn(Push(t), fns)
  {
    forall x
      ensures Find(Push(t), x) == Find(t, x)
    {
    }
  }

  lemma BindFunctions(t: Scopes<Sig>, x: string, sig: Sig, fns: set<(string, nat)>)
    requires FunctionsIn(t, fns) && (sig.FunctionSig? ==> (x, sig.arity) in fns)
    ensures FunctionsIn(Bind(t, x, sig), fns)
  {
    forall y
      ensures Find(Bind(t, x, sig), y) == if y == x then Some(sig) else Find(t, y)
    {
    }
  }

  lemma CalleeIn(t: Scopes<Sig>, f: string, arity: nat, fns: set<(string, nat)>)
    requires FunctionsIn(t, fns) && CheckCallee(t, f, arity).errors == 0
    ensures (f, arity) in fns
  {
  }

  lemma {:induction false} CheckedCalls(t: Scopes<Sig>, e: Expr, fns: set<(string, nat)>)
    requires FunctionsIn(t, fns) && CheckExpr(t, e).errors == 0
    ensures CallsIn(e, fns)
    decreases e, 1
  {
    hide FunctionsIn, CheckCallee, CheckName;
    match e
    case Binary(_, l, r) =>
      CheckedCalls(t, l, fns);
      CheckedCalls(t, r, fns);
    case Assign(_, v) => CheckedCalls(t, v, fns);
    case Unary(_, e1) => CheckedCalls(t, e1, fns);
    case Cond(c, a, b) =>
      CheckedCalls(t, c, fns);
      CheckedCalls(t, a, fns);
      CheckedCalls(t, b, fns);
    case Call(f, args) =>
      CalleeIn(t, f, |args|, fns);
      CheckedArgs(t, args, fns);
    case _ =>
  }

  lemma {:induction false} CheckedArgs(t: Scopes<Sig>, es: seq<Expr>, fns: set<(string, nat)>)
    requires FunctionsIn(t, fns) && CheckArgs(t, es).errors == 0
    ensures ArgsCallIn(es, fns)
    decreases es, 0
  {
    if es != [] {
      CheckedCalls(t, es[0], fns);
      CheckedArgs(t, es[1..], fns);
    }
  }

  lemma CheckedOption(t: Scopes<Sig>, e: Option<Expr>, fns: set<(string, nat)>)
    requires FunctionsIn(t, fns) && CheckOption(t, e).errors == 0
    ensures OptionCallsIn(e, fns)
  {
    hide CheckExpr, CallsIn, FunctionsIn;
    if e.Some? {
      CheckedCalls(t, e.value, fns);
    }
  }

  lemma DeclFunctions(t: Scopes<Sig>, s: Stmt, fns: set<(string, nat)>)
    requires FunctionsIn(t, fns) && NoBareDecl(s)
    ensures FunctionsIn(CheckStmt(t, s).scopes, fns)
  {
    hide FunctionsIn, CheckStmt;
    CheckRestores(t, s);
    if s.Decl? {
      BindFunctions(t, s.name, VariableSig, fns);
    }
  }

  /** The checker's acceptance of a statement covers its calls. */
  lemma {:induction false} CheckedStmtCalls(t: Scopes<Sig>, s: Stmt, fns: set<(string, nat)>)
    requires FunctionsIn(t, fns) && NoBareDecl(s) && CheckStmt(t, s).report.errors == 0
    ensures StmtCallsIn(s, fns)
    decreases s, 1
  {
    hide FunctionsIn, CheckExpr, CallsIn, OptionCallsIn, CheckOption;
    match s
    case Block(ss) =>
      PushFunctions(t, fns);
      CheckedStmtsCalls(Push(t), ss, fns);
    case Decl(_, init) => CheckedDecl(t, s, fns);
    case ExprStmt(e) => CheckedCalls(t, e, fns);
    case If(c, a, b) =>
      CheckedCalls(t, c, fns);
      CheckedStmtCalls(t, a, fns);
      if b.Some? {
        DeclFunctions(t, a, fns);
        CheckedStmtCalls(CheckStmt(t, a).scopes, b.value, fns);
      }
    case While(c, b) =>
      CheckedCalls(t, c, fns);
      CheckedStmtCalls(t, b, fns);
    case DoWhile(b, c) =>
      CheckedStmtCalls(t, b, fns);
      DeclFunctions(t, b, fns);
      CheckedCalls(CheckStmt(t, b).scopes, c, fns);
    case For(first, c, u, b) => CheckedForCalls(t, s, fns);
    case Return(e) => CheckedCalls(t, e, fns);
    case _ =>
  }

  lemma CheckedDecl(t: Scopes<Sig>, s: Stmt, fns: set<(string, nat)>)
    requires s.Decl? && FunctionsIn(t, fns) && CheckStmt(t, s).report.errors == 0
    ensures OptionCallsIn(s.init, fns)
  {
    hide FunctionsIn, CheckExpr, CallsIn;
    CheckedOption(t, s.init, fns);
  }

  lemma {:induction false} CheckedForCalls(t: Scopes<Sig>, s: Stmt, fns: set<(string, nat)>)
    requires s.For? && FunctionsIn(t, fns) && NoBareDecl(s) && CheckStmt(t, s).report.errors == 0
    ensures StmtCallsIn(s, fns)
    decreases s, 0
  {
    hide FunctionsIn, CheckExpr, CallsIn, OptionCallsIn, CheckOption;
    PushFunctions(t, fns);
    CheckedStmtCalls(Push(t), s.first, fns);
    DeclFunctions(Push(t), s.first, fns);
    var t1 := CheckStmt(Push(t), s.first).scopes;
    CheckedOption(t1, s.guard, fns);
    CheckedOption(t1, s.update, fns);
    CheckedStmtCalls(t1, s.body, fns);
  }

  lemma {:induction false} CheckedStmtsCalls(t: Scopes<Sig>, ss: seq<Stmt>, fns: set<(string, nat)>)
    requires FunctionsIn(t, fns) && NoneBare(ss) && CheckStmts(t, ss).report.errors == 0
    ensures StmtsCallIn(ss, fns)
    decreases ss, 0
  {
    hide FunctionsIn, CheckStmt, CanComplete;
    if ss != [] {
      CheckedStmtCalls(t, ss[0], fns);
      DeclFunctions(t, ss[0], fns);
      CheckedStmtsCalls(CheckStmt(t, ss[0]).scopes, ss[1..], fns);
    }
  }

  // ----- Expressions -----

  lemma RefersAppend(a: seq<Instr>, b: seq<Instr>, o: Outside)
    ensures Refers(a + b, o) <==> Refers(a, o) && Refers(b, o)
  {
    hide LineRefers;
    if Refers(a + b, o) {
      forall k | 0 <= k < |a|
        ensures LineRefers(a[k], o)
      {
        assert (a + b)[k] == a[k];
      }
      forall k | 0 <= k < |b|
        ensures LineRefers(b[k], o)
      {
        assert (a + b)[|a| + k] == b[k];
      }
    }
  }

  lemma RefersAppend3(a: seq<Instr>, b: seq<Instr>, c: seq<Instr>, o: Outside)
    ensures Refers(a + (b + c), o) <==> Refers(a, o) && Refers(b, o) && Refers(c, o)
  {
    hide Refers;
    RefersAppend(a, b + c, o);
    RefersAppend(b, c, o);
  }

  lemma RefersAppend5(
    a: seq<Instr>, b: seq<Instr>, c: seq<Instr>, d: seq<Instr>, e: seq<Instr>, o: Outside)
    ensures
      Refers(a + (b + (c + (d + e))), o) <==>
      && Refers(a, o) && Refers(b, o) && Refers(c, o) && Refers(d, o)
      && Refers(e, o)
  {
    hide Refers;
    RefersAppend3(a, b, c + (d + e), o);
    RefersAppend3(c, d, e, o);
  }

  /** A line with temporaries, local slots and labels only. */
  predicate IsOwn(i: Instr) { FileSlot(i).None? && !i.CallI? && ParamsOf(i) == {} }

  lemma {:induction false} ArgsOwn(s: Scopes<Symbol>, c: Counters, es: seq<Expr>)
    ensures ArgParams(GenArgs(s, c, es).args) == {} && |GenArgs(s, c, es).args| == |es|
    decreases es
  {
    hide GenExpr;
    if es != [] {
      var x := GenExpr(s, c, es[0]);
      var rest := GenArgs(s, x.c, es[1..]).args;
      ArgsOwn(s, x.c, es[1..]);
      assert ([Arg(TypeOf(es[0]), OperandOf(es[0], x.r))] + rest)[1..] == rest;
    }
  }

  lemma OwnRefers(code: seq<Instr>, o: Outside)
    requires forall k :: 0 <= k < |code| ==> IsOwn(code[k])
    ensures Refers(code, o)
  {
  }

  lemma SmallRefers(c: Counters, e: Expr, r: int, o: Outside)
    ensures Refers(GenToInt(c, e, r).code, o) && Refers(GenTruth(c, e, r).code, o)
    ensures Refers(GenPromote(c, e, r).code, o)
  {
    OwnRefers(GenToInt(c, e, r).code, o);
    OwnRefers(GenTruth(c, e, r).code, o);
    OwnRefers(GenPromote(c, e, r).code, o);
  }

  /** To the generator a name at file scope is in o.vars exactly when it is a
      variable's, and the others are variables of the function. */
  ghost predicate SymbolsFit(t: Scopes<Symbol>, vars: set<string>) {
    forall x :: Find(t, x).Some? ==> SymbolFits(Find(t, x).value, vars)
  }

  predicate SymbolFits(sym: Symbol, vars: set<string>) {
    if SlotOf(sym).Global? then sym.kind == VariableSymbol <==> PrintLocal(SlotName(SlotOf(sym))) in vars
    else sym.kind == VariableSymbol
  }

  lemma NameRefers(
    t: NameTable, s: Scopes<Symbol>, x: string, c: Counters, op: UnaryOp, e: Expr, v: ExprCode, o: Outside)
    requires Alike(t, s) && Lost(t, x) == 0 && SymbolsFit(s, o.vars)
    ensures Refers(LoadCode(c, Find(s, x)).code, o) <==> IsVariable(s, x)
    ensures Refers(StepCode(c, op, Find(s, x)).code, o) <==> IsVariable(s, x)
    ensures Refers(AssignCode(Find(s, x), e, v).code, o) <==> Refers(v.code, o) && IsVariable(s, x)
  {
    hide Alike, Refers, SymbolsFit;
    AlikeFinds(t, s, x);
    FoundFits(s, x, o.vars);
    var sym := Find(s, x).value;
    LoadRefers(c, sym, o);
    StepRefers(c, op, sym, o);
    AssignRefers(sym, e, v, o);
  }

  lemma FoundFits(s: Scopes<Symbol>, x: string, vars: set<string>)
    requires SymbolsFit(s, vars) && Find(s, x).Some?
    ensures SymbolFits(Find(s, x).value, vars)
  {
  }

  lemma LoadRefers(c: Counters, sym: Symbol, o: Outside)
    requires SymbolFits(sym, o.vars)
    ensures Refers(LoadCode(c, Some(sym)).code, o) <==> sym.kind == VariableSymbol
  {
    hide Refers;
    OneRefers(Load(c.temps + 1, I32, SlotOf(sym)), o);
  }

  lemma OneRefers(i: Instr, o: Outside)
    ensures Refers([i], o) <==> LineRefers(i, o)
  {
    hide LineRefers;
    assert [i][0] == i;
  }

  lemma StepRefers(c: Counters, op: UnaryOp, sym: Symbol, o: Outside)
    requires SymbolFits(sym, o.vars)
    ensures Refers(StepCode(c, op, Some(sym)).code, o) <==> sym.kind == VariableSymbol
  {
    hide Refers;
    var code := StepCode(c, op, Some(sym)).code;
    var first, second, third := code[0], code[1], code[2];
    assert code == [first] + ([second] + [third]);
    RefersAppend3([first], [second], [third], o);
    OneRefers(first, o);
    OneRefers(second, o);
    OneRefers(third, o);
  }

  lemma AssignRefers(sym: Symbol, e: Expr, v: ExprCode, o: Outside)
    requires SymbolFits(sym, o.vars)
    ensures
      Refers(AssignCode(Some(sym), e, v).code, o) <==> Refers(v.code, o) && sym.kind == VariableSymbol
  {
    hide Refers, GenToInt;
    var w := GenToInt(v.c, e, v.r);
    var store := Store(I32, OperandOf(e, w.r), SlotOf(sym));
    SmallRefers(v.c, e, v.r, o);
    RefersAppend3(v.code, w.code, [store], o);
    OneRefers(store, o);
  }

  lemma OperatorRefers(
    op: BinaryOp, l: Expr, r: Expr, a: ExprCode, b: ExprCode, o: Outside)
    ensures
      Refers(OperatorCode(op, l, r, a, b).code, o) <==> Refers(a.code, o) && Refers(b.code, o)
  {
    hide Refers, GenPromote;
    var c1 := b.c.(temps := b.c.temps + 1);
    var pa := GenPromote(c1, l, a.r);
    var pb := GenPromote(pa.c, r, b.r);
    var last := OperatorInstr(op, c1.temps, OperandOf(l, pa.r), OperandOf(r, pb.r));
    SmallRefers(c1, l, a.r, o);
    SmallRefers(pa.c, r, b.r, o);
    OneRefers(last, o);
    RefersAppend5(a.code, b.code, pa.code, pb.code, [last], o);
  }

  lemma LogicalRefers(
    c: Counters, op: BinaryOp, l: Expr, r: Expr, a: ExprCode, b: ExprCode, o: Outside)
    ensures
      Refers(LogicalCode(c, op, l, r, a, b).code, o) <==> Refers(a.code, o) && Refers(b.code, o)
  {
    hide Refers, GenTruth, LogicalShortcut, LogicalExit;
    var ab, bb := GenTruth(a.c, l, a.r), GenTruth(b.c, r, b.r);
    var first, middle := [Alloca(ResultSlot(c), I1)], LogicalShortcut(c, op, ab.r);
    var last := LogicalExit(c, bb.r, bb.c.temps + 1);
    SmallRefers(a.c, l, a.r, o);
    SmallRefers(b.c, r, b.r, o);
    OwnRefers(first, o);
    LogicalLinesRefer(c, op, ab.r, bb.r, bb.c.temps + 1, o);
    RefersAppend3(first, a.code, ab.code + (middle + (b.code + (bb.code + last))), o);
    RefersAppend5(ab.code, middle, b.code, bb.code, last, o);
  }

  lemma LogicalLinesRefer(
    c: Counters, op: BinaryOp, test: int, value: int, final: int, o: Outside)
    ensures Refers(LogicalShortcut(c, op, test), o) && Refers(LogicalExit(c, value, final), o)
  {
    OwnRefers(LogicalShortcut(c, op, test), o);
    OwnRefers(LogicalExit(c, value, final), o);
  }

  lemma CondRefers(
    c: Counters, q: Expr, s: Expr, t: Expr, a: ExprCode, b: ExprCode, d: ExprCode, o: Outside)
    ensures
      Refers(CondCode(c, q, s, t, a, b, d).code, o) <==>
      Refers(a.code, o) && Refers(b.code, o) && Refers(d.code, o)
  {
    hide Refers, GenTruth, GenToInt, CondChoice, CondElse, CondExit;
    var ab, bi, di := GenTruth(a.c, q, a.r), GenToInt(b.c, s, b.r), GenToInt(d.c, t, d.r);
    var first, second, third := [Alloca(ResultSlot(c), I32)], CondChoice(c, ab.r), CondElse(c, OperandOf(s, bi.r));
    var last := CondExit(c, OperandOf(t, di.r), di.c.temps + 1);
    SmallRefers(a.c, q, a.r, o);
    SmallRefers(b.c, s, b.r, o);
    SmallRefers(d.c, t, d.r, o);
    OwnRefers(first, o);
    CondLinesRefer(c, ab.r, OperandOf(s, bi.r), OperandOf(t, di.r), di.c.temps + 1, o);
    var tail := bi.code + (third + (d.code + (di.code + last)));
    RefersAppend5(first, a.code, ab.code, second, b.code + tail, o);
    RefersAppend(b.code, tail, o);
    RefersAppend5(bi.code, third, d.code, di.code, last, o);
  }

  lemma CondLinesRefer(
    c: Counters, test: int, v: Operand, w: Operand, final: int, o: Outside)
    requires OperandParams(v) == {} && OperandParams(w) == {}
    ensures Refers(CondChoice(c, test), o) && Refers(CondElse(c, v), o)
    ensures Refers(CondExit(c, w, final), o)
  {
    OwnRefers(CondChoice(c, test), o);
    OwnRefers(CondElse(c, v), o);
    OwnRefers(CondExit(c, w, final), o);
  }

  lemma LastRefers(code: seq<Instr>, i: Instr, o: Outside)
    requires LineRefers(i, o)
    ensures Refers(code + [i], o) <==> Refers(code, o)
  {
    hide Refers, LineRefers;
    RefersAppend(code, [i], o);
    OneRefers(i, o);
  }

  lemma {:induction false} ExprRefers(
    t: NameTable, s: Scopes<Symbol>, c: Counters, e: Expr, o: Outside)
    requires Alike(t, s) && InExpr(t, e) == 0 && SymbolsFit(s, o.vars) && CallsIn(e, o.fns)
    ensures Refers(GenExpr(s, c, e).code, o) <==> Resolved(s, e)
    decreases e, 1
  {
    hide Alike, Lost, SymbolsFit, Refers, IsVariable, LogicalCode, OperatorCode, CondCode, AssignCode, StepCode,
         LoadCode, GenTruth, GenToInt;
    match e
    case Number(_) => OwnRefers([], o);
    case Var(x) => NameRefers(t, s, x, c, Neg, e, ExprCode(c, [], 0), o);
    case Binary(op, l, r) =>
      if op == LAnd || op == LOr {
        var a := GenExpr(s, Reserve(c), l);
        var c1 := GenTruth(a.c, l, a.r).c;
        ExprRefers(t, s, Reserve(c), l, o);
        ExprRefers(t, s, c1, r, o);
        LogicalRefers(c, op, l, r, a, GenExpr(s, c1, r), o);
      } else {
        var a := GenExpr(s, c, l);
        ExprRefers(t, s, c, l, o);
        ExprRefers(t, s, a.c, r, o);
        OperatorRefers(op, l, r, a, GenExpr(s, a.c, r), o);
      }
    case Assign(x, rhs) =>
      ExprRefers(t, s, c, rhs, o);
      NameRefers(t, s, x, c, Neg, rhs, GenExpr(s, c, rhs), o);
    case Unary(op, e1) =>
      if IsStep(op) {
        NameRefers(t, s, e1.name, c, op, e, ExprCode(c, [], 0), o);
      } else {
        var a := GenExpr(s, c, e1);
        ExprRefers(t, s, c, e1, o);
        LastRefers(a.code, UnaryInstr(op, a.c.temps + 1, OperandOf(e1, a.r)), o);
      }
    case Cond(_, _, _) => ConditionalRefers(t, s, c, e, o);
    case Call(f, args) =>
      var a := GenArgs(s, c, args);
      ArgsRefer(t, s, c, args, o);
      ArgsOwn(s, c, args);
      LastRefers(a.code, CallI(a.c.temps + 1, f, a.args), o);
  }

  lemma {:induction false} ConditionalRefers(
    t: NameTable, s: Scopes<Symbol>, c: Counters, e: Expr, o: Outside)
    requires e.Cond? && Alike(t, s) && InExpr(t, e) == 0 && SymbolsFit(s, o.vars) && CallsIn(e, o.fns)
    ensures Refers(GenExpr(s, c, e).code, o) <==> Resolved(s, e)
    decreases e, 0
  {
    hide Alike, SymbolsFit, Refers, CondCode, GenTruth, GenToInt;
    var q, y, z := e.cond, e.thenExpr, e.elseExpr;
    var a := GenExpr(s, Reserve(c), q);
    var c1 := GenTruth(a.c, q, a.r).c;
    var b := GenExpr(s, c1, y);
    var c2 := GenToInt(b.c, y, b.r).c;
    ExprRefers(t, s, Reserve(c), q, o);
    ExprRefers(t, s, c1, y, o);
    ExprRefers(t, s, c2, z, o);
    CondRefers(c, q, y, z, a, b, GenExpr(s, c2, z), o);
  }

  lemma {:induction false} ArgsRefer(
    t: NameTable, s: Scopes<Symbol>, c: Counters, es: seq<Expr>, o: Outside)
    requires Alike(t, s) && InArgs(t, es) == 0 && SymbolsFit(s, o.vars) && ArgsCallIn(es, o.fns)
    ensures Refers(GenArgs(s, c, es).code, o) <==> ArgsResolved(s, es)
    decreases es, 0
  {
    hide Alike, SymbolsFit, Refers;
    if es == [] {
      OwnRefers([], o);
    } else {
      var a := GenExpr(s, c, es[0]);
      ExprRefers(t, s, c, es[0], o);
      ArgsRefer(t, s, a.c, es[1..], o);
      RefersAppend(a.code, GenArgs(s, a.c, es[1..]).code, o);
    }
  }

  // ----- Statements -----

  lemma TestRefers(t: NameTable, s: Scopes<Symbol>, c: Counters, e: Expr, o: Outside)
    requires Alike(t, s) && InExpr(t, e) == 0 && SymbolsFit(s, o.vars) && CallsIn(e, o.fns)
    ensures Refers(GenTest(s, c, e).code, o) <==> Resolved(s, e)
  {
    hide Alike, SymbolsFit, Refers, GenExpr, GenTruth;
    var x := GenExpr(s, c, e);
    ExprRefers(t, s, c, e, o);
    SmallRefers(x.c, e, x.r, o);
    RefersAppend(x.code, GenTruth(x.c, e, x.r).code, o);
  }

  lemma OptionsRefer(
    t: NameTable, s: Scopes<Symbol>, c: Counters, e: Option<Expr>, b: Label, l: Label, o: Outside)
    requires Alike(t, s) && InOption(t, e) == 0 && SymbolsFit(s, o.vars) && OptionCallsIn(e, o.fns)
    ensures Refers(GenGuard(s, c, e, b, l).code, o) <==> OptionResolved(s, e)
    ensures Refers(GenUpdate(s, c, e).code, o) <==> OptionResolved(s, e)
  {
    hide Alike, SymbolsFit, Refers, GenExpr, GenTest, Resolved;
    OwnRefers([], o);
    OwnRefers([Br(b)], o);
    if e.Some? {
      var x := GenTest(s, c, e.value);
      TestRefers(t, s, c, e.value, o);
      ExprRefers(t, s, c, e.value, o);
      LastRefers(x.code, CondBr(x.r, b, l), o);
    }
  }

  lemma ClosingRefers(closed: bool, l: Label, o: Outside)
    ensures Refers(Closing(closed, l), o)
  {
    OwnRefers(Closing(closed, l), o);
  }

  lemma LinesRefer(i: Instr, j: Instr, o: Outside)
    requires IsOwn(i) && IsOwn(j)
    ensures Refers([i], o) && Refers([i, j], o)
  {
    OwnRefers([i], o);
    OwnRefers([i, j], o);
  }

  lemma IfCodeRefers(g: Context, x: ExprCode, a: StmtCode, o: Outside)
    ensures Refers(IfCode(g, x, a).code, o) <==> Refers(x.code, o) && Refers(a.code, o)
  {
    hide Refers, Closing;
    var fork, last := [CondBr(x.r, IfThen(g), IfEnd(g)), LabelDef(IfThen(g))], [LabelDef(IfEnd(g))];
    LinesRefer(fork[0], fork[1], o);
    LinesRefer(last[0], last[0], o);
    ClosingRefers(a.g.inReturnBlock, IfEnd(g), o);
    RefersAppend5(x.code, fork, a.code, Closing(a.g.inReturnBlock, IfEnd(g)), last, o);
  }

  lemma IfElseCodeRefers(g: Context, x: ExprCode, a: StmtCode, b: StmtCode, o: Outside)
    ensures
      Refers(IfElseCode(g, x, a, b).code, o) <==>
      Refers(x.code, o) && Refers(a.code, o) && Refers(b.code, o)
  {
    hide Refers, Closing;
    var ends := a.g.inReturnBlock && b.g.inReturnBlock;
    var fork, middle := [CondBr(x.r, IfThen(g), IfElse(g)), LabelDef(IfThen(g))], [LabelDef(IfElse(g))];
    var last := if ends then [] else [LabelDef(IfEnd(g))];
    LinesRefer(fork[0], fork[1], o);
    LinesRefer(middle[0], middle[0], o);
    OwnRefers(last, o);
    var c1, c2 := Closing(a.g.inReturnBlock, IfEnd(g)), Closing(b.g.inReturnBlock, IfEnd(g));
    ClosingRefers(a.g.inReturnBlock, IfEnd(g), o);
    ClosingRefers(b.g.inReturnBlock, IfEnd(g), o);
    RefersAppend5(x.code, fork, a.code, c1, middle + (b.code + (c2 + last)), o);
    RefersAppend3(middle, b.code, c2 + last, o);
    RefersAppend(c2, last, o);
  }

  lemma WhileCodeRefers(g: Context, x: ExprCode, b: StmtCode, o: Outside)
    ensures Refers(WhileCode(g, x, b).code, o) <==> Refers(x.code, o) && Refers(b.code, o)
  {
    hide Refers, Closing;
    var first := [Br(WhileCond(g)), LabelDef(WhileCond(g))];
    var fork := [CondBr(x.r, WhileBody(g), WhileEnd(g)), LabelDef(WhileBody(g))];
    var closing, last := Closing(b.g.inReturnBlock, WhileCond(g)), [LabelDef(WhileEnd(g))];
    LinesRefer(first[0], first[1], o);
    LinesRefer(fork[0], fork[1], o);
    LinesRefer(last[0], last[0], o);
    ClosingRefers(b.g.inReturnBlock, WhileCond(g), o);
    RefersAppend5(first, x.code, fork, b.code, closing + last, o);
    RefersAppend(closing, last, o);
  }

  lemma DoCodeRefers(g: Context, b: StmtCode, x: ExprCode, o: Outside)
    ensures Refers(DoCode(g, b, x).code, o) <==> Refers(b.code, o) && Refers(x.code, o)
  {
    hide Refers, Closing;
    var first, middle := [Br(DoBody(g)), LabelDef(DoBody(g))], [LabelDef(DoCond(g))];
    var last := [CondBr(x.r, DoBody(g), DoEnd(g)), LabelDef(DoEnd(g))];
    var closing := Closing(b.g.inReturnBlock, DoCond(g));
    LinesRefer(first[0], first[1], o);
    LinesRefer(middle[0], middle[0], o);
    LinesRefer(last[0], last[1], o);
    ClosingRefers(b.g.inReturnBlock, DoCond(g), o);
    RefersAppend5(first, b.code, closing, middle, x.code + last, o);
    RefersAppend(x.code, last, o);
  }

  lemma ForCodeRefers(
    g: Context, i: StmtCode, x: ExprCode, b: StmtCode, u: ExprCode, o: Outside)
    ensures
      Refers(ForCode(g, i, x, b, u).code, o) <==>
      && Refers(i.code, o) && Refers(x.code, o) && Refers(b.code, o)
      && Refers(u.code, o)
  {
    hide Refers, Closing;
    var first, second := [Br(ForCond(g)), LabelDef(ForCond(g))], [LabelDef(ForBody(g))];
    var third, last := [LabelDef(ForUpdate(g))], [Br(ForCond(g)), LabelDef(ForEnd(g))];
    var closing := Closing(b.g.inReturnBlock, ForUpdate(g));
    LinesRefer(first[0], first[1], o);
    LinesRefer(second[0], third[0], o);
    LinesRefer(third[0], third[0], o);
    LinesRefer(last[0], last[1], o);
    ClosingRefers(b.g.inReturnBlock, ForUpdate(g), o);
    var tail := third + (u.code + last);
    RefersAppend5(i.code, first, x.code, second, b.code + (closing + tail), o);
    RefersAppend3(b.code, closing, tail, o);
    RefersAppend3(third, u.code, last, o);
  }

  lemma PushFits(t: Scopes<Symbol>, vars: set<string>)
    requires SymbolsFit(t, vars)
    ensures SymbolsFit(Push(t), vars)
  {
    forall x
      ensures Find(Push(t), x) == Find(t, x)
    {
    }
  }

  lemma BindFits(t: Scopes<Symbol>, x: string, sym: Symbol, vars: set<string>)
    requires SymbolsFit(t, vars) && SymbolFits(sym, vars)
    ensures SymbolsFit(Bind(t, x, sym), vars)
  {
    forall y
      ensures Find(Bind(t, x, sym), y) == if y == x then Some(sym) else Find(t, y)
    {
    }
  }

  ghost predicate CanRefer(
    t: NameTable, g: Context, s: Stmt, inLoop: bool, o: Outside)
  {
    && CanReport(t, g, s, inLoop) && g.table.scopes.Inner? && SymbolsFit(g.table.scopes, o.vars)
    && InStmt(t, s) == 0 && StmtCallsIn(s, o.fns)
  }

  lemma AfterFits(t: NameTable, g: Context, s: Stmt, vars: set<string>)
    requires g.table.scopes.Inner? && SymbolsFit(g.table.scopes, vars)
    ensures SymbolsFit(GenStmt(g, s).g.table.scopes, vars) && GenStmt(g, s).g.table.scopes.Inner?
  {
    hide GenStmt, SymbolsFit;
    StmtRestores(g, s);
    if s.Decl? && !g.inReturnBlock && s.name !in g.table.scopes.vars {
      BindFits(g.table.scopes, s.name, NewSymbol(g.table, s.name, VariableSymbol, false), vars);
    }
  }

  lemma DeclRefers(t: NameTable, g: Context, s: Stmt, o: Outside)
    requires s.Decl? && CanRefer(t, g, s, false, o)
    ensures Refers(GenDecl(g, s.name, s.init).code, o) <==> StmtResolved(g, s)
  {
    hide GenExpr, GenToInt, Refers, SymbolsFit, Resolved, InExpr, CallsIn;
    var sym := NewSymbol(g.table, s.name, VariableSymbol, false);
    var slot := SlotOf(sym);
    var first := Alloca(slot, I32);
    LinesRefer(first, first, o);
    if s.init.Some? {
      var e := s.init.value;
      var g1 := g.(table := AddSymbol(g.table, s.name, VariableSymbol, false));
      BindFits(g.table.scopes, s.name, sym, o.vars);
      var x := GenExpr(g1.table.scopes, g1.c, e);
      var w := GenToInt(x.c, e, x.r);
      var store := Store(I32, OperandOf(e, w.r), slot);
      ExprRefers(Bind(t, s.name, ()), g1.table.scopes, g1.c, e, o);
      SmallRefers(x.c, e, x.r, o);
      LinesRefer(store, store, o);
      RefersAppend3([first], x.code, w.code + [store], o);
      RefersAppend(w.code, [store], o);
    }
  }

  lemma ReturnRefers(t: NameTable, g: Context, e: Expr, o: Outside)
    requires Alike(t, g.table.scopes) && InExpr(t, e) == 0 && SymbolsFit(g.table.scopes, o.vars) && CallsIn(e, o.fns)
    ensures
      Refers(ReturnCode(g, e, GenExpr(g.table.scopes, g.c, e)).code, o) <==> Resolved(g.table.scopes, e)
  {
    hide Alike, SymbolsFit, Refers, GenExpr, GenToInt;
    var x := GenExpr(g.table.scopes, g.c, e);
    var w := GenToInt(x.c, e, x.r);
    var last := Ret(OperandOf(e, w.r));
    ExprRefers(t, g.table.scopes, g.c, e, o);
    SmallRefers(x.c, e, x.r, o);
    LinesRefer(last, last, o);
    RefersAppend3(x.code, w.code, [last], o);
  }

  lemma JumpRefers(g: Context, l: Option<Label>, o: Outside)
    ensures Refers(GenJump(g, l).code, o)
  {
    OwnRefers(GenJump(g, l).code, o);
  }

  lemma {:induction false} StmtRefers(
    t: NameTable, g: Context, s: Stmt, inLoop: bool, o: Outside)
    requires CanRefer(t, g, s, inLoop, o)
    ensures Refers(GenStmt(g, s).code, o) <==> StmtResolved(g, s)
    decreases s, 1
  {
    hide GenExpr, GenTest, GenDecl, CanComplete, ReturnCode, Alike, InExpr, SymbolsFit, Refers, CallsIn, Resolved,
         OptionCallsIn;
    OwnRefers([], o);
    match s
    case Block(ss) =>
      PushAlike(t, g.table.scopes);
      PushFits(g.table.scopes, o.vars);
      StmtsRefer(Push(t), InNewScope(g), ss, inLoop, o);
    case Decl(_, _) => DeclRefers(t, g, s, o);
    case ExprStmt(e) => ExprRefers(t, g.table.scopes, g.c, e, o);
    case If(_, _, _) => IfRefers(t, g, s, inLoop, o);
    case While(c, body) => WhileRefers(t, g, s, inLoop, o);
    case DoWhile(body, c) => DoRefers(t, g, s, inLoop, o);
    case For(_, _, _, _) => ForRefers(t, g, s, inLoop, o);
    case Return(e) => ReturnRefers(t, g, e, o);
    case Break => JumpRefers(g, g.breakLabel, o);
    case Continue => JumpRefers(g, g.continueLabel, o);
    case Empty =>
  }

  lemma {:induction false} ScopedRefers(
    t: NameTable, g: Context, s: Stmt, inLoop: bool, o: Outside)
    requires CanReport(t, g, s, inLoop) && SymbolsFit(g.table.scopes, o.vars)
    requires InStmt(Push(t), s) == 0 && StmtCallsIn(s, o.fns)
    ensures Refers(GenScoped(g, s).code, o) <==> ScopedResolved(g, s)
    decreases s, 2
  {
    hide Alike, GenStmt, InStmt, StmtInFragment, SymbolsFit, Refers, StmtResolved, StmtCallsIn;
    PushAlike(t, g.table.scopes);
    PushFits(g.table.scopes, o.vars);
    StmtRefers(Push(t), InNewScope(g), s, inLoop, o);
  }

  lemma {:induction false} IfRefers(
    t: NameTable, g: Context, s: Stmt, inLoop: bool, o: Outside)
    requires s.If? && CanRefer(t, g, s, inLoop, o)
    ensures Refers(GenStmt(g, s).code, o) <==> StmtResolved(g, s)
    decreases s, 0
  {
    hide GenTest, GenScoped, Alike, InExpr, SymbolsFit, Refers, CallsIn, Resolved, ScopedResolved, IfCode, IfElseCode;
    var x := GenTest(g.table.scopes, TakeLabels(g, 3).c, s.cond);
    TestRefers(t, g.table.scopes, TakeLabels(g, 3).c, s.cond, o);
    var g1 := g.(c := x.c);
    var a := GenScoped(g1, s.thenStmt);
    ScopedRefers(t, g1, s.thenStmt, inLoop, o);
    ScopedRestores(g1, s.thenStmt);
    if s.elseStmt.Some? {
      ScopedRefers(t, AfterThen(a), s.elseStmt.value, inLoop, o);
      IfElseCodeRefers(g, x, a, GenScoped(AfterThen(a), s.elseStmt.value), o);
    } else {
      IfCodeRefers(g, x, a, o);
    }
  }

  lemma {:induction false} WhileRefers(
    t: NameTable, g: Context, s: Stmt, inLoop: bool, o: Outside)
    requires s.While? && CanRefer(t, g, s, inLoop, o)
    ensures Refers(GenStmt(g, s).code, o) <==> StmtResolved(g, s)
    decreases s, 0
  {
    hide GenTest, GenScoped, Alike, InExpr, SymbolsFit, Refers, CallsIn, Resolved, ScopedResolved, WhileCode;
    var x := GenTest(g.table.scopes, TakeLabels(g, 3).c, s.cond);
    TestRefers(t, g.table.scopes, TakeLabels(g, 3).c, s.cond, o);
    ScopedRefers(t, WhileContext(g, x.c), s.body, true, o);
    WhileCodeRefers(g, x, GenScoped(WhileContext(g, x.c), s.body), o);
  }

  lemma {:induction false} DoRefers(
    t: NameTable, g: Context, s: Stmt, inLoop: bool, o: Outside)
    requires s.DoWhile? && CanRefer(t, g, s, inLoop, o)
    ensures Refers(GenStmt(g, s).code, o) <==> StmtResolved(g, s)
    decreases s, 0
  {
    hide GenTest, GenScoped, Alike, InExpr, SymbolsFit, Refers, CallsIn, Resolved, ScopedResolved, DoCode;
    var b := GenScoped(DoContext(g), s.body);
    ScopedRefers(t, DoContext(g), s.body, true, o);
    ScopedRestores(DoContext(g), s.body);
    TestRefers(t, b.g.table.scopes, b.g.c, s.cond, o);
    DoCodeRefers(g, b, GenTest(b.g.table.scopes, b.g.c, s.cond), o);
  }

  lemma {:induction false} ForRefers(
    t: NameTable, g: Context, s: Stmt, inLoop: bool, o: Outside)
    requires s.For? && CanRefer(t, g, s, inLoop, o)
    ensures Refers(GenStmt(g, s).code, o) <==> StmtResolved(g, s)
    decreases s, 0
  {
    hide GenGuard, GenUpdate, Alike, InOption, SymbolsFit, Refers, OptionCallsIn, OptionResolved, ForCode;
    PushAlike(t, g.table.scopes);
    PushFits(g.table.scopes, o.vars);
    StmtRefers(Push(t), ForContext(g), s.first, false, o);
    AfterAlike(Push(t), ForContext(g), s.first);
    AfterFits(Push(t), ForContext(g), s.first, o.vars);
    StmtRestores(ForContext(g), s.first);
    var t1 := NamesAfter(Push(t), s.first);
    var i := GenStmt(ForContext(g), s.first);
    var x := GenGuard(i.g.table.scopes, i.g.c, s.guard, ForBody(g), ForEnd(g));
    OptionsRefer(t1, i.g.table.scopes, i.g.c, s.guard, ForBody(g), ForEnd(g), o);
    var g1 := i.g.(c := x.c, inReturnBlock := false);
    StmtRefers(t1, g1, s.body, true, o);
    AfterAlike(t1, g1, s.body);
    AfterFits(t1, g1, s.body, o.vars);
    var b := GenStmt(g1, s.body);
    OptionsRefer(t1, b.g.table.scopes, b.g.c, s.update, ForBody(g), ForEnd(g), o);
    ForCodeRefers(g, i, x, b, GenUpdate(b.g.table.scopes, b.g.c, s.update), o);
  }

  lemma {:induction false} StmtsRefer(
    t: NameTable, g: Context, ss: seq<Stmt>, inLoop: bool, o: Outside)
    requires !g.inReturnBlock && Alike(t, g.table.scopes) && StmtsInFragment(ss, inLoop) && LabelsFit(g, inLoop)
    requires g.table.scopes.Inner? && SymbolsFit(g.table.scopes, o.vars)
    requires InStmts(t, ss) == 0 && StmtsCallIn(ss, o.fns)
    ensures Refers(GenStmts(g, ss).code, o) <==> StmtsResolved(g, ss)
    decreases ss, 0
  {
    hide Alike, GenStmt, InStmt, CanComplete, StmtInFragment, SymbolsFit, Refers, StmtResolved, StmtCallsIn;
    OwnRefers([], o);
    if ss != [] {
      var a := GenStmt(g, ss[0]);
      StmtRefers(t, g, ss[0], inLoop, o);
      StmtRestores(g, ss[0]);
      FlagMeans(g, ss[0], inLoop);
      RefersAppend(a.code, GenStmts(a.g, ss[1..]).code, o);
      if !a.g.inReturnBlock {
        AfterAlike(t, g, ss[0]);
        AfterFits(t, g, ss[0], o.vars);
        StmtsRefer(NamesAfter(t, ss[0]), a.g, ss[1..], inLoop, o);
      }
    }
  }

  // ----- Functions -----

  lemma {:induction false} ParamsRefer(t: Table, params: seq<string>, o: Outside)
    requires t.scopes.Inner? && SymbolsFit(t.scopes, o.vars) && forall i :: 0 <= i < |params| ==> params[i] in o.params
    ensures Refers(GenParams(t, params).code, o) && SymbolsFit(GenParams(t, params).table.scopes, o.vars)
    decreases params
  {
    hide Refers, SymbolsFit;
    OwnRefers([], o);
    if params != [] {
      var x := params[0];
      var t1 := AddSymbol(t, x, VariableSymbol, true);
      if x in t.scopes.vars {
        ParamsRefer(t1, params[1..], o);
      } else {
        var sym := NewSymbol(t, x, VariableSymbol, true);
        BindFits(t.scopes, x, sym, o.vars);
        ParamsRefer(t1, params[1..], o);
        var first := [Alloca(SlotOf(sym), I32), Store(I32, Incoming(x), SlotOf(sym))];
        ParamLinesRefer(x, SlotOf(sym), o);
        RefersAppend(first, GenParams(t1, params[1..]).code, o);
      }
    }
  }

  lemma ParamLinesRefer(
    x: string, slot: Slot, o: Outside)
    requires x in o.params && !slot.Global?
    ensures Refers([Alloca(slot, I32), Store(I32, Incoming(x), slot)], o)
  {
  }

  lemma FunctionRefers(t: NameTable, g: Context, def: FunDef, o: Outside)
    requires AtFileLevel(g) && Alike(t, g.table.scopes) && SymbolsFit(FunctionEntry(g, def).table.scopes, o.vars)
    requires def.body.Block? && StmtInFragment(def.body, false) && StmtCallsIn(def.body, o.fns)
    requires InStmt(BindAll(Push(Bind(t, def.name, ())), def.params), def.body) == 0
    requires forall i :: 0 <= i < |def.params| ==> def.params[i] in o.params
    ensures Refers(GenFunction(g, def).code, o) <==> StmtResolved(BodyContext(g, def), def.body)
  {
    hide GenStmt, GenParams, InStmt, StmtInFragment, Refers, SymbolsFit, StmtResolved, StmtCallsIn;
    var t1 := Push(Bind(t, def.name, ()));
    var g1, g2 := FunctionEntry(g, def), BodyContext(g, def);
    var entry := GenParams(g1.table, def.params);
    var b := GenStmt(g2, def.body);
    ParamsAlike(t1, g1.table, def.params);
    ParamsRefer(g1.table, def.params, o);
    Functions.ParamsRestore(g1.table, def.params);
    StmtRefers(BindAll(t1, def.params), g2, def.body, false, o);
    var last := Epilogue(b.g.inReturnBlock);
    OwnRefers(last, o);
    RefersAppend3(entry.code, b.code, last, o);
  }
}
