/** What the code generator emits, as functions from the state it works in to
    the code it prints and the state it leaves. */
module Codegen {
  import opened Options
  import opened Ast
  import opened Scopes
  import opened Ir

  datatype SymbolKind = VariableSymbol | FunctionSymbol

  datatype Symbol = Symbol(kind: SymbolKind, llvm: UniqueName, isGlobal: bool, isParameter: bool)

  /** The symbol table: its scopes, scope_counter, temp_counter and current
      function. */
  datatype Table = Table(scopes: Scopes<Symbol>, level: nat, uid: nat, fn: Option<string>)

  /** label_counter, temp_counter and the number of errors the generator reports:
      names it does not find, declarations it fails to add, jumps outside loops. */
  datatype Counters = Counters(labels: nat, temps: nat, errors: nat)

  datatype Context = Context(
    table: Table, c: Counters, inReturnBlock: bool, breakLabel: Option<Label>, continueLabel: Option<Label>)

  /** Code for an expression, with the int that generate_expression returns. */
  datatype ExprCode = ExprCode(c: Counters, code: seq<Instr>, r: int)
  datatype ArgsCode = ArgsCode(c: Counters, code: seq<Instr>, args: seq<Arg>)
  datatype StmtCode = StmtCode(g: Context, code: seq<Instr>)
  datatype TableCode = TableCode(table: Table, code: seq<Instr>)

  // ----- The symbol table -----

  function SlotOf(s: Symbol): Slot {
    if s.isParameter then ParamAddr(s.llvm)
    else if s.isGlobal then Global(s.llvm)
    else Local(s.llvm)
  }

  function EnterScope(t: Table): Table {
    t.(level := t.level + 1, scopes := Push(t.scopes))
  }

  function ExitScope(t: Table): Table {
    if t.scopes.Base? then t
    else t.(level := if t.level > 0 then t.level - 1 else 0, scopes := t.scopes.outer)
  }

  function UniqueNameFor(t: Table, x: string): UniqueName {
    if t.fn.Some? then InFunction(t.fn.value, x, t.level, t.uid + 1) else AtFileScope(x, t.uid + 1)
  }

  function NewSymbol(t: Table, x: string, kind: SymbolKind, isParameter: bool): Symbol {
    Symbol(kind, UniqueNameFor(t, x), t.scopes.Base?, isParameter)
  }

  /** Adding a name that the innermost scope has already changes nothing. */
  function AddSymbol(t: Table, x: string, kind: SymbolKind, isParameter: bool): Table {
    if x in t.scopes.vars then t
    else t.(uid := t.uid + 1, scopes := Bind(t.scopes, x, NewSymbol(t, x, kind, isParameter)))
  }

  // ----- Expressions -----

  function AddError(c: Counters): Counters { c.(errors := c.errors + 1) }

  /** get_expression_type: the C type _Bool prints as i1, int as i32. */
  function TypeOf(e: Expr): Type {
    match e
    case Binary(op, _, _) => if IsComparisonOp(op) then I1 else I32
    case Unary(op, e1) => if op == Not then I1 else TypeOf(e1)
    case Cond(_, t, f) => if TypeOf(t) == I1 && TypeOf(f) == I1 then I1 else I32
    case _ => I32
  }

  /** How a caller prints the int that generate_expression returned for e. */
  function OperandOf(e: Expr, r: int): Operand {
    if e.Number? then Imm(r) else Tmp(r)
  }

  /** cast_value to int. */
  function GenCast(c: Counters, r: int, ty: Type): ExprCode {
    if ty == I32 then ExprCode(c, [], r)
    else ExprCode(c.(temps := c.temps + 1), [Sext(c.temps + 1, r)], c.temps + 1)
  }

  /** A value on its way into an int: literals are printed, the rest is cast. */
  function GenToInt(c: Counters, e: Expr, r: int): ExprCode {
    if e.Number? then ExprCode(c, [], r) else GenCast(c, r, TypeOf(e))
  }

  /** Promotion of an operand of an arithmetic or comparison operator. */
  function GenPromote(c: Counters, e: Expr, r: int): ExprCode {
    if IsComparison(e) then ExprCode(c.(temps := c.temps + 1), [Zext(c.temps + 1, r)], c.temps + 1)
    else GenToInt(c, e, r)
  }

  /** convert_to_boolean, and the same test written out for `&&` and `||`. */
  function GenTruth(c: Counters, e: Expr, r: int): ExprCode {
    if IsComparison(e) then ExprCode(c, [], r)
    else ExprCode(c.(temps := c.temps + 1), [Icmp(c.temps + 1, NeP, OperandOf(e, r), Imm(0))], c.temps + 1)
  }

  function PredicateOf(op: BinaryOp): Predicate {
    match op
    case Eq => EqP
    case Ne => NeP
    case Lt => SltP
    case Le => SleP
    case Gt => SgtP
    case _ => SgeP
  }

  function OpcodeOf(op: BinaryOp): Opcode {
    match op
    case Add => AddI
    case Sub => SubI
    case Mul => MulI
    case Div => SDivI
    case Mod => SRemI
    case BAnd => AndI
    case BOr => OrI
    case BXor => XorI
    case Shl => ShlI
    case _ => AShrI
  }

  function OperatorInstr(op: BinaryOp, t: int, a: Operand, b: Operand): Instr {
    if IsComparisonOp(op) then Icmp(t, PredicateOf(op), a, b) else Arith(t, OpcodeOf(op), a, b)
  }

  /** generate_expression.  The helpers below it put the code of a node together
      from the code of its parts. */
  function GenExpr(t: Scopes<Symbol>, c: Counters, e: Expr): ExprCode
    decreases e, 0
  {
    match e
    case Number(v) => ExprCode(c, [], v)
    case Var(x) => LoadCode(c, Find(t, x))
    case Binary(op, l, r) =>
      if op == LAnd || op == LOr then
        var x := GenExpr(t, Reserve(c), l);
        LogicalCode(c, op, l, r, x, GenExpr(t, GenTruth(x.c, l, x.r).c, r))
      else
        var x := GenExpr(t, c, l);
        OperatorCode(op, l, r, x, GenExpr(t, x.c, r))
    case Assign(x, rhs) => AssignCode(Find(t, x), rhs, GenExpr(t, c, rhs))
    case Unary(op, e1) =>
      if !IsStep(op) then UnaryCode(op, e1, GenExpr(t, c, e1))
      else StepCode(c, op, if e1.Var? then Find(t, e1.name) else None)
    case Cond(q, a, b) =>
      var x := GenExpr(t, Reserve(c), q);
      var y := GenExpr(t, GenTruth(x.c, q, x.r).c, a);
      CondCode(c, q, a, b, x, y, GenExpr(t, GenToInt(y.c, a, y.r).c, b))
    case Call(f, args) => CallCode(f, GenArgs(t, c, args))
  }

  function GenArgs(t: Scopes<Symbol>, c: Counters, es: seq<Expr>): ArgsCode
    decreases es, 0
  {
    if es == [] then ArgsCode(c, [], [])
    else
      var x := GenExpr(t, c, es[0]);
      MoreArgs(es[0], x, GenArgs(t, x.c, es[1..]))
  }

  function MoreArgs(e: Expr, x: ExprCode, xs: ArgsCode): ArgsCode {
    ArgsCode(xs.c, x.code + xs.code, [Arg(TypeOf(e), OperandOf(e, x.r))] + xs.args)
  }

  /** Three labels and the temporary that names the result's slot. */
  function Reserve(c: Counters): Counters {
    c.(labels := c.labels + 3, temps := c.temps + 1)
  }

  function LoadCode(c: Counters, sym: Option<Symbol>): ExprCode {
    if sym.None? then ExprCode(AddError(c), [], -1)
    else ExprCode(c.(temps := c.temps + 1), [Load(c.temps + 1, I32, SlotOf(sym.value))], c.temps + 1)
  }

  function AssignCode(sym: Option<Symbol>, rhs: Expr, v: ExprCode): ExprCode {
    if sym.None? then ExprCode(AddError(v.c), v.code, -1)
    else
      var w := GenToInt(v.c, rhs, v.r);
      ExprCode(w.c, v.code + (w.code + [Store(I32, OperandOf(rhs, w.r), SlotOf(sym.value))]), w.r)
  }

  function LogicalLeft(c: Counters): Label { Label("logical_left", c.labels + 1) }
  function LogicalRight(c: Counters): Label { Label("logical_right", c.labels + 2) }
  function LogicalEnd(c: Counters): Label { Label("logical_end", c.labels + 3) }

  /** The slot named after the temporary that Reserve takes. */
  function ResultSlot(c: Counters): Slot { TempAddr(c.temps + 1) }

  /** The left operand decides, or control goes on to the right one. */
  function LogicalShortcut(c: Counters, op: BinaryOp, test: int): seq<Instr> {
    [if op == LAnd then CondBr(test, LogicalRight(c), LogicalLeft(c))
     else CondBr(test, LogicalLeft(c), LogicalRight(c)),
     LabelDef(LogicalLeft(c)), Store(I1, Flag(op == LOr), ResultSlot(c)), Br(LogicalEnd(c)), LabelDef(LogicalRight(c))]
  }

  function LogicalExit(c: Counters, value: int, final: int): seq<Instr> {
    [Store(I1, Tmp(value), ResultSlot(c)), Br(LogicalEnd(c)), LabelDef(LogicalEnd(c)),
     Load(final, I1, ResultSlot(c)), Zext(final + 1, final)]
  }

  /** `&&` and `||`: c is the state before the node, x and y its operands. */
  function LogicalCode(c: Counters, op: BinaryOp, l: Expr, r: Expr, x: ExprCode, y: ExprCode): ExprCode {
    var xb := GenTruth(x.c, l, x.r);
    var yb := GenTruth(y.c, r, y.r);
    var final := yb.c.temps + 1;
    ExprCode(
      yb.c.(temps := yb.c.temps + 2),
      [Alloca(ResultSlot(c), I1)]
      + (x.code
         + (xb.code
            + (LogicalShortcut(c, op, xb.r) + (y.code + (yb.code + LogicalExit(c, yb.r, final)))))),
      final + 1)
  }

  function OperatorCode(op: BinaryOp, l: Expr, r: Expr, x: ExprCode, y: ExprCode): ExprCode {
    var temp := y.c.temps + 1;
    var px := GenPromote(y.c.(temps := temp), l, x.r);
    var py := GenPromote(px.c, r, y.r);
    ExprCode(
      py.c,
      x.code + (y.code + (px.code + (py.code + [OperatorInstr(op, temp, OperandOf(l, px.r), OperandOf(r, py.r))]))),
      temp)
  }

  /** `++` and `--`, before and after. */
  function StepCode(c: Counters, op: UnaryOp, sym: Option<Symbol>): ExprCode {
    if sym.None? then ExprCode(AddError(c), [], -1)
    else
      var slot := SlotOf(sym.value);
      var before, after := c.temps + 1, c.temps + 2;
      ExprCode(
        c.(temps := c.temps + 2),
        [Load(before, I32, slot),
         Arith(after, if op == PreInc || op == PostInc then AddI else SubI, Tmp(before), Imm(1)),
         Store(I32, Tmp(after), slot)],
        if op == PreInc || op == PreDec then after else before)
  }

  function UnaryInstr(op: UnaryOp, temp: int, a: Operand): Instr {
    match op
    case Neg => Arith(temp, SubI, Imm(0), a)
    case BNot => Arith(temp, XorI, a, Imm(-1))
    case _ => Icmp(temp, EqP, a, Imm(0))
  }

  function UnaryCode(op: UnaryOp, e: Expr, x: ExprCode): ExprCode {
    var temp := x.c.temps + 1;
    ExprCode(x.c.(temps := temp), x.code + [UnaryInstr(op, temp, OperandOf(e, x.r))], temp)
  }

  function CondTrue(c: Counters): Label { Label("cond_true", c.labels + 1) }
  function CondFalse(c: Counters): Label { Label("cond_false", c.labels + 2) }
  function CondEnd(c: Counters): Label { Label("cond_end", c.labels + 3) }

  function CondChoice(c: Counters, test: int): seq<Instr> {
    [CondBr(test, CondTrue(c), CondFalse(c)), LabelDef(CondTrue(c))]
  }

  function CondElse(c: Counters, v: Operand): seq<Instr> {
    [Store(I32, v, ResultSlot(c)), Br(CondEnd(c)), LabelDef(CondFalse(c))]
  }

  function CondExit(c: Counters, v: Operand, final: int): seq<Instr> {
    [Store(I32, v, ResultSlot(c)), Br(CondEnd(c)), LabelDef(CondEnd(c)), Load(final, I32, ResultSlot(c))]
  }

  /** `q ? a : b`: c is the state before the node. */
  function CondCode(c: Counters, q: Expr, a: Expr, b: Expr, x: ExprCode, y: ExprCode, z: ExprCode): ExprCode {
    var xb := GenTruth(x.c, q, x.r);
    var yi := GenToInt(y.c, a, y.r);
    var zi := GenToInt(z.c, b, z.r);
    var final := zi.c.temps + 1;
    ExprCode(
      zi.c.(temps := final),
      [Alloca(ResultSlot(c), I32)]
      + (x.code
         + (xb.code
            + (CondChoice(c, xb.r)
               + (y.code
                  + (yi.code
                     + (CondElse(c, OperandOf(a, yi.r))
                        + (z.code + (zi.code + CondExit(c, OperandOf(b, zi.r), final))))))))),
      final)
  }

  function CallCode(f: string, a: ArgsCode): ExprCode {
    var temp := a.c.temps + 1;
    ExprCode(a.c.(temps := temp), a.code + [CallI(temp, f, a.args)], temp)
  }

  // ----- Statements -----

  function OnExpr(g: Context, x: ExprCode): StmtCode {
    StmtCode(g.(c := x.c), x.code)
  }

  function InNewScope(g: Context): Context { g.(table := EnterScope(g.table)) }

  function LeaveScope(g: Context): Context { g.(table := ExitScope(g.table)) }

  function TakeLabels(g: Context, n: nat): Context {
    g.(c := g.c.(labels := g.c.labels + n))
  }

  /** A condition and its conversion to i1. */
  function GenTest(t: Scopes<Symbol>, c: Counters, e: Expr): ExprCode {
    var x := GenExpr(t, c, e);
    var xb := GenTruth(x.c, e, x.r);
    ExprCode(xb.c, x.code + xb.code, xb.r)
  }

  /** The branch that closes a block unless the block closed itself. */
  function Closing(closed: bool, l: Label): seq<Instr> {
    if closed then [] else [Br(l)]
  }

  /** generate_statement: nothing is emitted once the current block has ended. */
  function GenStmt(g: Context, s: Stmt): StmtCode
    decreases s, 0
  {
    if g.inReturnBlock then StmtCode(g, [])
    else
      match s
      case Block(ss) =>
        var b := GenStmts(InNewScope(g), ss);
        StmtCode(LeaveScope(b.g), b.code)
      case Decl(x, init) => GenDecl(g, x, init)
      case ExprStmt(e) => OnExpr(g, GenExpr(g.table.scopes, g.c, e))
      case If(c, t, f) =>
        var x := GenTest(g.table.scopes, TakeLabels(g, 3).c, c);
        var a := GenScoped(g.(c := x.c), t);
        if f.None? then IfCode(g, x, a) else IfElseCode(g, x, a, GenScoped(AfterThen(a), f.value))
      case While(c, body) =>
        var x := GenTest(g.table.scopes, TakeLabels(g, 3).c, c);
        WhileCode(g, x, GenScoped(WhileContext(g, x.c), body))
      case DoWhile(body, c) =>
        var b := GenScoped(DoContext(g), body);
        DoCode(g, b, GenTest(b.g.table.scopes, b.g.c, c))
      case For(first, c, u, body) =>
        var i := GenStmt(ForContext(g), first);
        var x := GenGuard(i.g.table.scopes, i.g.c, c, ForBody(g), ForEnd(g));
        var b := GenStmt(i.g.(c := x.c, inReturnBlock := false), body);
        ForCode(g, i, x, b, GenUpdate(b.g.table.scopes, b.g.c, u))
      case Break => GenJump(g, g.breakLabel)
      case Continue => GenJump(g, g.continueLabel)
      case Return(e) => ReturnCode(g, e, GenExpr(g.table.scopes, g.c, e))
      case Empty => StmtCode(g, [])
  }

  function GenStmts(g: Context, ss: seq<Stmt>): StmtCode
    decreases ss, 0
  {
    if ss == [] || g.inReturnBlock then StmtCode(g, [])
    else
      var x := GenStmt(g, ss[0]);
      var xs := GenStmts(x.g, ss[1..]);
      StmtCode(xs.g, x.code + xs.code)
  }

  /** A branch or loop body in a scope of its own. */
  function GenScoped(g: Context, s: Stmt): StmtCode
    decreases s, 1
  {
    var b := GenStmt(InNewScope(g), s);
    StmtCode(LeaveScope(b.g), b.code)
  }

  function GenJump(g: Context, l: Option<Label>): StmtCode {
    if l.None? then StmtCode(g.(c := AddError(g.c)), [])
    else StmtCode(g.(inReturnBlock := true), [Br(l.value)])
  }

  /** The name is in scope in its own initializer. */
  function GenDecl(g: Context, x: string, init: Option<Expr>): StmtCode {
    if x in g.table.scopes.vars then StmtCode(g.(c := AddError(g.c)), [])
    else
      var slot := SlotOf(NewSymbol(g.table, x, VariableSymbol, false));
      var g1 := g.(table := AddSymbol(g.table, x, VariableSymbol, false));
      if init.None? then StmtCode(g1, [Alloca(slot, I32)])
      else InitCode(g1, slot, init.value, GenExpr(g1.table.scopes, g1.c, init.value))
  }

  function InitCode(g: Context, slot: Slot, e: Expr, v: ExprCode): StmtCode {
    var w := GenToInt(v.c, e, v.r);
    StmtCode(g.(c := w.c), [Alloca(slot, I32)] + (v.code + (w.code + [Store(I32, OperandOf(e, w.r), slot)])))
  }

  function ReturnCode(g: Context, e: Expr, x: ExprCode): StmtCode {
    var w := GenToInt(x.c, e, x.r);
    StmtCode(g.(c := w.c, inReturnBlock := true), x.code + (w.code + [Ret(OperandOf(e, w.r))]))
  }

  function AfterThen(a: StmtCode): Context { a.g.(inReturnBlock := false) }

  function IfThen(g: Context): Label { Label("if_then", g.c.labels + 1) }
  function IfElse(g: Context): Label { Label("if_else", g.c.labels + 2) }
  function IfEnd(g: Context): Label { Label("if_end", g.c.labels + 3) }

  function IfCode(g: Context, x: ExprCode, a: StmtCode): StmtCode {
    StmtCode(
      AfterThen(a),
      x.code
      + ([CondBr(x.r, IfThen(g), IfEnd(g)), LabelDef(IfThen(g))]
         + (a.code + (Closing(a.g.inReturnBlock, IfEnd(g)) + [LabelDef(IfEnd(g))]))))
  }

  function IfElseCode(g: Context, x: ExprCode, a: StmtCode, b: StmtCode): StmtCode {
    var ends := a.g.inReturnBlock && b.g.inReturnBlock;
    StmtCode(
      b.g.(inReturnBlock := ends),
      x.code
      + ([CondBr(x.r, IfThen(g), IfElse(g)), LabelDef(IfThen(g))]
         + (a.code
            + (Closing(a.g.inReturnBlock, IfEnd(g))
               + ([LabelDef(IfElse(g))]
                  + (b.code
                     + (Closing(b.g.inReturnBlock, IfEnd(g))
                        + if ends then [] else [LabelDef(IfEnd(g))])))))))
  }

  /** A loop's body sees the loop's own break and continue labels. */
  function InLoop(g: Context, brk: Label, cont: Label): Context {
    g.(breakLabel := Some(brk), continueLabel := Some(cont))
  }

  function AfterLoop(g: Context, after: Context): Context {
    after.(inReturnBlock := g.inReturnBlock, breakLabel := g.breakLabel, continueLabel := g.continueLabel)
  }

  function WhileCond(g: Context): Label { Label("while_cond", g.c.labels + 1) }
  function WhileBody(g: Context): Label { Label("while_body", g.c.labels + 2) }
  function WhileEnd(g: Context): Label { Label("while_end", g.c.labels + 3) }

  function WhileContext(g: Context, c: Counters): Context {
    InLoop(g, WhileEnd(g), WhileCond(g)).(c := c)
  }

  function WhileCode(g: Context, x: ExprCode, b: StmtCode): StmtCode {
    StmtCode(
      AfterLoop(g, b.g),
      [Br(WhileCond(g)), LabelDef(WhileCond(g))]
      + (x.code
         + ([CondBr(x.r, WhileBody(g), WhileEnd(g)), LabelDef(WhileBody(g))]
            + (b.code + (Closing(b.g.inReturnBlock, WhileCond(g)) + [LabelDef(WhileEnd(g))])))))
  }

  function DoBody(g: Context): Label { Label("do_body", g.c.labels + 1) }
  function DoCond(g: Context): Label { Label("do_cond", g.c.labels + 2) }
  function DoEnd(g: Context): Label { Label("do_end", g.c.labels + 3) }

  function DoContext(g: Context): Context {
    InLoop(TakeLabels(g, 3), DoEnd(g), DoCond(g))
  }

  function DoCode(g: Context, b: StmtCode, x: ExprCode): StmtCode {
    StmtCode(
      AfterLoop(g, b.g.(c := x.c)),
      [Br(DoBody(g)), LabelDef(DoBody(g))]
      + (b.code
         + (Closing(b.g.inReturnBlock, DoCond(g))
            + ([LabelDef(DoCond(g))] + (x.code + [CondBr(x.r, DoBody(g), DoEnd(g)), LabelDef(DoEnd(g))])))))
  }

  function ForCond(g: Context): Label { Label("for_cond", g.c.labels + 1) }
  function ForBody(g: Context): Label { Label("for_body", g.c.labels + 2) }
  function ForUpdate(g: Context): Label { Label("for_update", g.c.labels + 3) }
  function ForEnd(g: Context): Label { Label("for_end", g.c.labels + 4) }

  /** One scope holds the initialization and the body. */
  function ForContext(g: Context): Context {
    InNewScope(InLoop(TakeLabels(g, 4), ForEnd(g), ForUpdate(g)))
  }

  /** The test of a `for`; a missing one always enters the body. */
  function GenGuard(t: Scopes<Symbol>, c: Counters, e: Option<Expr>, bodyLabel: Label, endLabel: Label): ExprCode {
    if e.None? then ExprCode(c, [Br(bodyLabel)], 0)
    else
      var x := GenTest(t, c, e.value);
      ExprCode(x.c, x.code + [CondBr(x.r, bodyLabel, endLabel)], x.r)
  }

  function GenUpdate(t: Scopes<Symbol>, c: Counters, e: Option<Expr>): ExprCode {
    if e.None? then ExprCode(c, [], 0) else GenExpr(t, c, e.value)
  }

  function ForCode(g: Context, i: StmtCode, x: ExprCode, b: StmtCode, y: ExprCode): StmtCode {
    StmtCode(
      AfterLoop(g, LeaveScope(b.g.(c := y.c))),
      i.code
      + ([Br(ForCond(g)), LabelDef(ForCond(g))]
         + (x.code
            + ([LabelDef(ForBody(g))]
               + (b.code
                  + (Closing(b.g.inReturnBlock, ForUpdate(g))
                     + ([LabelDef(ForUpdate(g))]
                        + (y.code + [Br(ForCond(g)), LabelDef(ForEnd(g))]))))))))
  }

  // ----- Functions and programs -----

  /** Each incoming parameter is copied into a slot of its own. */
  function GenParams(t: Table, params: seq<string>): TableCode
    decreases params
  {
    if params == [] then TableCode(t, [])
    else
      var x := params[0];
      var rest := GenParams(AddSymbol(t, x, VariableSymbol, true), params[1..]);
      if x in t.scopes.vars then rest
      else
        var slot := SlotOf(NewSymbol(t, x, VariableSymbol, true));
        TableCode(rest.table, [Alloca(slot, I32), Store(I32, Incoming(x), slot)] + rest.code)
  }

  /** The state in which a function's parameters are declared. */
  function FunctionEntry(g: Context, f: FunDef): Context {
    InNewScope(g.(table := AddSymbol(g.table, f.name, FunctionSymbol, false).(fn := Some(f.name)),
                  inReturnBlock := false))
  }

  /** The state in which a function's body is generated. */
  function BodyContext(g: Context, f: FunDef): Context {
    FunctionEntry(g, f).(table := GenParams(FunctionEntry(g, f).table, f.params).table)
  }

  /** Falling off the end returns 0. */
  function Epilogue(closed: bool): seq<Instr> { if closed then [] else [Ret(Imm(0))] }

  function GenFunction(g: Context, f: FunDef): StmtCode {
    var b := GenStmt(BodyContext(g, f), f.body);
    StmtCode(LeaveScope(b.g),
             GenParams(FunctionEntry(g, f).table, f.params).code + (b.code + Epilogue(b.g.inReturnBlock)))
  }
}
