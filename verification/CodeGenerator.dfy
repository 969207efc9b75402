/** The code generator as it works: one walk over the tree that updates its
    counters, its flag, its loop labels and the symbol table and appends to its
    output.  Every method leaves what the functions in Codegen say. */
module CodeGenerators {
  import opened Options
  import opened Ast
  import opened Scopes
  import opened Ir
  import opened Codegen
  import opened SymbolTables
  import opened Programs

  class CodeGenerator {
    const table: SymbolTable
    var output: seq<Instr>
    var items: seq<TopItem>
    var labelCounter: nat
    var tempCounter: nat
    var errors: nat
    var inReturnBlock: bool
    var breakLabel: Option<Label>
    var continueLabel: Option<Label>

    ghost predicate Valid()
      reads table, table.stack, set s: Scope | s in table.stack :: s.buckets
    {
      table.Valid()
    }

    ghost function Count(): Counters
      reads this`labelCounter, this`tempCounter, this`errors
    {
      Counters(labelCounter, tempCounter, errors)
    }

    /** All of the state but the output. */
    ghost function State(): Context
      requires Valid()
      reads this, table, table.stack, set s: Scope | s in table.stack :: s.buckets
    {
      Context(table.Table(), Count(), inReturnBlock, breakLabel, continueLabel)
    }

    constructor (hash: string -> nat)
      ensures Valid() && fresh(table.Repr())
      ensures State() == FileStart() && output == [] && items == []
    {
      table := new SymbolTable(hash);
      output, items := [], [];
      labelCounter, tempCounter, errors := 0, 0, 0;
      inReturnBlock := false;
      breakLabel, continueLabel := None, None;
    }

    method Emit(i: Instr)
      modifies this`output
      ensures output == Join(old(output), [i])
    {
      output := output + [i];
    }

    method GenerateLabel(prefix: string) returns (l: Label)
      modifies this`labelCounter
      ensures labelCounter == old(labelCounter) + 1 && l == Label(prefix, labelCounter)
    {
      labelCounter := labelCounter + 1;
      l := Label(prefix, labelCounter);
    }

    method GetNextTemp() returns (t: nat)
      modifies this`tempCounter
      ensures tempCounter == old(tempCounter) + 1 && t == tempCounter
    {
      tempCounter := tempCounter + 1;
      t := tempCounter;
    }

    // ----- Conversions -----

    method CastValue(r: int, ty: Type) returns (r': int)
      modifies this`output, this`tempCounter
      ensures
        var x := GenCast(old(Count()), r, ty);
        Count() == x.c && output == Join(old(output), x.code) && r' == x.r
    {
      if ty == I32 {
        return r;
      }
      r' := GetNextTemp();
      Emit(Sext(r', r));
    }

    method ToInt(e: Expr, r: int) returns (r': int)
      modifies this`output, this`tempCounter
      ensures
        var x := GenToInt(old(Count()), e, r);
        Count() == x.c && output == Join(old(output), x.code) && r' == x.r
    {
      if e.Number? {
        return r;
      }
      r' := CastValue(r, TypeOf(e));
    }

    method Promote(e: Expr, r: int) returns (r': int)
      modifies this`output, this`tempCounter
      ensures
        var x := GenPromote(old(Count()), e, r);
        Count() == x.c && output == Join(old(output), x.code) && r' == x.r
    {
      if IsComparison(e) {
        r' := GetNextTemp();
        Emit(Zext(r', r));
      } else {
        r' := ToInt(e, r);
      }
    }

    method ConvertToBoolean(e: Expr, r: int) returns (r': int)
      modifies this`output, this`tempCounter
      ensures
        var x := GenTruth(old(Count()), e, r);
        Count() == x.c && output == Join(old(output), x.code) && r' == x.r
    {
      if IsComparison(e) {
        return r;
      }
      r' := GetNextTemp();
      Emit(Icmp(r', NeP, OperandOf(e, r), Imm(0)));
    }

    // ----- Expressions -----

    ghost predicate ExprSpec(x: ExprCode, output0: seq<Instr>, r: int)
      reads this
    {
      Count() == x.c && output == Join(output0, x.code) && r == x.r
    }

    method GenerateExpression(e: Expr) returns (r: int)
      requires Valid()
      modifies this`output, this`labelCounter, this`tempCounter, this`errors
      ensures ExprSpec(GenExpr(table.Table().scopes, old(Count()), e), old(output), r)
      decreases e, 1
    {
      match e
      case Number(v) => r := v;
      case Var(x) =>
        var sym := table.FindSymbol(x);
        if sym.None? {
          errors := errors + 1;
          return -1;
        }
        r := GetNextTemp();
        Emit(Load(r, I32, SlotOf(sym.value)));
      case Binary(op, _, _) =>
        if op == LAnd || op == LOr {
          r := GenerateLogical(e);
        } else {
          r := GenerateOperator(e);
        }
      case Assign(_, _) => r := GenerateAssignment(e);
      case Unary(op, _) =>
        if IsStep(op) {
          r := GenerateStep(e);
        } else {
          r := GenerateUnary(e);
        }
      case Cond(_, _, _) => r := GenerateConditional(e);
      case Call(_, _) => r := GenerateCall(e);
    }

    /** An expression and its conversion to i1. */
    method GenerateTest(e: Expr) returns (r: int)
      requires Valid()
      modifies this`output, this`labelCounter, this`tempCounter, this`errors
      ensures ExprSpec(GenTest(table.Table().scopes, old(Count()), e), old(output), r)
      decreases e, 2
    {
      hide GenExpr, GenTruth;
      r := GenerateExpression(e);
      r := ConvertToBoolean(e, r);
    }

    /** An expression on its way into an int. */
    method GenerateValue(e: Expr) returns (r: int)
      requires Valid()
      modifies this`output, this`labelCounter, this`tempCounter, this`errors
      ensures ExprSpec(GenValue(table.Table().scopes, old(Count()), e), old(output), r)
      decreases e, 2
    {
      hide GenExpr, GenToInt;
      r := GenerateExpression(e);
      r := ToInt(e, r);
    }

    /** Three labels and a slot for the result, named after a temporary. */
    method ReserveResult(a: string, b: string, d: string, ty: Type) returns (l1: Label, l2: Label, l3: Label, slot: int)
      modifies this`output, this`labelCounter, this`tempCounter
      ensures Count() == Reserve(old(Count())) && output == Join(old(output), [Alloca(ResultSlot(old(Count())), ty)])
      ensures l1 == Label(a, old(labelCounter) + 1) && l2 == Label(b, old(labelCounter) + 2)
              && l3 == Label(d, old(labelCounter) + 3)
      ensures TempAddr(slot) == ResultSlot(old(Count()))
    {
      l1 := GenerateLabel(a);
      l2 := GenerateLabel(b);
      l3 := GenerateLabel(d);
      slot := GetNextTemp();
      Emit(Alloca(TempAddr(slot), ty));
    }

    method GenerateLogical(e: Expr) returns (r: int)
      requires Valid() && e.Binary? && (e.op == LAnd || e.op == LOr)
      modifies this`output, this`labelCounter, this`tempCounter, this`errors
      ensures ExprSpec(GenExpr(table.Table().scopes, old(Count()), e), old(output), r)
      decreases e, 0
    {
      hide LogicalShortcut, LogicalExit, GenTest, GenExpr, LogicalCode, Join, SymbolTable.Valid, SymbolTable.Table;
      ghost var out0, c0, t := output, Count(), table.Table().scopes;
      var left, right, end, slot := ReserveResult("logical_left", "logical_right", "logical_end", I1);
      var x := GenerateTest(e.left);
      ghost var xc := GenTest(t, Reserve(c0), e.left);
      EmitShortcut(e.op, x, left, right, end, slot, c0);
      var y := GenerateTest(e.right);
      ghost var yc := GenTest(t, xc.c, e.right);
      r := EmitExit(y, end, slot, c0);
      LogicalJoined(t, c0, e);
      Joined5(out0, [Alloca(ResultSlot(c0), I1)], xc.code, LogicalShortcut(c0, e.op, xc.r), yc.code,
              LogicalExit(c0, yc.r, yc.c.temps + 1));
    }

    method EmitShortcut(op: BinaryOp, test: int, left: Label, right: Label, end: Label, slot: int, ghost c: Counters)
      requires left == LogicalLeft(c) && right == LogicalRight(c) && end == LogicalEnd(c)
               && TempAddr(slot) == ResultSlot(c)
      requires op == LAnd || op == LOr
      modifies this`output
      ensures output == Join(old(output), LogicalShortcut(c, op, test))
    {
      if op == LAnd {
        Emit(CondBr(test, right, left));
      } else {
        Emit(CondBr(test, left, right));
      }
      Emit(LabelDef(left));
      Emit(Store(I1, Flag(op == LOr), TempAddr(slot)));
      Emit(Br(end));
      Emit(LabelDef(right));
    }

    method EmitExit(value: int, end: Label, slot: int, ghost c: Counters) returns (r: int)
      requires end == LogicalEnd(c) && TempAddr(slot) == ResultSlot(c)
      modifies this`output, this`tempCounter
      ensures output == Join(old(output), LogicalExit(c, value, old(tempCounter) + 1))
      ensures r == tempCounter == old(tempCounter) + 2
    {
      Emit(Store(I1, Tmp(value), TempAddr(slot)));
      Emit(Br(end));
      Emit(LabelDef(end));
      var final := GetNextTemp();
      Emit(Load(final, I1, TempAddr(slot)));
      r := GetNextTemp();
      Emit(Zext(r, final));
    }

    method GenerateOperator(e: Expr) returns (r: int)
      requires Valid() && e.Binary? && e.op != LAnd && e.op != LOr
      modifies this`output, this`labelCounter, this`tempCounter, this`errors
      ensures ExprSpec(GenExpr(table.Table().scopes, old(Count()), e), old(output), r)
      decreases e, 0
    {
      hide GenPromote, SymbolTable.Valid, SymbolTable.Table, Join;
      ghost var out0, c0, t := output, Count(), table.Table().scopes;
      var x := GenerateExpression(e.left);
      ghost var xc := GenExpr(t, c0, e.left);
      var y := GenerateExpression(e.right);
      ghost var yc := GenExpr(t, xc.c, e.right);
      var temp := GetNextTemp();
      ghost var c1 := Count();
      x := Promote(e.left, x);
      ghost var px := GenPromote(c1, e.left, xc.r);
      y := Promote(e.right, y);
      ghost var py := GenPromote(px.c, e.right, yc.r);
      ghost var last := OperatorInstr(e.op, temp, OperandOf(e.left, x), OperandOf(e.right, y));
      if IsComparisonOp(e.op) {
        Emit(Icmp(temp, PredicateOf(e.op), OperandOf(e.left, x), OperandOf(e.right, y)));
      } else {
        Emit(Arith(temp, OpcodeOf(e.op), OperandOf(e.left, x), OperandOf(e.right, y)));
      }
      Joined5(out0, xc.code, yc.code, px.code, py.code, [last]);
      r := temp;
    }

    method GenerateAssignment(e: Expr) returns (r: int)
      requires Valid() && e.Assign?
      modifies this`output, this`labelCounter, this`tempCounter, this`errors
      ensures ExprSpec(GenExpr(table.Table().scopes, old(Count()), e), old(output), r)
      decreases e, 0
    {
      ghost var out0, c0, t := output, Count(), table.Table().scopes;
      var value := GenerateExpression(e.rhs);
      ghost var v := GenExpr(t, c0, e.rhs);
      var sym := table.FindSymbol(e.name);
      if sym.None? {
        errors := errors + 1;
        return -1;
      }
      r := ToInt(e.rhs, value);
      ghost var w := GenToInt(v.c, e.rhs, v.r);
      Emit(Store(I32, OperandOf(e.rhs, r), SlotOf(sym.value)));
      Joined3(out0, v.code, w.code, [Store(I32, OperandOf(e.rhs, r), SlotOf(sym.value))]);
    }

    method GenerateStep(e: Expr) returns (r: int)
      requires Valid() && e.Unary? && IsStep(e.uop)
      modifies this`output, this`labelCounter, this`tempCounter, this`errors
      ensures ExprSpec(GenExpr(table.Table().scopes, old(Count()), e), old(output), r)
    {
      hide SymbolTable.Valid, SymbolTable.Table;
      var sym := None;
      if e.operand.Var? {
        sym := table.FindSymbol(e.operand.name);
      }
      if sym.None? {
        errors := errors + 1;
        return -1;
      }
      var before := GetNextTemp();
      var after := GetNextTemp();
      EmitStep(before, after, e.uop, SlotOf(sym.value));
      r := if e.uop == PreInc || e.uop == PreDec then after else before;
    }

    method EmitStep(before: int, after: int, op: UnaryOp, slot: Slot)
      modifies this`output
      ensures
        output == Join(old(output), [Load(before, I32, slot),
                                     Arith(after, if op == PreInc || op == PostInc then AddI else SubI,
                                           Tmp(before), Imm(1)),
                                     Store(I32, Tmp(after), slot)])
    {
      Emit(Load(before, I32, slot));
      if op == PreInc || op == PostInc {
        Emit(Arith(after, AddI, Tmp(before), Imm(1)));
      } else {
        Emit(Arith(after, SubI, Tmp(before), Imm(1)));
      }
      Emit(Store(I32, Tmp(after), slot));
    }

    method GenerateUnary(e: Expr) returns (r: int)
      requires Valid() && e.Unary? && !IsStep(e.uop)
      modifies this`output, this`labelCounter, this`tempCounter, this`errors
      ensures ExprSpec(GenExpr(table.Table().scopes, old(Count()), e), old(output), r)
      decreases e, 0
    {
      var x := GenerateExpression(e.operand);
      r := GetNextTemp();
      Emit(UnaryInstr(e.uop, r, OperandOf(e.operand, x)));
    }

    method GenerateConditional(e: Expr) returns (r: int)
      requires Valid() && e.Cond?
      modifies this`output, this`labelCounter, this`tempCounter, this`errors
      ensures ExprSpec(GenExpr(table.Table().scopes, old(Count()), e), old(output), r)
      decreases e, 0
    {
      hide CondChoice, CondElse, CondExit, GenTest, GenValue, GenExpr, Join, SymbolTable.Valid, SymbolTable.Table;
      ghost var out0, c0, t := output, Count(), table.Table().scopes;
      var yes, no, end, slot := ReserveResult("cond_true", "cond_false", "cond_end", I32);
      var q := GenerateTest(e.cond);
      ghost var xc := GenTest(t, Reserve(c0), e.cond);
      EmitChoice(q, yes, no, c0);
      var a := GenerateValue(e.thenExpr);
      ghost var yc := GenValue(t, xc.c, e.thenExpr);
      EmitElse(OperandOf(e.thenExpr, a), no, end, slot, c0);
      var b := GenerateValue(e.elseExpr);
      ghost var zc := GenValue(t, yc.c, e.elseExpr);
      r := EmitCondEnd(OperandOf(e.elseExpr, b), end, slot, c0);
      CondJoined(t, c0, e);
      Joined7(out0, [Alloca(ResultSlot(c0), I32)], xc.code, CondChoice(c0, xc.r), yc.code,
              CondElse(c0, OperandOf(e.thenExpr, yc.r)), zc.code,
              CondExit(c0, OperandOf(e.elseExpr, zc.r), zc.c.temps + 1));
    }

    method EmitChoice(test: int, yes: Label, no: Label, ghost c: Counters)
      requires yes == CondTrue(c) && no == CondFalse(c)
      modifies this`output
      ensures output == Join(old(output), CondChoice(c, test))
    {
      Emit(CondBr(test, yes, no));
      Emit(LabelDef(yes));
    }

    method EmitElse(v: Operand, no: Label, end: Label, slot: int, ghost c: Counters)
      requires no == CondFalse(c) && end == CondEnd(c) && TempAddr(slot) == ResultSlot(c)
      modifies this`output
      ensures output == Join(old(output), CondElse(c, v))
    {
      Emit(Store(I32, v, TempAddr(slot)));
      Emit(Br(end));
      Emit(LabelDef(no));
    }

    method EmitCondEnd(v: Operand, end: Label, slot: int, ghost c: Counters) returns (r: int)
      requires end == CondEnd(c) && TempAddr(slot) == ResultSlot(c)
      modifies this`output, this`tempCounter
      ensures output == Join(old(output), CondExit(c, v, old(tempCounter) + 1))
      ensures r == tempCounter == old(tempCounter) + 1
    {
      Emit(Store(I32, v, TempAddr(slot)));
      Emit(Br(end));
      Emit(LabelDef(end));
      r := GetNextTemp();
      Emit(Load(r, I32, TempAddr(slot)));
    }

    /** The arguments' code in order. */
    method GenerateArguments(es: seq<Expr>) returns (args: seq<Arg>)
      requires Valid()
      modifies this`output, this`labelCounter, this`tempCounter, this`errors
      ensures
        var x := GenArgs(table.Table().scopes, old(Count()), es);
        Count() == x.c && output == Join(old(output), x.code) && args == x.args
      decreases es
    {
      hide GenExpr, GenArgs, SymbolTable.Valid, SymbolTable.Table, Join;
      ghost var out0, c0, t := output, Count(), table.Table().scopes;
      args := [];
      var i := 0;
      JoinedNone(output);
      NoArgs(t, c0, es);
      while i < |es|
        invariant 0 <= i <= |es|
        invariant Valid() && table.Table().scopes == t
        invariant
          var x := GenArgs(t, c0, es[..i]);
          Count() == x.c && output == Join(out0, x.code) && args == x.args
      {
        ghost var x := GenArgs(t, c0, es[..i]);
        var v := GenerateExpression(es[i]);
        args := args + [Arg(TypeOf(es[i]), OperandOf(es[i], v))];
        ArgsSnoc(t, c0, es, i);
        Joined2(out0, x.code, GenExpr(t, x.c, es[i]).code);
        i := i + 1;
      }
      assert es[..i] == es;
    }

    method GenerateCall(e: Expr) returns (r: int)
      requires Valid() && e.Call?
      modifies this`output, this`labelCounter, this`tempCounter, this`errors
      ensures ExprSpec(GenExpr(table.Table().scopes, old(Count()), e), old(output), r)
      decreases e, 0
    {
      hide GenArgs, SymbolTable.Valid, SymbolTable.Table, Join;
      ghost var out0, a := output, GenArgs(table.Table().scopes, Count(), e.args);
      var args := GenerateArguments(e.args);
      r := GetNextTemp();
      Emit(CallI(r, e.callee, args));
      Joined2(out0, a.code, [CallI(r, e.callee, args)]);
    }

    // ----- Steps of the walk -----

    /** The state and the output are as x says. */
    ghost predicate Done(x: StmtCode, output0: seq<Instr>)
      reads this, table, table.stack, set s: Scope | s in table.stack :: s.buckets
    {
      Valid() && State() == x.g && output == Join(output0, x.code)
    }

    method Lines(lines: seq<Instr>)
      requires Valid()
      modifies this`output
      ensures Done(StmtCode(old(State()), lines), old(output)) && table.Repr() == old(table.Repr())
    {
      output := output + lines;
    }

    method SetContext(closed: bool, brk: Option<Label>, cont: Option<Label>)
      requires Valid()
      modifies this`inReturnBlock, this`breakLabel, this`continueLabel
      ensures Valid() && State() == old(State()).(inReturnBlock := closed, breakLabel := brk, continueLabel := cont)
      ensures table.Repr() == old(table.Repr())
    {
      inReturnBlock, breakLabel, continueLabel := closed, brk, cont;
    }

    method ReportError()
      requires Valid()
      modifies this`errors
      ensures Valid() && State() == old(State()).(c := AddError(old(State()).c)) && table.Repr() == old(table.Repr())
    {
      errors := errors + 1;
    }

    method NewLabel(prefix: string) returns (l: Label)
      requires Valid()
      modifies this`labelCounter
      ensures Valid() && State() == TakeLabels(old(State()), 1) && l == Label(prefix, old(State()).c.labels + 1)
      ensures table.Repr() == old(table.Repr())
    {
      l := GenerateLabel(prefix);
    }

    method Expression(e: Expr) returns (r: int)
      requires Valid()
      modifies this`output, this`labelCounter, this`tempCounter, this`errors
      ensures
        var x := GenExpr(old(State()).table.scopes, old(State()).c, e);
        Done(OnExpr(old(State()), x), old(output)) && r == x.r
      ensures table.Repr() == old(table.Repr())
    {
      hide GenExpr;
      r := GenerateExpression(e);
    }

    method Test(e: Expr) returns (r: int)
      requires Valid()
      modifies this`output, this`labelCounter, this`tempCounter, this`errors
      ensures
        var x := GenTest(old(State()).table.scopes, old(State()).c, e);
        Done(OnExpr(old(State()), x), old(output)) && r == x.r
      ensures table.Repr() == old(table.Repr())
    {
      hide GenTest;
      r := GenerateTest(e);
    }

    method IntValue(e: Expr) returns (r: int)
      requires Valid()
      modifies this`output, this`labelCounter, this`tempCounter, this`errors
      ensures
        var x := GenValue(old(State()).table.scopes, old(State()).c, e);
        Done(OnExpr(old(State()), x), old(output)) && r == x.r
      ensures table.Repr() == old(table.Repr())
    {
      hide GenValue;
      r := GenerateValue(e);
    }

    method OpenScope()
      requires Valid()
      modifies table
      ensures Valid() && State() == InNewScope(old(State()))
      ensures fresh(table.Repr() - old(table.Repr()))
    {
      table.EnterScope();
    }

    method CloseScope()
      requires Valid()
      modifies table
      ensures Valid() && State() == LeaveScope(old(State()))
      ensures fresh(table.Repr() - old(table.Repr()))
    {
      table.ExitScope();
    }

    method Declare(x: string) returns (slot: Slot)
      requires Valid() && x !in State().table.scopes.vars
      modifies table.Repr()
      ensures Valid() && State()
              == old(State()).(table := Codegen.AddSymbol(old(State()).table, x, VariableSymbol, false))
      ensures slot == SlotOf(NewSymbol(old(State()).table, x, VariableSymbol, false))
      ensures fresh(table.Repr() - old(table.Repr()))
    {
      hide SymbolTable.Valid, SymbolTable.Table, Codegen.AddSymbol, NewSymbol;
      FindsNew(State().table, x);
      var added := table.AddSymbol(x, VariableSymbol, false);
      var sym := table.FindSymbol(x);
      slot := SlotOf(sym.value);
    }

    // ----- Statements -----

    /** generate_statement. */
    method GenerateStatement(s: Stmt)
      requires Valid()
      modifies this`output, this`labelCounter, this`tempCounter, this`errors, this`inReturnBlock, this`breakLabel,
               this`continueLabel, table.Repr()
      ensures Done(GenStmt(old(State()), s), old(output))
      ensures fresh(table.Repr() - old(table.Repr()))
      decreases s, 8
    {
      hide GenExpr, GenTest, GenDecl, ReturnCode, SymbolTable.Valid, SymbolTable.Table;
      JoinedNone(output);
      if inReturnBlock {
        return;
      }
      match s
      case Block(ss) => GenerateCompoundStatement(ss);
      case Decl(_, _) => GenerateDeclaration(s);
      case ExprStmt(e) => var _ := Expression(e);
      case If(_, _, f) =>
        if f.Some? {
          GenerateIfElse(s);
        } else {
          GenerateIf(s);
        }
      case While(_, _) => GenerateWhile(s);
      case DoWhile(_, _) => GenerateDoWhile(s);
      case For(_, _, _, _) => GenerateFor(s);
      case Break => GenerateJump(breakLabel);
      case Continue => GenerateJump(continueLabel);
      case Return(e) => GenerateReturn(e);
      case Empty =>
    }

    method GenerateJump(l: Option<Label>)
      requires Valid()
      modifies this`output, this`labelCounter, this`tempCounter, this`errors, this`inReturnBlock, this`breakLabel,
               this`continueLabel, table.Repr()
      ensures Done(GenJump(old(State()), l), old(output))
      ensures fresh(table.Repr() - old(table.Repr()))
    {
      hide SymbolTable.Valid, SymbolTable.Table;
      JoinedNone(output);
      if l.None? {
        ReportError();
        return;
      }
      Lines([Br(l.value)]);
      SetContext(true, breakLabel, continueLabel);
    }

    method GenerateReturn(e: Expr)
      requires Valid()
      modifies this`output, this`labelCounter, this`tempCounter, this`errors, this`inReturnBlock, this`breakLabel,
               this`continueLabel, table.Repr()
      ensures Done(ReturnCode(old(State()), e, GenExpr(old(State()).table.scopes, old(State()).c, e)), old(output))
      ensures fresh(table.Repr() - old(table.Repr()))
    {
      hide GenExpr, GenToInt, SymbolTable.Valid, SymbolTable.Table, Join;
      ghost var g0, out0 := State(), output;
      var r := IntValue(e);
      Lines([Ret(OperandOf(e, r))]);
      SetContext(true, breakLabel, continueLabel);
      ReturnJoined(g0, e);
      Joined2(out0, GenValue(g0.table.scopes, g0.c, e).code, [Ret(OperandOf(e, r))]);
    }

    method GenerateDeclaration(s: Stmt)
      requires Valid() && s.Decl?
      modifies this`output, this`labelCounter, this`tempCounter, this`errors, this`inReturnBlock, this`breakLabel,
               this`continueLabel, table.Repr()
      ensures Done(GenDecl(old(State()), s.name, s.init), old(output))
      ensures fresh(table.Repr() - old(table.Repr()))
    {
      hide GenExpr, InitCode, SymbolTable.Valid, SymbolTable.Table, CodeGenerator.Count, Join;
      JoinedNone(output);
      var found := InInnermostScope(s.name);
      if found {
        ReportError();
        return;
      }
      var slot := Declare(s.name);
      if s.init.None? {
        Lines([Alloca(slot, I32)]);
      } else {
        GenerateInitializer(slot, s.init.value);
      }
    }

    method GenerateInitializer(slot: Slot, e: Expr)
      requires Valid()
      modifies this`output, this`labelCounter, this`tempCounter, this`errors
      ensures Done(InitCode(old(State()), slot, e, GenExpr(old(State()).table.scopes, old(State()).c, e)), old(output))
      ensures table.Repr() == old(table.Repr())
    {
      hide GenExpr, GenToInt, SymbolTable.Valid, SymbolTable.Table, Join;
      ghost var g0, out0 := State(), output;
      Lines([Alloca(slot, I32)]);
      var r := IntValue(e);
      Lines([Store(I32, OperandOf(e, r), slot)]);
      InitJoined(g0, slot, e);
      Joined3(out0, [Alloca(slot, I32)], GenValue(g0.table.scopes, g0.c, e).code, [Store(I32, OperandOf(e, r), slot)]);
    }

    method InInnermostScope(x: string) returns (found: bool)
      requires Valid()
      ensures found <==> x in State().table.scopes.vars
    {
      var sym := table.currentScope.FindSymbolInScope(x);
      found := sym.Some?;
    }

    method GenerateCompoundStatement(ss: seq<Stmt>)
      requires Valid() && !inReturnBlock
      modifies this`output, this`labelCounter, this`tempCounter, this`errors, this`inReturnBlock, this`breakLabel,
               this`continueLabel, table.Repr()
      ensures Done(GenStmt(old(State()), Block(ss)), old(output))
      ensures fresh(table.Repr() - old(table.Repr()))
      decreases ss, 0
    {
      hide GenStmt, SymbolTable.Valid, SymbolTable.Table, CodeGenerator.Count, Join;
      ghost var g0, out0 := State(), output;
      OpenScope();
      ghost var g1 := State();
      JoinedNone(output);
      NoStmts(g1, ss);
      var i := 0;
      while i < |ss| && !inReturnBlock
        invariant 0 <= i <= |ss|
        invariant Done(GenStmts(g1, ss[..i]), out0)
        invariant fresh(table.Repr() - old(table.Repr()))
      {
        ghost var x := GenStmts(g1, ss[..i]);
        GenerateStatement(ss[i]);
        StmtsSnoc(g1, ss, i);
        Joined2(out0, x.code, GenStmt(x.g, ss[i]).code);
        i := i + 1;
      }
      StmtsStop(g1, ss, i);
      CloseScope();
      BlockJoined(g0, ss);
    }

    /** A branch or a loop body in a scope of its own. */
    method GenerateScoped(s: Stmt)
      requires Valid()
      modifies this`output, this`labelCounter, this`tempCounter, this`errors, this`inReturnBlock, this`breakLabel,
               this`continueLabel, table.Repr()
      ensures Done(GenScoped(old(State()), s), old(output))
      ensures fresh(table.Repr() - old(table.Repr()))
      decreases s, 9
    {
      hide GenStmt, SymbolTable.Valid, SymbolTable.Table, Join;
      OpenScope();
      GenerateStatement(s);
      CloseScope();
    }

    /** A branch of an `if` or a loop body: a block that goes on to l unless it
        has ended by itself. */
    method GenerateArm(s: Stmt, l: Label) returns (terminates: bool)
      requires Valid()
      modifies this`output, this`labelCounter, this`tempCounter, this`errors, this`inReturnBlock, this`breakLabel,
               this`continueLabel, table.Repr()
      ensures Done(ArmCode(old(State()), s, l), old(output)) && terminates == GenScoped(old(State()), s).g.inReturnBlock
      ensures fresh(table.Repr() - old(table.Repr()))
      decreases s, 10
    {
      hide GenScoped, SymbolTable.Valid, SymbolTable.Table, Join;
      ghost var g0, out0 := State(), output;
      GenerateScoped(s);
      terminates := inReturnBlock;
      Lines(Closing(terminates, l));
      SetContext(false, breakLabel, continueLabel);
      Joined2(out0, GenScoped(g0, s).code, Closing(terminates, l));
    }

    method GenerateIf(s: Stmt)
      requires Valid() && s.If? && s.elseStmt.None? && !inReturnBlock
      modifies this`output, this`labelCounter, this`tempCounter, this`errors, this`inReturnBlock, this`breakLabel,
               this`continueLabel, table.Repr()
      ensures Done(GenStmt(old(State()), s), old(output))
      ensures fresh(table.Repr() - old(table.Repr()))
      decreases s, 0
    {
      hide GenExpr, GenTest, ArmCode, GenStmt, SymbolTable.Valid, SymbolTable.Table, CodeGenerator.Count, Join;
      ghost var g0, out0 := State(), output;
      IfJoined(g0, s);
      var yes, no, end := ThreeLabels("if_then", "if_else", "if_end");
      var t := Test(s.cond);
      ghost var x := GenTest(g0.table.scopes, TakeLabels(g0, 3).c, s.cond);
      Lines([CondBr(t, yes, end), LabelDef(yes)]);
      var _ := GenerateArm(s.thenStmt, end);
      Lines([LabelDef(end)]);
      Joined4(out0, x.code, [CondBr(t, yes, end), LabelDef(yes)], ArmCode(g0.(c := x.c), s.thenStmt, end).code,
              [LabelDef(end)]);
    }

    /** The test of an `if` and the branch to one of its two blocks. */
    method GenerateBranch(e: Expr, yes: Label, no: Label)
      requires Valid()
      modifies this`output, this`labelCounter, this`tempCounter, this`errors
      ensures Done(BranchCode(old(State()), e, yes, no), old(output)) && table.Repr() == old(table.Repr())
    {
      hide GenTest, SymbolTable.Valid, SymbolTable.Table, Join;
      ghost var g0, out0 := State(), output;
      var t := Test(e);
      Lines([CondBr(t, yes, no), LabelDef(yes)]);
      Joined2(out0, GenTest(g0.table.scopes, g0.c, e).code, [CondBr(t, yes, no), LabelDef(yes)]);
    }

    /** The test and the first block of an `if` that has two. */
    method GenerateThen(s: Stmt) returns (no: Label, end: Label, terminates: bool)
      requires Valid() && s.If? && s.elseStmt.Some? && !inReturnBlock
      modifies this`output, this`labelCounter, this`tempCounter, this`errors, this`inReturnBlock, this`breakLabel,
               this`continueLabel, table.Repr()
      ensures no == IfElse(old(State())) && end == IfEnd(old(State()))
      ensures Done(ThenCode(old(State()), s), old(output)) && terminates == ThenEnds(old(State()), s)
      ensures fresh(table.Repr() - old(table.Repr()))
      decreases s, 6
    {
      hide BranchCode, ArmCode, GenScoped, SymbolTable.Valid, SymbolTable.Table, Join, CodeGenerator.Count;
      ghost var g0, out0 := State(), output;
      var yes;
      yes, no, end := ThreeLabels("if_then", "if_else", "if_end");
      GenerateBranch(s.cond, yes, no);
      ghost var x := BranchCode(TakeLabels(g0, 3), s.cond, yes, no);
      terminates := GenerateArm(s.thenStmt, end);
      Joined2(out0, x.code, ArmCode(x.g, s.thenStmt, end).code);
    }

    /** The second block. */
    method GenerateElse(s: Stmt, no: Label, end: Label) returns (terminates: bool)
      requires Valid()
      modifies this`output, this`labelCounter, this`tempCounter, this`errors, this`inReturnBlock, this`breakLabel,
               this`continueLabel, table.Repr()
      ensures Done(ElseCode(old(State()), s, no, end), old(output))
              && terminates == GenScoped(old(State()), s).g.inReturnBlock
      ensures fresh(table.Repr() - old(table.Repr()))
      decreases s, 11
    {
      hide ArmCode, GenScoped, SymbolTable.Valid, SymbolTable.Table, Join, CodeGenerator.Count;
      ghost var g0, out0 := State(), output;
      Lines([LabelDef(no)]);
      terminates := GenerateArm(s, end);
      Joined2(out0, [LabelDef(no)], ArmCode(g0, s, end).code);
    }

    method GenerateIfElse(s: Stmt)
      requires Valid() && s.If? && s.elseStmt.Some? && !inReturnBlock
      modifies this`output, this`labelCounter, this`tempCounter, this`errors, this`inReturnBlock, this`breakLabel,
               this`continueLabel, table.Repr()
      ensures Done(GenStmt(old(State()), s), old(output))
      ensures fresh(table.Repr() - old(table.Repr()))
      decreases s, 7
    {
      hide ThenCode, ElseCode, ThenEnds, GenScoped, GenStmt, SymbolTable.Valid, SymbolTable.Table, Join,
           CodeGenerator.Count;
      ghost var g0, out0 := State(), output;
      IfElseJoined(g0, s);
      var no, end, thenTerminates := GenerateThen(s);
      ghost var a := ThenCode(g0, s);
      var elseTerminates := GenerateElse(s.elseStmt.value, no, end);
      ghost var b := ElseCode(a.g, s.elseStmt.value, no, end);
      EndIfElse(thenTerminates && elseTerminates, end);
      Joined3(out0, a.code, b.code, if thenTerminates && elseTerminates then [] else [LabelDef(end)]);
    }

    /** The end label is left out when neither block gets there. */
    method EndIfElse(ends: bool, end: Label)
      requires Valid()
      modifies this`output, this`inReturnBlock
      ensures Done(StmtCode(old(State()).(inReturnBlock := ends), if ends then [] else [LabelDef(end)]), old(output))
      ensures table.Repr() == old(table.Repr())
    {
      if !ends {
        output := output + [LabelDef(end)];
      }
      inReturnBlock := ends;
    }

    method ThreeLabels(a: string, b: string, d: string) returns (l1: Label, l2: Label, l3: Label)
      requires Valid()
      modifies this`labelCounter
      ensures Valid() && State() == TakeLabels(old(State()), 3) && table.Repr() == old(table.Repr())
      ensures
        var n := old(State()).c.labels;
        l1 == Label(a, n + 1) && l2 == Label(b, n + 2) && l3 == Label(d, n + 3)
    {
      l1 := NewLabel(a);
      l2 := NewLabel(b);
      l3 := NewLabel(d);
    }

    method GenerateWhile(s: Stmt)
      requires Valid() && s.While? && !inReturnBlock
      modifies this`output, this`labelCounter, this`tempCounter, this`errors, this`inReturnBlock, this`breakLabel,
               this`continueLabel, table.Repr()
      ensures Done(GenStmt(old(State()), s), old(output))
      ensures fresh(table.Repr() - old(table.Repr()))
      decreases s, 0
    {
      hide GenExpr, GenTest, ArmCode, GenStmt, SymbolTable.Valid, SymbolTable.Table, CodeGenerator.Count, Join;
      ghost var g0, out0 := State(), output;
      WhileJoined(g0, s);
      var prevBreak, prevContinue := breakLabel, continueLabel;
      var cond, body, end := ThreeLabels("while_cond", "while_body", "while_end");
      SetContext(false, Some(end), Some(cond));
      Lines([Br(cond), LabelDef(cond)]);
      var t := Test(s.cond);
      ghost var x := GenTest(g0.table.scopes, TakeLabels(g0, 3).c, s.cond);
      Lines([CondBr(t, body, end), LabelDef(body)]);
      var _ := GenerateArm(s.body, cond);
      Lines([LabelDef(end)]);
      SetContext(false, prevBreak, prevContinue);
      Joined5(out0, [Br(cond), LabelDef(cond)], x.code, [CondBr(t, body, end), LabelDef(body)],
              ArmCode(WhileContext(g0, x.c), s.body, cond).code, [LabelDef(end)]);
    }

    /** Labels and body of a `do`. */
    method GenerateDoBody(s: Stmt) returns (body: Label, cond: Label, end: Label)
      requires Valid() && s.DoWhile? && !inReturnBlock
      modifies this`output, this`labelCounter, this`tempCounter, this`errors, this`inReturnBlock, this`breakLabel,
               this`continueLabel, table.Repr()
      ensures body == DoBody(old(State())) && cond == DoCond(old(State())) && end == DoEnd(old(State()))
      ensures Done(DoHead(old(State()), s), old(output))
      ensures fresh(table.Repr() - old(table.Repr()))
      decreases s, 0
    {
      hide ArmCode, SymbolTable.Valid, SymbolTable.Table, Join, CodeGenerator.Count;
      ghost var g0, out0 := State(), output;
      body, cond, end := ThreeLabels("do_body", "do_cond", "do_end");
      SetContext(false, Some(end), Some(cond));
      Lines([Br(body), LabelDef(body)]);
      var _ := GenerateArm(s.body, cond);
      Joined2(out0, [Br(body), LabelDef(body)], ArmCode(DoContext(g0), s.body, cond).code);
    }

    /** The test of a `do`, back to its body. */
    method GenerateDoTest(e: Expr, body: Label, cond: Label, end: Label)
      requires Valid()
      modifies this`output, this`labelCounter, this`tempCounter, this`errors
      ensures Done(DoTail(old(State()), e, body, cond, end), old(output)) && table.Repr() == old(table.Repr())
    {
      hide GenTest, SymbolTable.Valid, SymbolTable.Table, Join, CodeGenerator.Count;
      ghost var g0, out0 := State(), output;
      Lines([LabelDef(cond)]);
      var t := Test(e);
      Lines([CondBr(t, body, end), LabelDef(end)]);
      Joined3(out0, [LabelDef(cond)], GenTest(g0.table.scopes, g0.c, e).code, [CondBr(t, body, end), LabelDef(end)]);
    }

    method GenerateDoWhile(s: Stmt)
      requires Valid() && s.DoWhile? && !inReturnBlock
      modifies this`output, this`labelCounter, this`tempCounter, this`errors, this`inReturnBlock, this`breakLabel,
               this`continueLabel, table.Repr()
      ensures Done(GenStmt(old(State()), s), old(output))
      ensures fresh(table.Repr() - old(table.Repr()))
      decreases s, 1
    {
      hide DoHead, DoTail, GenStmt, SymbolTable.Valid, SymbolTable.Table, Join, CodeGenerator.Count;
      ghost var g0, out0 := State(), output;
      DoJoined(g0, s);
      var prevBreak, prevContinue := breakLabel, continueLabel;
      var body, cond, end := GenerateDoBody(s);
      ghost var h := DoHead(g0, s);
      GenerateDoTest(s.cond, body, cond, end);
      SetContext(false, prevBreak, prevContinue);
      Joined2(out0, h.code, DoTail(h.g, s.cond, body, cond, end).code);
    }

    method GenerateGuard(e: Option<Expr>, body: Label, end: Label)
      requires Valid()
      modifies this`output, this`labelCounter, this`tempCounter, this`errors
      ensures Done(OnExpr(old(State()), GenGuard(old(State()).table.scopes, old(State()).c, e, body, end)), old(output))
      ensures table.Repr() == old(table.Repr())
    {
      hide GenTest, SymbolTable.Valid, SymbolTable.Table, Join;
      ghost var g0, out0 := State(), output;
      if e.Some? {
        var t := Test(e.value);
        Lines([CondBr(t, body, end)]);
        Joined2(out0, GenTest(g0.table.scopes, g0.c, e.value).code, [CondBr(t, body, end)]);
      } else {
        Lines([Br(body)]);
      }
    }

    method GenerateUpdate(e: Option<Expr>)
      requires Valid()
      modifies this`output, this`labelCounter, this`tempCounter, this`errors
      ensures Done(OnExpr(old(State()), GenUpdate(old(State()).table.scopes, old(State()).c, e)), old(output))
      ensures table.Repr() == old(table.Repr())
    {
      hide GenExpr, SymbolTable.Valid, SymbolTable.Table;
      JoinedNone(output);
      if e.Some? {
        var _ := Expression(e.value);
      }
    }

    /** The test of a `for` and its body. */
    method GenerateForBody(s: Stmt, body: Label, update: Label, end: Label)
      requires Valid() && s.For? && !inReturnBlock
      modifies this`output, this`labelCounter, this`tempCounter, this`errors, this`inReturnBlock, this`breakLabel,
               this`continueLabel, table.Repr()
      ensures Done(ForMiddle(old(State()), s, body, update, end), old(output))
      ensures fresh(table.Repr() - old(table.Repr()))
      decreases s, 0
    {
      hide GenStmt, GenGuard, SymbolTable.Valid, SymbolTable.Table, CodeGenerator.Count, Join;
      ghost var g0, out0 := State(), output;
      GenerateGuard(s.guard, body, end);
      ghost var x := GenGuard(g0.table.scopes, g0.c, s.guard, body, end);
      Lines([LabelDef(body)]);
      GenerateStatement(s.body);
      ghost var b := GenStmt(g0.(c := x.c), s.body);
      Lines(Closing(inReturnBlock, update));
      SetContext(false, breakLabel, continueLabel);
      Joined4(out0, x.code, [LabelDef(body)], b.code, Closing(b.g.inReturnBlock, update));
    }

    method EnterLoop() returns (cond: Label, body: Label, update: Label, end: Label)
      requires Valid() && !inReturnBlock
      modifies this`labelCounter, this`breakLabel, this`continueLabel, table
      ensures Valid() && State() == ForContext(old(State()))
      ensures cond == ForCond(old(State())) && body == ForBody(old(State()))
      ensures update == ForUpdate(old(State())) && end == ForEnd(old(State()))
      ensures fresh(table.Repr() - old(table.Repr()))
    {
      hide SymbolTable.Valid, SymbolTable.Table;
      cond, body, update := ThreeLabels("for_cond", "for_body", "for_update");
      end := NewLabel("for_end");
      breakLabel, continueLabel := Some(end), Some(update);
      OpenScope();
    }

    /** Labels, scope and initialization, up to the test's label. */
    method GenerateForHead(s: Stmt) returns (cond: Label, body: Label, update: Label, end: Label)
      requires Valid() && s.For? && !inReturnBlock
      modifies this`output, this`labelCounter, this`tempCounter, this`errors, this`inReturnBlock, this`breakLabel,
               this`continueLabel, table.Repr()
      ensures cond == ForCond(old(State())) && body == ForBody(old(State()))
      ensures update == ForUpdate(old(State())) && end == ForEnd(old(State()))
      ensures Done(ForHead(old(State()), s), old(output))
      ensures fresh(table.Repr() - old(table.Repr()))
      decreases s, 0
    {
      hide GenStmt, SymbolTable.Valid, SymbolTable.Table, CodeGenerator.Count, Join;
      ghost var g0, out0 := State(), output;
      cond, body, update, end := EnterLoop();
      GenerateStatement(s.first);
      SetContext(false, breakLabel, continueLabel);
      Lines([Br(cond), LabelDef(cond)]);
      Joined2(out0, GenStmt(ForContext(g0), s.first).code, [Br(cond), LabelDef(cond)]);
    }

    /** The update, the jump back and the end. */
    method GenerateForTail(e: Option<Expr>, cond: Label, update: Label, end: Label)
      requires Valid()
      modifies this`output, this`labelCounter, this`tempCounter, this`errors, this`inReturnBlock, this`breakLabel,
               this`continueLabel, table.Repr()
      ensures Done(ForTail(old(State()), e, cond, update, end), old(output))
      ensures fresh(table.Repr() - old(table.Repr()))
    {
      hide GenUpdate, SymbolTable.Valid, SymbolTable.Table, Join;
      ghost var g0, out0 := State(), output;
      Lines([LabelDef(update)]);
      GenerateUpdate(e);
      Lines([Br(cond), LabelDef(end)]);
      CloseScope();
      Joined3(out0, [LabelDef(update)], GenUpdate(g0.table.scopes, g0.c, e).code, [Br(cond), LabelDef(end)]);
    }

    method GenerateFor(s: Stmt)
      requires Valid() && s.For? && !inReturnBlock
      modifies this`output, this`labelCounter, this`tempCounter, this`errors, this`inReturnBlock, this`breakLabel,
               this`continueLabel, table.Repr()
      ensures Done(GenStmt(old(State()), s), old(output))
      ensures fresh(table.Repr() - old(table.Repr()))
      decreases s, 1
    {
      hide GenStmt, ForHead, ForMiddle, ForTail, SymbolTable.Valid, SymbolTable.Table, CodeGenerator.Count, Join;
      ghost var g0, out0 := State(), output;
      ForJoined(g0, s);
      var prevBreak, prevContinue := breakLabel, continueLabel;
      var cond, body, update, end := GenerateForHead(s);
      GenerateForBody(s, body, update, end);
      GenerateForTail(s.update, cond, update, end);
      SetContext(false, prevBreak, prevContinue);
      ghost var h := ForHead(g0, s);
      ghost var m := ForMiddle(h.g, s, body, update, end);
      Joined3(out0, h.code, m.code, ForTail(m.g, s.update, cond, update, end).code);
    }

    // ----- Functions and programs -----

    /** Copies an incoming parameter into a slot of its own. */
    method GenerateParameter(x: string)
      requires Valid()
      modifies this`output, table.Repr()
      ensures
        var p := GenParams(old(State()).table, [x]);
        Done(StmtCode(old(State()).(table := p.table), p.code), old(output))
      ensures fresh(table.Repr() - old(table.Repr()))
    {
      hide SymbolTable.Valid, SymbolTable.Table;
      ghost var t := State().table;
      assert [x][1..] == [];
      JoinedNone(output);
      var added := table.AddSymbol(x, VariableSymbol, true);
      if added {
        var sym := table.FindSymbol(x);
        Lines([Alloca(SlotOf(sym.value), I32), Store(I32, Incoming(x), SlotOf(sym.value))]);
      }
    }

    method GenerateParameters(params: seq<string>)
      requires Valid()
      modifies this`output, table.Repr()
      ensures
        var p := GenParams(old(State()).table, params);
        Done(StmtCode(old(State()).(table := p.table), p.code), old(output))
      ensures fresh(table.Repr() - old(table.Repr()))
    {
      hide GenParams, SymbolTable.Valid, SymbolTable.Table, CodeGenerator.Count, Join;
      ghost var g0, out0 := State(), output;
      JoinedNone(output);
      NoParams(g0.table, params);
      var i := 0;
      while i < |params|
        invariant 0 <= i <= |params|
        invariant
          var p := GenParams(g0.table, params[..i]);
          Done(StmtCode(g0.(table := p.table), p.code), out0)
        invariant fresh(table.Repr() - old(table.Repr()))
      {
        ghost var p := GenParams(g0.table, params[..i]);
        GenerateParameter(params[i]);
        ParamsSnoc(g0.table, params, i);
        Joined2(out0, p.code, GenParams(p.table, [params[i]]).code);
        i := i + 1;
      }
      assert params[..i] == params;
    }

    /** The name is added before the function becomes the current one. */
    method EnterFunction(def: FunDef)
      requires Valid()
      modifies this`inReturnBlock, table.Repr()
      ensures Valid() && State() == FunctionEntry(old(State()), def)
      ensures fresh(table.Repr() - old(table.Repr()))
    {
      hide SymbolTable.Valid, SymbolTable.Table, Codegen.AddSymbol;
      ghost var t0 := table.Table();
      inReturnBlock := false;
      var _ := table.AddSymbol(def.name, FunctionSymbol, false);
      ghost var t1 := table.Table();
      assert t1 == AddSymbol(t0, def.name, FunctionSymbol, false);
      table.SetCurrentFunction(Some(def.name));
      table.EnterScope();
      assert table.Table() == EnterScope(t1.(fn := Some(def.name)));
    }

    /** A function's lines, from its parameters to its last return. */
    method GenerateBody(def: FunDef)
      requires Valid() && def.body.Block? && !inReturnBlock
      modifies this`output, this`labelCounter, this`tempCounter, this`errors, this`inReturnBlock, this`breakLabel,
               this`continueLabel, table.Repr()
      ensures Done(BodyCode(old(State()), def), old(output))
      ensures fresh(table.Repr() - old(table.Repr()))
    {
      hide GenStmt, GenParams, SymbolTable.Valid, SymbolTable.Table, Join, CodeGenerator.Count;
      ghost var g0, out0 := State(), output;
      GenerateParameters(def.params);
      ghost var p := GenParams(g0.table, def.params);
      GenerateCompoundStatement(def.body.stmts);
      ghost var b := GenStmt(g0.(table := p.table), def.body);
      Lines(Epilogue(inReturnBlock));
      Joined3(out0, p.code, b.code, Epilogue(b.g.inReturnBlock));
    }

    /** generate_function: the lines between the braces go into one item. */
    method GenerateFunction(def: FunDef)
      requires Valid() && def.body.Block?
      modifies this`output, this`labelCounter, this`tempCounter, this`errors, this`inReturnBlock, this`breakLabel,
               this`continueLabel, table.Repr(), this`items
      ensures Valid() && State() == GenFunction(old(State()), def).g
      ensures items == old(items) + [Defined(def.name, Routine(def.params, GenFunction(old(State()), def).code))]
      ensures fresh(table.Repr() - old(table.Repr()))
    {
      hide BodyCode, FunctionEntry, GenFunction, SymbolTable.Valid, SymbolTable.Table, Join, CodeGenerator.Count;
      ghost var g0 := State();
      FunctionJoined(g0, def);
      EnterFunction(def);
      output := [];
      GenerateBody(def);
      CloseScope();
      items := items + [Defined(def.name, Routine(def.params, output))];
    }

    method GenerateGlobal(x: string, init: Option<Expr>)
      requires Valid()
      modifies this`errors, this`items, table.Repr()
      ensures
        var y := GenGlobal(old(State()), x, init);
        Valid() && State() == y.g && items == old(items) + y.items
      ensures fresh(table.Repr() - old(table.Repr()))
    {
      hide SymbolTable.Valid, SymbolTable.Table, CodeGenerator.Count, AddSymbol;
      if inReturnBlock {
        return;
      }
      var found := InInnermostScope(x);
      if found {
        ReportError();
        return;
      }
      var slot := Declare(x);
      items := items + [GlobalDef(slot, PrintedInitial(init))];
    }

    method GenerateTop(d: TopDecl)
      requires Valid() && Bodied(d)
      modifies this`output, this`labelCounter, this`tempCounter, this`errors, this`inReturnBlock, this`breakLabel,
               this`continueLabel, table.Repr(), this`items
      ensures
        var y := GenTop(old(State()), d);
        Valid() && State() == y.g && items == old(items) + y.items
      ensures fresh(table.Repr() - old(table.Repr()))
    {
      hide GenFunction, SymbolTable.Valid, SymbolTable.Table;
      match d
      case GlobalVar(x, init) => GenerateGlobal(x, init);
      case Function(def) => GenerateFunction(def);
      case Prototype(_, _) =>
    }

    method GeneratePrototype(d: TopDecl)
      requires Valid()
      modifies this`items, table.Repr()
      ensures
        var y := GenPrototype(old(State()), d);
        Valid() && State() == y.g && items == old(items) + y.items
      ensures fresh(table.Repr() - old(table.Repr()))
    {
      hide SymbolTable.Valid, SymbolTable.Table;
      if d.Prototype? {
        items := items + [Declared(d.name, |d.params|)];
        var _ := table.AddSymbol(d.name, FunctionSymbol, false);
      }
    }

    method GeneratePrototypes(ds: seq<TopDecl>)
      requires Valid()
      modifies this`items, table.Repr()
      ensures
        var y := GenPrototypes(old(State()), ds);
        Valid() && State() == y.g && items == old(items) + y.items
      ensures fresh(table.Repr() - old(table.Repr()))
    {
      hide GenPrototype, SymbolTable.Valid, SymbolTable.Table;
      ghost var g0, items0 := State(), items;
      var i := 0;
      while i < |ds|
        invariant 0 <= i <= |ds|
        invariant Valid() && State() == GenPrototypes(g0, ds[..i]).g
                  && items == items0 + GenPrototypes(g0, ds[..i]).items
        invariant fresh(table.Repr() - old(table.Repr()))
      {
        assert ds[..i + 1][..i] == ds[..i];
        GeneratePrototype(ds[i]);
        i := i + 1;
      }
      assert ds[..i] == ds;
    }

    method GenerateTops(ds: seq<TopDecl>)
      requires Valid() && AllBodied(ds)
      modifies this`output, this`labelCounter, this`tempCounter, this`errors, this`inReturnBlock, this`breakLabel,
               this`continueLabel, table.Repr(), this`items
      ensures
        var y := GenTops(old(State()), ds);
        Valid() && State() == y.g && items == old(items) + y.items
      ensures fresh(table.Repr() - old(table.Repr()))
    {
      hide GenTop, SymbolTable.Valid, SymbolTable.Table;
      ghost var g0, items0 := State(), items;
      var i := 0;
      while i < |ds|
        invariant 0 <= i <= |ds|
        invariant Valid() && State() == GenTops(g0, ds[..i]).g && items == items0 + GenTops(g0, ds[..i]).items
        invariant fresh(table.Repr() - old(table.Repr()))
      {
        assert ds[..i + 1][..i] == ds[..i];
        GenerateTop(ds[i]);
        i := i + 1;
      }
      assert ds[..i] == ds;
    }

    /** generate_llvm_ir, from a fresh state. */
    method GenerateLlvmIr(ds: seq<TopDecl>)
      requires Valid() && AllBodied(ds) && State() == FileStart() && items == []
      modifies this`output, this`labelCounter, this`tempCounter, this`errors, this`inReturnBlock, this`breakLabel,
               this`continueLabel, table.Repr(), this`items
      ensures Valid() && State() == GenProgram(ds).g && items == GenProgram(ds).items
      ensures fresh(table.Repr() - old(table.Repr()))
    {
      hide GenTops, GenPrototypes, SymbolTable.Valid, SymbolTable.Table;
      GeneratePrototypes(ds);
      GenerateTops(ds);
    }
  }

  lemma FindsNew(t: Table, x: string)
    requires x !in t.scopes.vars
    ensures Find(Codegen.AddSymbol(t, x, VariableSymbol, false).scopes, x)
            == Some(NewSymbol(t, x, VariableSymbol, false))
  {
  }

  lemma NoParams(t: Table, params: seq<string>)
    ensures GenParams(t, params[..0]) == TableCode(t, [])
  {
  }

  lemma {:induction false} ParamsSnoc(t: Table, params: seq<string>, i: nat)
    requires i < |params|
    ensures
      var p := GenParams(t, params[..i]);
      var q := GenParams(p.table, [params[i]]);
      GenParams(t, params[..i + 1]) == TableCode(q.table, p.code + q.code)
    decreases i
  {
    var first := AddSymbol(t, params[0], VariableSymbol, true);
    assert [params[i]][1..] == [];
    if i == 0 {
      assert params[..1] == [params[0]] && params[..0] == [];
    } else {
      assert params[..i + 1][1..] == params[1..][..i] && params[..i][1..] == params[1..][..i - 1];
      ParamsSnoc(first, params[1..], i - 1);
      var slot := SlotOf(NewSymbol(t, params[0], VariableSymbol, true));
      var p := GenParams(first, params[1..][..i - 1]);
      AssocTwice([Alloca(slot, I32), Store(I32, Incoming(params[0]), slot)], p.code,
                 GenParams(p.table, [params[i]]).code);
    }
  }

  function BodyCode(g: Context, def: FunDef): StmtCode {
    var p := GenParams(g.table, def.params);
    var b := GenStmt(g.(table := p.table), def.body);
    StmtCode(b.g, p.code + (b.code + Epilogue(b.g.inReturnBlock)))
  }

  lemma FunctionJoined(g: Context, def: FunDef)
    ensures
      var g1 := FunctionEntry(g, def);
      var b := BodyCode(g1, def);
      !g1.inReturnBlock && GenFunction(g, def) == StmtCode(LeaveScope(b.g), b.code) && Join([], b.code) == b.code
  {
    hide GenStmt, GenParams;
  }

  /** A block, the branch that ends it, and an open state after it. */
  function ArmCode(g: Context, s: Stmt, l: Label): StmtCode {
    var a := GenScoped(g, s);
    StmtCode(a.g.(inReturnBlock := false), a.code + Closing(a.g.inReturnBlock, l))
  }

  lemma IfJoined(g: Context, s: Stmt)
    requires s.If? && s.elseStmt.None? && !g.inReturnBlock
    ensures
      var x := GenTest(g.table.scopes, TakeLabels(g, 3).c, s.cond);
      var a := ArmCode(g.(c := x.c), s.thenStmt, IfEnd(g));
      GenStmt(g, s)
      == StmtCode(a.g, x.code + ([CondBr(x.r, IfThen(g), IfEnd(g)), LabelDef(IfThen(g))]
        + (a.code + [LabelDef(IfEnd(g))])))
  {
    hide GenTest, GenScoped;
    var x := GenTest(g.table.scopes, TakeLabels(g, 3).c, s.cond);
    var a := GenScoped(g.(c := x.c), s.thenStmt);
    AssocTwice(a.code, Closing(a.g.inReturnBlock, IfEnd(g)), [LabelDef(IfEnd(g))]);
  }

  function BranchCode(g: Context, e: Expr, yes: Label, no: Label): StmtCode {
    var x := GenTest(g.table.scopes, g.c, e);
    StmtCode(g.(c := x.c), x.code + [CondBr(x.r, yes, no), LabelDef(yes)])
  }

  function ThenCode(g: Context, s: Stmt): StmtCode
    requires s.If?
  {
    var x := BranchCode(TakeLabels(g, 3), s.cond, IfThen(g), IfElse(g));
    var a := ArmCode(x.g, s.thenStmt, IfEnd(g));
    StmtCode(a.g, x.code + a.code)
  }

  predicate ThenEnds(g: Context, s: Stmt)
    requires s.If?
  {
    GenScoped(BranchCode(TakeLabels(g, 3), s.cond, IfThen(g), IfElse(g)).g, s.thenStmt).g.inReturnBlock
  }

  function ElseCode(g: Context, s: Stmt, no: Label, end: Label): StmtCode {
    var b := ArmCode(g, s, end);
    StmtCode(b.g, [LabelDef(no)] + b.code)
  }

  lemma IfElseJoined(g: Context, s: Stmt)
    requires s.If? && s.elseStmt.Some? && !g.inReturnBlock
    ensures
      var a := ThenCode(g, s);
      var b := ElseCode(a.g, s.elseStmt.value, IfElse(g), IfEnd(g));
      var ends := ThenEnds(g, s) && GenScoped(a.g, s.elseStmt.value).g.inReturnBlock;
      GenStmt(g, s)
      == StmtCode(b.g.(inReturnBlock := ends), a.code + (b.code + if ends then [] else [LabelDef(IfEnd(g))]))
  {
    hide GenTest, GenScoped;
    var x := GenTest(g.table.scopes, TakeLabels(g, 3).c, s.cond);
    var a := GenScoped(g.(c := x.c), s.thenStmt);
    var b := GenScoped(AfterThen(a), s.elseStmt.value);
    var last := if a.g.inReturnBlock && b.g.inReturnBlock then [] else [LabelDef(IfEnd(g))];
    IfElseRegroup(x.code, [CondBr(x.r, IfThen(g), IfElse(g)), LabelDef(IfThen(g))], a.code,
                  Closing(a.g.inReturnBlock, IfEnd(g)), [LabelDef(IfElse(g))], b.code,
                  Closing(b.g.inReturnBlock, IfEnd(g)), last);
  }

  lemma IfElseRegroup(
    a: seq<Instr>, b: seq<Instr>, c: seq<Instr>, d: seq<Instr>, e: seq<Instr>, f: seq<Instr>, g: seq<Instr>,
    h: seq<Instr>)
    ensures a + (b + (c + (d + (e + (f + (g + h)))))) == ((a + b) + (c + d)) + ((e + (f + g)) + h)
  {
    AssocTwice(f, g, h);
    AssocTwice(e, f + g, h);
    AssocTwice(c, d, (e + (f + g)) + h);
    AssocTwice(b, c + d, (e + (f + g)) + h);
    AssocTwice(a, b + (c + d), (e + (f + g)) + h);
    AssocTwice(a, b, c + d);
  }

  lemma WhileJoined(g: Context, s: Stmt)
    requires s.While? && !g.inReturnBlock
    ensures
      var x := GenTest(g.table.scopes, TakeLabels(g, 3).c, s.cond);
      var b := ArmCode(WhileContext(g, x.c), s.body, WhileCond(g));
      GenStmt(g, s)
      == StmtCode(AfterLoop(g, b.g),
                  [Br(WhileCond(g)), LabelDef(WhileCond(g))]
                  + (x.code + ([CondBr(x.r, WhileBody(g), WhileEnd(g)), LabelDef(WhileBody(g))]
                    + (b.code + [LabelDef(WhileEnd(g))]))))
  {
    hide GenTest, GenScoped;
    var x := GenTest(g.table.scopes, TakeLabels(g, 3).c, s.cond);
    var b := GenScoped(WhileContext(g, x.c), s.body);
    AssocTwice(b.code, Closing(b.g.inReturnBlock, WhileCond(g)), [LabelDef(WhileEnd(g))]);
  }

  function DoHead(g: Context, s: Stmt): StmtCode
    requires s.DoWhile?
  {
    var b := ArmCode(DoContext(g), s.body, DoCond(g));
    StmtCode(b.g, [Br(DoBody(g)), LabelDef(DoBody(g))] + b.code)
  }

  function DoTail(g: Context, e: Expr, body: Label, cond: Label, end: Label): StmtCode {
    var x := GenTest(g.table.scopes, g.c, e);
    StmtCode(g.(c := x.c), [LabelDef(cond)] + (x.code + [CondBr(x.r, body, end), LabelDef(end)]))
  }

  lemma DoJoined(g: Context, s: Stmt)
    requires s.DoWhile? && !g.inReturnBlock
    ensures
      var h := DoHead(g, s);
      var t := DoTail(h.g, s.cond, DoBody(g), DoCond(g), DoEnd(g));
      GenStmt(g, s) == StmtCode(AfterLoop(g, t.g), h.code + t.code)
  {
    hide GenTest, GenScoped;
    var b := GenScoped(DoContext(g), s.body);
    var x := GenTest(b.g.table.scopes, b.g.c, s.cond);
    var tail := [LabelDef(DoCond(g))] + (x.code + [CondBr(x.r, DoBody(g), DoEnd(g)), LabelDef(DoEnd(g))]);
    var closing := Closing(b.g.inReturnBlock, DoCond(g));
    AssocTwice(b.code, closing, tail);
    AssocTwice([Br(DoBody(g)), LabelDef(DoBody(g))], b.code + closing, tail);
  }

  function ForHead(g: Context, s: Stmt): StmtCode
    requires s.For?
  {
    var i := GenStmt(ForContext(g), s.first);
    StmtCode(i.g.(inReturnBlock := false), i.code + [Br(ForCond(g)), LabelDef(ForCond(g))])
  }

  function ForTail(g: Context, e: Option<Expr>, cond: Label, update: Label, end: Label): StmtCode {
    var y := GenUpdate(g.table.scopes, g.c, e);
    StmtCode(LeaveScope(g.(c := y.c)), [LabelDef(update)] + (y.code + [Br(cond), LabelDef(end)]))
  }

  function ForMiddle(g: Context, s: Stmt, body: Label, update: Label, end: Label): StmtCode
    requires s.For?
  {
    var x := GenGuard(g.table.scopes, g.c, s.guard, body, end);
    var b := GenStmt(g.(c := x.c), s.body);
    StmtCode(b.g.(inReturnBlock := false), x.code + ([LabelDef(body)] + (b.code + Closing(b.g.inReturnBlock, update))))
  }

  /** The code of a `for`, part by part. */
  lemma ForJoined(g: Context, s: Stmt)
    requires s.For? && !g.inReturnBlock
    ensures
      var h := ForHead(g, s);
      var m := ForMiddle(h.g, s, ForBody(g), ForUpdate(g), ForEnd(g));
      var t := ForTail(m.g, s.update, ForCond(g), ForUpdate(g), ForEnd(g));
      !h.g.inReturnBlock && GenStmt(g, s) == StmtCode(AfterLoop(g, t.g), h.code + (m.code + t.code))
  {
    hide GenGuard, GenUpdate;
    var i := GenStmt(ForContext(g), s.first);
    var x := GenGuard(i.g.table.scopes, i.g.c, s.guard, ForBody(g), ForEnd(g));
    var b := GenStmt(i.g.(c := x.c, inReturnBlock := false), s.body);
    var y := GenUpdate(b.g.table.scopes, b.g.c, s.update);
    var tail := [LabelDef(ForUpdate(g))] + (y.code + [Br(ForCond(g)), LabelDef(ForEnd(g))]);
    var closing := Closing(b.g.inReturnBlock, ForUpdate(g));
    AssocFour(x.code, [LabelDef(ForBody(g))], b.code, closing, tail);
    AssocTwice(i.code, [Br(ForCond(g)), LabelDef(ForCond(g))],
               x.code + ([LabelDef(ForBody(g))] + (b.code + (closing + tail))));
  }

  lemma AssocFour(a: seq<Instr>, b: seq<Instr>, c: seq<Instr>, d: seq<Instr>, e: seq<Instr>)
    ensures a + (b + (c + (d + e))) == (a + (b + (c + d))) + e
  {
  }

  lemma ReturnJoined(g: Context, e: Expr)
    ensures
      var v := GenValue(g.table.scopes, g.c, e);
      ReturnCode(g, e, GenExpr(g.table.scopes, g.c, e))
      == StmtCode(g.(c := v.c, inReturnBlock := true), v.code + [Ret(OperandOf(e, v.r))])
  {
    hide GenExpr, GenToInt;
    var x := GenExpr(g.table.scopes, g.c, e);
    var w := GenToInt(x.c, e, x.r);
    AssocTwice(x.code, w.code, [Ret(OperandOf(e, w.r))]);
  }

  lemma InitJoined(g: Context, slot: Slot, e: Expr)
    ensures
      var v := GenValue(g.table.scopes, g.c, e);
      InitCode(g, slot, e, GenExpr(g.table.scopes, g.c, e))
      == StmtCode(g.(c := v.c), [Alloca(slot, I32)] + (v.code + [Store(I32, OperandOf(e, v.r), slot)]))
  {
    hide GenExpr, GenToInt;
    var x := GenExpr(g.table.scopes, g.c, e);
    var w := GenToInt(x.c, e, x.r);
    AssocTwice(x.code, w.code, [Store(I32, OperandOf(e, w.r), slot)]);
  }

  lemma BlockJoined(g: Context, ss: seq<Stmt>)
    requires !g.inReturnBlock
    ensures
      var b := GenStmts(InNewScope(g), ss);
      GenStmt(g, Block(ss)) == StmtCode(LeaveScope(b.g), b.code)
  {
  }

  lemma NoStmts(g: Context, ss: seq<Stmt>)
    ensures GenStmts(g, ss[..0]) == StmtCode(g, [])
  {
  }

  /** One more statement, when the block is still open. */
  lemma {:induction false} StmtsSnoc(g: Context, ss: seq<Stmt>, i: nat)
    requires i < |ss| && !GenStmts(g, ss[..i]).g.inReturnBlock
    ensures
      var x := GenStmts(g, ss[..i]);
      var y := GenStmt(x.g, ss[i]);
      GenStmts(g, ss[..i + 1]) == StmtCode(y.g, x.code + y.code)
    decreases i
  {
    hide GenStmt;
    if i == 0 {
      assert ss[..1] == [ss[0]] && ss[..1][1..] == [];
      assert !g.inReturnBlock;
    } else {
      var x := GenStmt(g, ss[0]);
      assert ss[..i + 1][1..] == ss[1..][..i] && ss[..i][1..] == ss[1..][..i - 1];
      if !g.inReturnBlock {
        StmtsSnoc(x.g, ss[1..], i - 1);
        var a := GenStmts(x.g, ss[1..][..i - 1]);
        AssocTwice(x.code, a.code, GenStmt(a.g, ss[i]).code);
      }
    }
  }

  /** What is left after the block has ended emits nothing. */
  lemma {:induction false} StmtsStop(g: Context, ss: seq<Stmt>, i: nat)
    requires i <= |ss| && (i == |ss| || GenStmts(g, ss[..i]).g.inReturnBlock)
    ensures GenStmts(g, ss) == GenStmts(g, ss[..i])
    decreases i
  {
    hide GenStmt;
    if i == |ss| {
      assert ss[..i] == ss;
    } else if i > 0 && !g.inReturnBlock {
      assert ss[..i][1..] == ss[1..][..i - 1];
      StmtsStop(GenStmt(g, ss[0]).g, ss[1..], i - 1);
    }
  }

  lemma NoArgs(t: Scopes<Symbol>, c: Counters, es: seq<Expr>)
    ensures GenArgs(t, c, es[..0]) == ArgsCode(c, [], [])
  {
  }

  lemma {:induction false} ArgsSnoc(t: Scopes<Symbol>, c: Counters, es: seq<Expr>, i: nat)
    requires i < |es|
    ensures
      var a := GenArgs(t, c, es[..i]);
      var x := GenExpr(t, a.c, es[i]);
      GenArgs(t, c, es[..i + 1])
      == ArgsCode(x.c, a.code + x.code, a.args + [Arg(TypeOf(es[i]), OperandOf(es[i], x.r))])
    decreases i
  {
    hide GenExpr;
    if i > 0 {
      var x := GenExpr(t, c, es[0]);
      assert es[..i + 1][1..] == es[1..][..i] && es[..i][1..] == es[1..][..i - 1];
      ArgsSnoc(t, x.c, es[1..], i - 1);
      var a := GenArgs(t, x.c, es[1..][..i - 1]);
      assert x.code + (a.code + GenExpr(t, a.c, es[i]).code) == (x.code + a.code) + GenExpr(t, a.c, es[i]).code;
    } else {
      assert es[..1] == [es[0]] && es[..1][1..] == [];
    }
  }

  /** Output with more code at its end. */
  function Join(o: seq<Instr>, x: seq<Instr>): seq<Instr> { o + x }

  lemma Joined2(o: seq<Instr>, a: seq<Instr>, b: seq<Instr>)
    ensures Join(Join(o, a), b) == Join(o, a + b)
  {
  }

  lemma JoinedNone(o: seq<Instr>)
    ensures Join(o, []) == o
  {
  }

  lemma Joined3(o: seq<Instr>, a: seq<Instr>, b: seq<Instr>, c: seq<Instr>)
    ensures Join(Join(Join(o, a), b), c) == Join(o, a + (b + c))
  {
  }

  lemma Joined4(o: seq<Instr>, a: seq<Instr>, b: seq<Instr>, c: seq<Instr>, d: seq<Instr>)
    ensures Join(Join(Join(Join(o, a), b), c), d) == Join(o, a + (b + (c + d)))
  {
  }

  lemma Joined5(o: seq<Instr>, a: seq<Instr>, b: seq<Instr>, c: seq<Instr>, d: seq<Instr>, e: seq<Instr>)
    ensures Join(Join(Join(Join(Join(o, a), b), c), d), e) == Join(o, a + (b + (c + (d + e))))
  {
  }

  lemma Joined7(
    o: seq<Instr>, a: seq<Instr>, b: seq<Instr>, c: seq<Instr>, d: seq<Instr>, e: seq<Instr>, f: seq<Instr>,
    g: seq<Instr>)
    ensures Join(Join(Join(Join(Join(Join(Join(o, a), b), c), d), e), f), g)
            == Join(o, a + (b + (c + (d + (e + (f + g))))))
  {
  }

  /** An expression and its conversion to int. */
  function GenValue(t: Scopes<Symbol>, c: Counters, e: Expr): ExprCode {
    var v := GenExpr(t, c, e);
    var w := GenToInt(v.c, e, v.r);
    ExprCode(w.c, v.code + w.code, w.r)
  }

  /** The code of `&&` and `||`, part by part. */
  lemma LogicalJoined(t: Scopes<Symbol>, c: Counters, e: Expr)
    requires e.Binary? && (e.op == LAnd || e.op == LOr)
    ensures
      var x := GenTest(t, Reserve(c), e.left);
      var y := GenTest(t, x.c, e.right);
      var final := y.c.temps + 1;
      GenExpr(t, c, e)
      == ExprCode(y.c.(temps := final + 1),
                  [Alloca(ResultSlot(c), I1)]
                  + (x.code + (LogicalShortcut(c, e.op, x.r) + (y.code + LogicalExit(c, y.r, final)))),
                  final + 1)
  {
    hide LogicalShortcut, LogicalExit, GenTruth;
    var x := GenExpr(t, Reserve(c), e.left);
    var xb := GenTruth(x.c, e.left, x.r);
    var y := GenExpr(t, xb.c, e.right);
    var yb := GenTruth(y.c, e.right, y.r);
    Assoc(x.code, xb.code, LogicalShortcut(c, e.op, xb.r), y.code, yb.code, LogicalExit(c, yb.r, yb.c.temps + 1));
  }

  lemma Assoc(a: seq<Instr>, b: seq<Instr>, c: seq<Instr>, d: seq<Instr>, e: seq<Instr>, f: seq<Instr>)
    ensures a + (b + (c + (d + (e + f)))) == (a + b) + (c + ((d + e) + f))
  {
  }

  /** The code of `?:`, part by part. */
  lemma CondJoined(t: Scopes<Symbol>, c: Counters, e: Expr)
    requires e.Cond?
    ensures
      var x := GenTest(t, Reserve(c), e.cond);
      var y := GenValue(t, x.c, e.thenExpr);
      var z := GenValue(t, y.c, e.elseExpr);
      var final := z.c.temps + 1;
      GenExpr(t, c, e)
      == ExprCode(z.c.(temps := final),
                  [Alloca(ResultSlot(c), I32)]
                  + (x.code
                     + (CondChoice(c, x.r)
                        + (y.code
                           + (CondElse(c, OperandOf(e.thenExpr, y.r))
                              + (z.code + CondExit(c, OperandOf(e.elseExpr, z.r), final)))))),
                  final)
  {
    hide CondChoice, CondElse, CondExit, GenTruth, GenToInt;
    var x := GenExpr(t, Reserve(c), e.cond);
    var xb := GenTruth(x.c, e.cond, x.r);
    var y := GenExpr(t, xb.c, e.thenExpr);
    var yi := GenToInt(y.c, e.thenExpr, y.r);
    var z := GenExpr(t, yi.c, e.elseExpr);
    var zi := GenToInt(z.c, e.elseExpr, z.r);
    var tail := z.code + (zi.code + CondExit(c, OperandOf(e.elseExpr, zi.r), zi.c.temps + 1));
    var third := CondElse(c, OperandOf(e.thenExpr, yi.r));
    AssocTwice(z.code, zi.code, CondExit(c, OperandOf(e.elseExpr, zi.r), zi.c.temps + 1));
    AssocTwice(y.code, yi.code, third + tail);
    AssocTwice(x.code, xb.code, CondChoice(c, xb.r) + (y.code + (yi.code + (third + tail))));
  }

  lemma AssocTwice(a: seq<Instr>, b: seq<Instr>, c: seq<Instr>)
    ensures a + (b + c) == (a + b) + c
  {
  }
}
