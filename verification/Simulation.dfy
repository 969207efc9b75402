/** The compiler preserves meaning: by induction on the fuel and the syntax, the
    machine follows every run of an expression, a statement and a function. */
module Simulation {
  import opened Options
  import opened Int32
  import opened Ast
  import opened Scopes
  import opened Source
  import opened Ir
  import opened Codegen
  import opened Definitions
  import opened Relation
  import opened Linking
  import opened ExprSimulation
  import opened Statements
  import opened StmtSimulation

  lemma LinkStands(k: Link, t: Scopes<Symbol>, env: Env, fr: Frame, mem: map<Slot, MemCell>, part: seq<Instr>)
    requires LinkOk(k) && Ready(k, t, env, fr, mem, part)
    ensures Stands(k, t, env, fr, mem) && GlobalsOk(k.fs)
  {
  }

  /** What follows the first stop of a run is the stop of the whole. */
  lemma PartStopped(
    k: Link, fuel: nat, res: Result, s: State, i: nat, s1: State, j: nat)
    requires Goes(k.mod, s, i, s1)
    requires res.Wrong? ==> Stopped(k.mod, fuel, s1, Stop.Error(res.error), j)
    requires res.OutOfFuel? ==> Stopped(k.mod, fuel, s1, Endless, j)
    ensures res.Wrong? ==> Stopped(k.mod, fuel, s, Stop.Error(res.error), i + j)
    ensures res.OutOfFuel? ==> Stopped(k.mod, fuel, s, Endless, i + j)
  {
    if res.Wrong? {
      ThenStopped(k.mod, fuel, s, i, s1, Stop.Error(res.error), j);
    } else if res.OutOfFuel? {
      ThenStopped(k.mod, fuel, s, i, s1, Endless, j);
    }
  }

  lemma {:induction false} SimExpr(
    k: Link, fuel: nat, t: Scopes<Symbol>, c: Counters, e: Expr, env: Env,
    fr: Frame, rest: seq<Saved>, mem: map<Slot, MemCell>)
    returns (n: nat, fr': Frame, mem': map<Slot, MemCell>)
    requires LinkOk(k) && InFragment(e) && Resolved(t, e)
    requires Ready(k, t, env, fr, mem, GenExpr(t, c, e).code)
    ensures ExprSim(k, fuel, Eval(k.prog, fuel, e, env), e, t, c, GenExpr(t, c, e), fr, rest, mem, n, fr', mem')
    decreases fuel, e, 4
  {
    hide LinkOk, Match, TableOk, Steps, Keeps, CodeAt;
    match e
    case Number(_) =>
      n, fr', mem' := 0, fr, mem;
      NoMove(k, t, env, c, fr, rest, mem);
    case Var(y) =>
      fr' := LoadSim(k, fuel, t, env, c, y, fr, rest, mem);
      n, mem' := 1, mem;
    case Binary(op, l, r) =>
      if op == LAnd || op == LOr {
        n, fr', mem' := SimLogical(k, fuel, t, c, e, env, fr, rest, mem);
      } else {
        n, fr', mem' := SimOperator(k, fuel, t, c, e, env, fr, rest, mem);
      }
    case Assign(y, rhs) => n, fr', mem' := SimAssign(k, fuel, t, c, e, env, fr, rest, mem);
    case Unary(op, e1) =>
      LinkStands(k, t, env, fr, mem, GenExpr(t, c, e).code);
      if IsStep(op) {
        n, fr', mem' := StepSim(k, fuel, t, env, c, e, fr, rest, mem);
      } else {
        n, fr', mem' := SimUnary(k, fuel, t, c, e, env, fr, rest, mem);
      }
    case Cond(_, _, _) => n, fr', mem' := SimCond(k, fuel, t, c, e, env, fr, rest, mem);
    case Call(_, _) => n, fr', mem' := SimCall(k, fuel, t, c, e, env, fr, rest, mem);
  }

  lemma NoMove(k: Link, t: Scopes<Symbol>, env: Env, c: Counters, fr: Frame, rest: seq<Saved>, mem: map<Slot, MemCell>)
    requires Match(env, t, fr.slots, mem, k.fs)
    ensures Arrives(k, t, env, c, fr.pc, fr, rest, mem, 0, fr, mem)
  {
  }

  /** Both operands of a binary operator, left to right. */
  lemma {:induction false} SimOperands(
    k: Link, fuel: nat, t: Scopes<Symbol>, c: Counters, e: Expr, x: ExprCode, y: ExprCode, env: Env,
    fr: Frame, rest: seq<Saved>, mem: map<Slot, MemCell>)
    returns (n: nat, fr': Frame, mem': map<Slot, MemCell>)
    requires LinkOk(k) && e.Binary? && InFragment(e.left) && InFragment(e.right) && Resolved(t, e.left)
             && Resolved(t, e.right)
    requires x == GenExpr(t, c, e.left) && y == GenExpr(t, x.c, e.right)
    requires Ready(k, t, env, fr, mem, x.code + y.code)
    ensures
      match Eval(k.prog, fuel, e.left, env)
      case Wrong(err) => Stopped(k.mod, fuel, Active(fr, rest, mem), Stop.Error(err), n)
      case OutOfFuel => Stopped(k.mod, fuel, Active(fr, rest, mem), Endless, n)
      case Val(a, env1) =>
        match Eval(k.prog, fuel, e.right, env1)
        case Wrong(err) => Stopped(k.mod, fuel, Active(fr, rest, mem), Stop.Error(err), n)
        case OutOfFuel => Stopped(k.mod, fuel, Active(fr, rest, mem), Endless, n)
        case Val(b, env2) =>
          && Arrives(k, t, env2, c, fr.pc + |x.code + y.code|, fr, rest, mem, n, fr', mem')
          && Shows(e.left, x, fr', a) && Shows(e.right, y, fr', b)
    decreases fuel, e, 0
  {
    hide LinkOk, Match, TableOk, Steps, Keeps, CodeAt, Stopped, GenExpr, Eval, InFragment, Resolved;
    ExprGrowing(t, c, e.left);
    CodeAtAppend(k.mod[fr.fn].code, fr.pc, x.code, y.code);
    var i, fr1, mem1 := SimExpr(k, fuel, t, c, e.left, env, fr, rest, mem);
    n, fr', mem' := i, fr1, mem1;
    var first := Eval(k.prog, fuel, e.left, env);
    if first.Val? {
      var j, fr2, mem2 := SimExpr(k, fuel, t, x.c, e.right, first.env, fr1, rest, mem1);
      n, fr', mem' := i + j, fr2, mem2;
      var second := Eval(k.prog, fuel, e.right, first.env);
      PartStopped(k, fuel, second, Active(fr, rest, mem), i, Active(fr1, rest, mem1), j);
      if second.Val? {
        ArrivesThen(k, t, first.env, second.env, c, x.c, fr1.pc, fr2.pc, fr, rest, mem, i, fr1, mem1, j, fr2, mem2);
        StillShows(e.left, x, fr1, fr2, first.v, x.c.temps);
      }
    }
  }

  /** Both operands and the operator. */
  lemma {:induction false} SimOperation(
    k: Link, fuel: nat, t: Scopes<Symbol>, c: Counters, e: Expr, x: ExprCode, y: ExprCode, env: Env,
    fr: Frame, rest: seq<Saved>, mem: map<Slot, MemCell>)
    returns (n: nat, fr': Frame, mem': map<Slot, MemCell>)
    requires LinkOk(k) && e.Binary? && e.op != LAnd && e.op != LOr
    requires InFragment(e.left) && InFragment(e.right) && Resolved(t, e.left) && Resolved(t, e.right)
    requires x == GenExpr(t, c, e.left) && y == GenExpr(t, x.c, e.right)
    requires Ready(k, t, env, fr, mem, x.code + (y.code + OperatorTail(e.op, e.left, e.right, x, y)))
    ensures
      match Eval(k.prog, fuel, e.left, env)
      case Wrong(err) => Stopped(k.mod, fuel, Active(fr, rest, mem), Stop.Error(err), n)
      case OutOfFuel => Stopped(k.mod, fuel, Active(fr, rest, mem), Endless, n)
      case Val(a, env1) =>
        match Eval(k.prog, fuel, e.right, env1)
        case Wrong(err) => Stopped(k.mod, fuel, Active(fr, rest, mem), Stop.Error(err), n)
        case OutOfFuel => Stopped(k.mod, fuel, Active(fr, rest, mem), Endless, n)
        case Val(b, env2) =>
          match Operate(e.op, a, b)
          case None => Stopped(k.mod, fuel, Active(fr, rest, mem), Stop.Error(Arithmetic), n)
          case Some(v) =>
            && Arrives(k, t, env2, c, fr.pc + |x.code + (y.code + OperatorTail(e.op, e.left, e.right, x, y))|, fr,
                       rest, mem, n, fr', mem')
            && Shows(e, OperatorCode(e.op, e.left, e.right, x, y), fr', v)
    decreases fuel, e, 1
  {
    hide LinkOk, Match, TableOk, Steps, Keeps, CodeAt, Stopped, Operate, InFragment, Resolved, ReadOperand, GenExpr,
         Eval, Shows,
         OperatorTail, OperatorCode;
    var tail := OperatorTail(e.op, e.left, e.right, x, y);
    ExprGrowing(t, c, e.left);
    ExprGrowing(t, x.c, e.right);
    assert x.code + (y.code + tail) == (x.code + y.code) + tail;
    CodeAtAppend(k.mod[fr.fn].code, fr.pc, x.code + y.code, tail);
    var i, fr1, mem1 := SimOperands(k, fuel, t, c, e, x, y, env, fr, rest, mem);
    n, fr', mem' := i, fr1, mem1;
    var first := Eval(k.prog, fuel, e.left, env);
    if first.Val? && Eval(k.prog, fuel, e.right, first.env).Val? {
      var second := Eval(k.prog, fuel, e.right, first.env);
      var h, fr2 := OperatorTailSim(k, fuel, t, second.env, e, x, y, first.v, second.v, fr1, rest, mem1);
      n, fr' := i + h, fr2;
      if Operate(e.op, first.v, second.v).Some? {
        ArrivesThen(k, t, second.env, second.env, c, y.c, fr1.pc, fr2.pc, fr, rest, mem, i, fr1, mem1, h, fr2, mem1);
      } else {
        ThenStopped(k.mod, fuel, Active(fr, rest, mem), i, Active(fr1, rest, mem1), Stop.Error(Arithmetic), h);
      }
    }
  }

  lemma {:induction false} SimOperator(
    k: Link, fuel: nat, t: Scopes<Symbol>, c: Counters, e: Expr, env: Env,
    fr: Frame, rest: seq<Saved>, mem: map<Slot, MemCell>)
    returns (n: nat, fr': Frame, mem': map<Slot, MemCell>)
    requires LinkOk(k) && InFragment(e) && Resolved(t, e)
    requires e.Binary? && e.op != LAnd && e.op != LOr
    requires Ready(k, t, env, fr, mem, GenExpr(t, c, e).code)
    ensures ExprSim(k, fuel, Eval(k.prog, fuel, e, env), e, t, c, GenExpr(t, c, e), fr, rest, mem, n, fr', mem')
    decreases fuel, e, 2
  {
    hide LinkOk, Match, TableOk, Steps, Keeps, CodeAt, Stopped, Operate, ReadOperand, GenPromote, Arrives, Shows;
    var x := GenExpr(t, c, e.left);
    n, fr', mem' := SimOperation(k, fuel, t, c, e, x, GenExpr(t, x.c, e.right), env, fr, rest, mem);
  }

  lemma {:induction false} SimAssign(
    k: Link, fuel: nat, t: Scopes<Symbol>, c: Counters, e: Expr, env: Env,
    fr: Frame, rest: seq<Saved>, mem: map<Slot, MemCell>)
    returns (n: nat, fr': Frame, mem': map<Slot, MemCell>)
    requires LinkOk(k) && e.Assign? && InFragment(e) && Resolved(t, e)
    requires Ready(k, t, env, fr, mem, GenExpr(t, c, e).code)
    ensures ExprSim(k, fuel, Eval(k.prog, fuel, e, env), e, t, c, GenExpr(t, c, e), fr, rest, mem, n, fr', mem')
    decreases fuel, e, 1
  {
    hide LinkOk, Match, TableOk, Steps, Keeps, CodeAt, Stopped, ExprSim, GlobalsOk;
    var x := GenExpr(t, c, e.rhs);
    var store := [Store(I32, OperandOf(e.rhs, x.r), SlotOf(Find(t, e.name).value))];
    LinkStands(k, t, env, fr, mem, GenExpr(t, c, e).code);
    ExprGrowing(t, c, e.rhs);
    ToIntIsFree(x.c, e.rhs, x.r);
    assert [] + store == store;
    CodeAtAppend(k.mod[fr.fn].code, fr.pc, x.code, store);
    var i, fr1, mem1 := SimExpr(k, fuel, t, c, e.rhs, env, fr, rest, mem);
    n, fr', mem' := AssignSim(k, fuel, t, c, e, x, Eval(k.prog, fuel, e.rhs, env), fr, rest, mem, i, fr1, mem1);
  }

  lemma {:induction false} SimUnary(
    k: Link, fuel: nat, t: Scopes<Symbol>, c: Counters, e: Expr, env: Env,
    fr: Frame, rest: seq<Saved>, mem: map<Slot, MemCell>)
    returns (n: nat, fr': Frame, mem': map<Slot, MemCell>)
    requires LinkOk(k) && e.Unary? && !IsStep(e.uop) && InFragment(e) && Resolved(t, e)
    requires Ready(k, t, env, fr, mem, GenExpr(t, c, e).code)
    ensures ExprSim(k, fuel, Eval(k.prog, fuel, e, env), e, t, c, GenExpr(t, c, e), fr, rest, mem, n, fr', mem')
    decreases fuel, e, 1
  {
    hide LinkOk, Match, TableOk, Steps, Keeps, CodeAt, Stopped, Exec, UniqueLabels, GlobalsOk, Operate;
    var x := GenExpr(t, c, e.operand);
    ExprGrowing(t, c, e.operand);
    CodeAtAppend(k.mod[fr.fn].code, fr.pc, x.code, [UnaryInstr(e.uop, x.c.temps + 1, OperandOf(e.operand, x.r))]);
    var i, fr1, mem1 := SimExpr(k, fuel, t, c, e.operand, env, fr, rest, mem);
    n, fr', mem' := i, fr1, mem1;
    var r := Eval(k.prog, fuel, e.operand, env);
    if r.Val? {
      fr' := UnarySim(k, t, r.env, e, x, r.v, fr1, rest, mem1);
      n := i + 1;
      ArrivesThen(k, t, r.env, r.env, c, x.c, fr1.pc, fr'.pc, fr, rest, mem, i, fr1, mem1, 1, fr', mem1);
    }
  }

  /** A condition and its conversion to i1. */
  lemma {:induction false} SimTest(
    k: Link, fuel: nat, t: Scopes<Symbol>, c: Counters, e: Expr, x: ExprCode, env: Env,
    fr: Frame, rest: seq<Saved>, mem: map<Slot, MemCell>)
    returns (n: nat, fr': Frame, mem': map<Slot, MemCell>)
    requires LinkOk(k) && InFragment(e) && Resolved(t, e) && x == GenTest(t, c, e)
    requires Ready(k, t, env, fr, mem, x.code)
    ensures
      match Eval(k.prog, fuel, e, env)
      case Wrong(err) => Stopped(k.mod, fuel, Active(fr, rest, mem), Stop.Error(err), n)
      case OutOfFuel => Stopped(k.mod, fuel, Active(fr, rest, mem), Endless, n)
      case Val(v, env1) =>
        && Arrives(k, t, env1, c, fr.pc + |x.code|, fr, rest, mem, n, fr', mem')
        && ReadOperand(fr', I1, Tmp(x.r)) == Got(BoolV(v != 0))
    decreases fuel, e, 5
  {
    hide LinkOk, Match, TableOk, Steps, Keeps, CodeAt, Stopped, GenExpr, Eval, InFragment, Resolved, GenTruth;
    var y := GenExpr(t, c, e);
    ExprGrowing(t, c, e);
    CodeAtAppend(k.mod[fr.fn].code, fr.pc, y.code, GenTruth(y.c, e, y.r).code);
    n, fr', mem' := SimExpr(k, fuel, t, c, e, env, fr, rest, mem);
    var r := Eval(k.prog, fuel, e, env);
    if r.Val? {
      n, fr' := TestSim(k, fuel, t, e, c, y, r.v, r.env, fr, rest, mem, n, fr', mem');
    }
  }

  /** `&&` or `||` up to the end of the left operand's test. */
  lemma {:induction false} SimLeft(
    k: Link, fuel: nat, t: Scopes<Symbol>, c: Counters, ty: Type, e: Expr, l: Expr, x: ExprCode, env: Env,
    fr: Frame, rest: seq<Saved>, mem: map<Slot, MemCell>)
    returns (n: nat, fr': Frame, mem': map<Slot, MemCell>)
    requires LinkOk(k) && InFragment(l) && Resolved(t, l) && x == GenTest(t, Reserve(c), l) && l < e
    requires Stands(k, t, env, fr, mem)
    requires CodeAt(k.mod[fr.fn].code, fr.pc, [Alloca(ResultSlot(c), ty)])
    requires CodeAt(k.mod[fr.fn].code, fr.pc + 1, x.code)
    ensures
      match Eval(k.prog, fuel, l, env)
      case Wrong(err) => Stopped(k.mod, fuel, Active(fr, rest, mem), Stop.Error(err), n)
      case OutOfFuel => Stopped(k.mod, fuel, Active(fr, rest, mem), Endless, n)
      case Val(v, env1) =>
        && Arrives(k, t, env1, c, fr.pc + 1 + |x.code|, fr, rest, mem, n, fr', mem')
        && ReadOperand(fr', I1, Tmp(x.r)) == Got(BoolV(v != 0))
        && SlotIs(fr', c.temps + 1, ty, None)
    decreases fuel, e, 0
  {
    hide LinkOk, Match, TableOk, Steps, Keeps, CodeAt, Stopped, GenTest, Eval, InFragment, Resolved;
    CodeAtLines(k.mod[fr.fn].code, fr.pc, [Alloca(ResultSlot(c), ty)]);
    var fr1 := AllocaArrives(k, t, env, c, c.temps + 1, ty, fr, rest, mem);
    var j, fr2, mem2 := SimTest(k, fuel, t, Reserve(c), l, x, env, fr1, rest, mem);
    n, fr', mem' := 1 + j, fr2, mem2;
    var r := Eval(k.prog, fuel, l, env);
    PartStopped(k, fuel, r, Active(fr, rest, mem), 1, Active(fr1, rest, mem), j);
    if r.Val? {
      ArrivesThen(k, t, env, r.env, c, Reserve(c), fr1.pc, fr2.pc, fr, rest, mem, 1, fr1, mem, j, fr2, mem2);
      SlotKept(fr1, fr2, c.temps + 1, c.temps + 1, ty, None);
    }
  }

  /** The right operand of `&&` or `||` and what follows it. */
  lemma {:induction false} SimRight(
    k: Link, fuel: nat, t: Scopes<Symbol>, c: Counters, e: Expr, test: ExprCode, y: ExprCode, env: Env,
    fr: Frame, rest: seq<Saved>, mem: map<Slot, MemCell>)
    returns (n: nat, fr': Frame, mem': map<Slot, MemCell>)
    requires LinkOk(k) && e.Binary? && (e.op == LAnd || e.op == LOr) && InFragment(e.right) && Resolved(t, e.right)
    requires y == GenTest(t, test.c, e.right) && c.temps < test.c.temps
    requires Stands(k, t, env, fr, mem) && SlotIs(fr, c.temps + 1, I1, None)
    requires CodeAt(k.mod[fr.fn].code, fr.pc, LogicalShortcut(c, e.op, test.r))
    requires CodeAt(k.mod[fr.fn].code, fr.pc + 5, y.code)
    requires CodeAt(k.mod[fr.fn].code, fr.pc + 5 + |y.code|, LogicalExit(c, y.r, y.c.temps + 1))
    requires ReadOperand(fr, I1, Tmp(test.r)) == Got(BoolV(e.op == LAnd))
    ensures
      match Eval(k.prog, fuel, e.right, env)
      case Wrong(err) => Stopped(k.mod, fuel, Active(fr, rest, mem), Stop.Error(err), n)
      case OutOfFuel => Stopped(k.mod, fuel, Active(fr, rest, mem), Endless, n)
      case Val(v, env1) =>
        && Arrives(k, t, env1, c, fr.pc + 5 + |y.code| + 5, fr, rest, mem, n, fr', mem')
        && ReadOperand(fr', I32, Tmp(y.c.temps + 2)) == Got(IntV(FromBool(v != 0)))
    decreases fuel, e, 0
  {
    hide LinkOk, Match, TableOk, Steps, Keeps, CodeAt, Stopped, GenTest, Eval, InFragment, Resolved, ReadOperand,
         SlotIs, UniqueLabels;
    var fr1 := fr.(pc := fr.pc + 5);
    GoOnArrives(k, t, env, c, test.c, e.op, test.r, fr, rest, mem);
    ExprGrowing(t, test.c, e.right);
    var j, fr2, mem2 := SimTest(k, fuel, t, test.c, e.right, y, env, fr1, rest, mem);
    n, fr', mem' := 1 + j, fr2, mem2;
    var r := Eval(k.prog, fuel, e.right, env);
    PartStopped(k, fuel, r, Active(fr, rest, mem), 1, Active(fr1, rest, mem), j);
    if r.Val? {
      ArrivesThen(k, t, env, r.env, test.c, test.c, fr1.pc, fr2.pc, fr, rest, mem, 1, fr1, mem, j, fr2, mem2);
      ArrivesLess(k, t, r.env, c, test.c, fr2.pc, fr, rest, mem, n, fr2, mem2);
      SlotKept(fr, fr2, c.temps + 1, test.c.temps, I1, None);
      fr' := RightSim(k, t, r.env, c, y.r, y.c.temps + 1, r.v != 0, fr2, rest, mem2);
      ArrivesThen(k, t, r.env, r.env, c, c, fr2.pc, fr'.pc, fr, rest, mem, n, fr2, mem2, 4, fr', mem2);
      n := n + 4;
    }
  }

  /** A whole `&&` or `||`, given where its parts lie. */
  lemma {:induction false} SimShortCircuit(
    k: Link, fuel: nat, t: Scopes<Symbol>, c: Counters, e: Expr, test: ExprCode, last: ExprCode, m: nat, q: nat,
    env: Env,
    fr: Frame, rest: seq<Saved>, mem: map<Slot, MemCell>)
    returns (n: nat, fr': Frame, mem': map<Slot, MemCell>)
    requires LinkOk(k) && e.Binary? && (e.op == LAnd || e.op == LOr)
    requires InFragment(e.left) && InFragment(e.right) && Resolved(t, e.left) && Resolved(t, e.right)
    requires Stands(k, t, env, fr, mem)
    requires test == GenTest(t, Reserve(c), e.left) && last == GenTest(t, test.c, e.right)
    requires CodeAt(k.mod[fr.fn].code, fr.pc, [Alloca(ResultSlot(c), I1)])
    requires CodeAt(k.mod[fr.fn].code, fr.pc + 1, test.code)
    requires m == fr.pc + 1 + |test.code| && CodeAt(k.mod[fr.fn].code, m, LogicalShortcut(c, e.op, test.r))
    requires CodeAt(k.mod[fr.fn].code, m + 5, last.code)
    requires q == m + 5 + |last.code| && CodeAt(k.mod[fr.fn].code, q, LogicalExit(c, last.r, last.c.temps + 1))
    ensures
      match Eval(k.prog, fuel, e.left, env)
      case Wrong(err) => Stopped(k.mod, fuel, Active(fr, rest, mem), Stop.Error(err), n)
      case OutOfFuel => Stopped(k.mod, fuel, Active(fr, rest, mem), Endless, n)
      case Val(a, env1) =>
        if (a != 0) == (e.op == LOr) then
          && Arrives(k, t, env1, c, q + 5, fr, rest, mem, n, fr', mem')
          && ReadOperand(fr', I32, Tmp(last.c.temps + 2)) == Got(IntV(FromBool(e.op == LOr)))
        else
          match Eval(k.prog, fuel, e.right, env1)
          case Wrong(err) => Stopped(k.mod, fuel, Active(fr, rest, mem), Stop.Error(err), n)
          case OutOfFuel => Stopped(k.mod, fuel, Active(fr, rest, mem), Endless, n)
          case Val(b, env2) =>
            && Arrives(k, t, env2, c, q + 5, fr, rest, mem, n, fr', mem')
            && ReadOperand(fr', I32, Tmp(last.c.temps + 2)) == Got(IntV(FromBool(b != 0)))
    decreases fuel, e, 1
  {
    hide LinkOk, Match, TableOk, Steps, Keeps, CodeAt, Stopped, GenTest, GenExpr, Eval, InFragment, Resolved,
         UniqueLabels, SlotIs, ReadOperand;
    ExprGrowing(t, Reserve(c), e.left);
    ExprGrowing(t, test.c, e.right);
    n, fr', mem' := SimLeft(k, fuel, t, c, I1, e, e.left, test, env, fr, rest, mem);
    var r := Eval(k.prog, fuel, e.left, env);
    if r.Val? {
      var i, fr1 := n, fr';
      if (r.v != 0) == (e.op == LOr) {
        fr' := ShortSim(k, t, r.env, c, e.op, test.r, last.r, last.c.temps + 1, q, fr1, rest, mem');
        n := i + 5;
        ArrivesThen(k, t, r.env, r.env, c, c, fr1.pc, fr'.pc, fr, rest, mem, i, fr1, mem', 5, fr', mem');
      } else {
        var j, fr2, mem2 := SimRight(k, fuel, t, c, e, test, last, r.env, fr1, rest, mem');
        var second := Eval(k.prog, fuel, e.right, r.env);
        PartStopped(k, fuel, second, Active(fr, rest, mem), i, Active(fr1, rest, mem'), j);
        if second.Val? {
          ArrivesThen(k, t, r.env, second.env, c, c, fr1.pc, fr2.pc, fr, rest, mem, i, fr1, mem', j, fr2, mem2);
        }
        n, fr', mem' := i + j, fr2, mem2;
      }
    }
  }

  lemma {:induction false} SimLogical(
    k: Link, fuel: nat, t: Scopes<Symbol>, c: Counters, e: Expr, env: Env,
    fr: Frame, rest: seq<Saved>, mem: map<Slot, MemCell>)
    returns (n: nat, fr': Frame, mem': map<Slot, MemCell>)
    requires LinkOk(k) && e.Binary? && (e.op == LAnd || e.op == LOr) && InFragment(e) && Resolved(t, e)
    requires Ready(k, t, env, fr, mem, GenExpr(t, c, e).code)
    ensures ExprSim(k, fuel, Eval(k.prog, fuel, e, env), e, t, c, GenExpr(t, c, e), fr, rest, mem, n, fr', mem')
    decreases fuel, e, 2
  {
    hide LinkOk, Match, TableOk, Steps, Keeps, CodeAt, Stopped, GenTruth, UniqueLabels, SlotIs, Arrives;
    LinkStands(k, t, env, fr, mem, GenExpr(t, c, e).code);
    var x := GenExpr(t, Reserve(c), e.left);
    var test := GenTest(t, Reserve(c), e.left);
    var y := GenExpr(t, test.c, e.right);
    var last := GenTest(t, test.c, e.right);
    var m, q := LogicalLies(k.mod[fr.fn].code, fr.pc, c, e.op, e.left, e.right, x, y);
    n, fr', mem' := SimShortCircuit(k, fuel, t, c, e, test, last, m, q, env, fr, rest, mem);
  }

  /** A chosen branch, evaluated while the result's slot waits. */
  lemma {:induction false} SimArm(
    k: Link, fuel: nat, t: Scopes<Symbol>, c: Counters, c1: Counters, e: Expr, arm: Expr, x: ExprCode, env: Env,
    fr: Frame, rest: seq<Saved>, mem: map<Slot, MemCell>)
    returns (n: nat, fr': Frame, mem': map<Slot, MemCell>)
    requires LinkOk(k) && IsValue(arm) && Resolved(t, arm) && arm < e
    requires x == GenExpr(t, c1, arm) && c.temps < c1.temps
    requires Ready(k, t, env, fr, mem, x.code) && SlotIs(fr, c.temps + 1, I32, None)
    ensures
      match Eval(k.prog, fuel, arm, env)
      case Wrong(err) => Stopped(k.mod, fuel, Active(fr, rest, mem), Stop.Error(err), n)
      case OutOfFuel => Stopped(k.mod, fuel, Active(fr, rest, mem), Endless, n)
      case Val(v, env1) =>
        && Arrives(k, t, env1, c, fr.pc + |x.code|, fr, rest, mem, n, fr', mem')
        && ReadOperand(fr', I32, OperandOf(arm, x.r)) == Got(IntV(v))
        && SlotIs(fr', c.temps + 1, I32, None)
    decreases fuel, e, 0
  {
    hide LinkOk, Match, TableOk, Steps, Keeps, CodeAt, Stopped, GenExpr, Eval, InFragment, Resolved, SlotIs,
         ReadOperand;
    n, fr', mem' := SimExpr(k, fuel, t, c1, arm, env, fr, rest, mem);
    var r := Eval(k.prog, fuel, arm, env);
    if r.Val? {
      ArrivesLess(k, t, r.env, c, c1, fr'.pc, fr, rest, mem, n, fr', mem');
      SlotKept(fr, fr', c.temps + 1, c1.temps, I32, None);
      ValueShows(arm, x, fr', r.v);
    }
  }

  /** The branch that the condition chooses, from the test on. */
  lemma {:induction false} SimBranch(
    k: Link, fuel: nat, t: Scopes<Symbol>, c: Counters, e: Expr, b: bool, test: int, c1: Counters, arm: Expr,
    x: ExprCode,
    o: Operand, w: Operand, final: int, p: nat, l: nat, env: Env, fr: Frame, rest: seq<Saved>, mem: map<Slot, MemCell>)
    returns (n: nat, fr': Frame, mem': map<Slot, MemCell>)
    requires LinkOk(k) && IsValue(arm) && Resolved(t, arm) && arm < e
    requires x == GenExpr(t, c1, arm) && c.temps < c1.temps && final > c.temps
    requires Stands(k, t, env, fr, mem) && SlotIs(fr, c.temps + 1, I32, None)
    requires CodeAt(k.mod[fr.fn].code, fr.pc, CondChoice(c, test)) && CodeAt(k.mod[fr.fn].code, p, CondElse(c, o))
    requires CodeAt(k.mod[fr.fn].code, l, CondExit(c, w, final))
    requires CodeAt(k.mod[fr.fn].code, if b then fr.pc + 2 else p + 3, x.code)
    requires (if b then fr.pc + 2 + |x.code| == p else p + 3 + |x.code| == l)
    requires (if b then o else w) == OperandOf(arm, x.r)
    requires ReadOperand(fr, I1, Tmp(test)) == Got(BoolV(b))
    ensures
      match Eval(k.prog, fuel, arm, env)
      case Wrong(err) => Stopped(k.mod, fuel, Active(fr, rest, mem), Stop.Error(err), n)
      case OutOfFuel => Stopped(k.mod, fuel, Active(fr, rest, mem), Endless, n)
      case Val(v, env1) =>
        && Arrives(k, t, env1, c, l + 4, fr, rest, mem, n, fr', mem')
        && ReadOperand(fr', I32, Tmp(final)) == Got(IntV(v))
    decreases fuel, e, 1
  {
    hide LinkOk, Match, TableOk, Steps, Keeps, CodeAt, Stopped, GenExpr, Eval, InFragment, Resolved, UniqueLabels,
         SlotIs, ReadOperand;
    var fr1 := ChoiceArrives(k, t, env, c, c, test, b, o, p, fr, rest, mem);
    SameFrameKeeps(fr, fr1, c.temps + 1);
    SlotKept(fr, fr1, c.temps + 1, c.temps + 1, I32, None);
    var j, fr2, mem2 := SimArm(k, fuel, t, c, c1, e, arm, x, env, fr1, rest, mem);
    n, fr', mem' := 1 + j, fr2, mem2;
    var r := Eval(k.prog, fuel, arm, env);
    PartStopped(k, fuel, r, Active(fr, rest, mem), 1, Active(fr1, rest, mem), j);
    if r.Val? {
      ArrivesThen(k, t, env, r.env, c, c, fr1.pc, fr2.pc, fr, rest, mem, 1, fr1, mem, j, fr2, mem2);
      fr' := ChosenSim(k, t, r.env, c, b, o, w, r.v, final, p, l, fr2, rest, mem2);
      ArrivesThen(k, t, r.env, r.env, c, c, fr2.pc, fr'.pc, fr, rest, mem, n, fr2, mem2, 3, fr', mem2);
      n := n + 3;
    }
  }

  lemma SameFrameKeeps(fr: Frame, fr': Frame, n: int)
    requires fr'.temps == fr.temps && fr'.slots == fr.slots
    ensures Keeps(fr, fr', n)
  {
  }

  /** A whole `?:`, given where its parts lie. */
  lemma {:induction false} SimChoice(
    k: Link, fuel: nat, t: Scopes<Symbol>, c: Counters, e: Expr, test: ExprCode, y: ExprCode, z: ExprCode,
    m: nat, p: nat, l: nat, env: Env, fr: Frame, rest: seq<Saved>, mem: map<Slot, MemCell>)
    returns (n: nat, fr': Frame, mem': map<Slot, MemCell>)
    requires LinkOk(k) && e.Cond? && InFragment(e.cond) && IsValue(e.thenExpr) && IsValue(e.elseExpr)
    requires Resolved(t, e.cond) && Resolved(t, e.thenExpr) && Resolved(t, e.elseExpr)
    requires test == GenTest(t, Reserve(c), e.cond)
    requires y == GenExpr(t, test.c, e.thenExpr) && z == GenExpr(t, y.c, e.elseExpr)
    requires Stands(k, t, env, fr, mem)
    requires CodeAt(k.mod[fr.fn].code, fr.pc, [Alloca(ResultSlot(c), I32)])
    requires CodeAt(k.mod[fr.fn].code, fr.pc + 1, test.code)
    requires m == fr.pc + 1 + |test.code| && CodeAt(k.mod[fr.fn].code, m, CondChoice(c, test.r))
    requires CodeAt(k.mod[fr.fn].code, m + 2, y.code)
    requires p == m + 2 + |y.code| && CodeAt(k.mod[fr.fn].code, p, CondElse(c, OperandOf(e.thenExpr, y.r)))
    requires CodeAt(k.mod[fr.fn].code, p + 3, z.code)
    requires l == p + 3 + |z.code|
             && CodeAt(k.mod[fr.fn].code, l, CondExit(c, OperandOf(e.elseExpr, z.r), z.c.temps + 1))
    ensures
      match Eval(k.prog, fuel, e.cond, env)
      case Wrong(err) => Stopped(k.mod, fuel, Active(fr, rest, mem), Stop.Error(err), n)
      case OutOfFuel => Stopped(k.mod, fuel, Active(fr, rest, mem), Endless, n)
      case Val(a, env1) =>
        match Eval(k.prog, fuel, if a != 0 then e.thenExpr else e.elseExpr, env1)
        case Wrong(err) => Stopped(k.mod, fuel, Active(fr, rest, mem), Stop.Error(err), n)
        case OutOfFuel => Stopped(k.mod, fuel, Active(fr, rest, mem), Endless, n)
        case Val(v, env2) =>
          && Arrives(k, t, env2, c, l + 4, fr, rest, mem, n, fr', mem')
          && ReadOperand(fr', I32, Tmp(z.c.temps + 1)) == Got(IntV(v))
    decreases fuel, e, 2
  {
    hide LinkOk, Match, TableOk, Steps, Keeps, CodeAt, Stopped, GenTest, GenExpr, Eval, InFragment, Resolved,
         UniqueLabels, SlotIs, ReadOperand;
    ExprGrowing(t, Reserve(c), e.cond);
    ExprGrowing(t, test.c, e.thenExpr);
    ExprGrowing(t, y.c, e.elseExpr);
    n, fr', mem' := SimLeft(k, fuel, t, c, I32, e, e.cond, test, env, fr, rest, mem);
    var r := Eval(k.prog, fuel, e.cond, env);
    if r.Val? {
      var i, fr1, b := n, fr', r.v != 0;
      var arm := if b then e.thenExpr else e.elseExpr;
      var j, fr2, mem2 := SimBranch(
        k, fuel, t, c, e, b, test.r, if b then test.c else y.c, arm, if b then y else z,
        OperandOf(e.thenExpr, y.r), OperandOf(e.elseExpr, z.r), z.c.temps + 1, p, l, r.env, fr1, rest, mem');
      var second := Eval(k.prog, fuel, arm, r.env);
      PartStopped(k, fuel, second, Active(fr, rest, mem), i, Active(fr1, rest, mem'), j);
      if second.Val? {
        ArrivesThen(k, t, r.env, second.env, c, c, fr1.pc, fr2.pc, fr, rest, mem, i, fr1, mem', j, fr2, mem2);
      }
      n, fr', mem' := i + j, fr2, mem2;
    }
  }

  lemma {:induction false} SimCond(
    k: Link, fuel: nat, t: Scopes<Symbol>, c: Counters, e: Expr, env: Env,
    fr: Frame, rest: seq<Saved>, mem: map<Slot, MemCell>)
    returns (n: nat, fr': Frame, mem': map<Slot, MemCell>)
    requires LinkOk(k) && e.Cond? && InFragment(e) && Resolved(t, e)
    requires Ready(k, t, env, fr, mem, GenExpr(t, c, e).code)
    ensures ExprSim(k, fuel, Eval(k.prog, fuel, e, env), e, t, c, GenExpr(t, c, e), fr, rest, mem, n, fr', mem')
    decreases fuel, e, 3
  {
    hide LinkOk, Match, TableOk, Steps, Keeps, CodeAt, Stopped, GenTruth, UniqueLabels, SlotIs, Arrives;
    LinkStands(k, t, env, fr, mem, GenExpr(t, c, e).code);
    var x := GenExpr(t, Reserve(c), e.cond);
    var test := GenTest(t, Reserve(c), e.cond);
    var y := GenExpr(t, test.c, e.thenExpr);
    ToIntIsFree(y.c, e.thenExpr, y.r);
    var z := GenExpr(t, y.c, e.elseExpr);
    var m, p, l := CondLies(k.mod[fr.fn].code, fr.pc, c, e.cond, e.thenExpr, e.elseExpr, x, y, z);
    n, fr', mem' := SimChoice(k, fuel, t, c, e, test, y, z, m, p, l, env, fr, rest, mem);
  }

  lemma {:induction false} SimArgs(
    k: Link, fuel: nat, t: Scopes<Symbol>, c: Counters, es: seq<Expr>, env: Env,
    fr: Frame, rest: seq<Saved>, mem: map<Slot, MemCell>)
    returns (n: nat, fr': Frame, mem': map<Slot, MemCell>)
    requires LinkOk(k) && AllValues(es) && ArgsResolved(t, es)
    requires Ready(k, t, env, fr, mem, GenArgs(t, c, es).code)
    ensures ArgsSim(k, fuel, EvalArgs(k.prog, fuel, es, env), t, c, GenArgs(t, c, es), fr, rest, mem, n, fr', mem')
    decreases fuel, es, 0
  {
    hide LinkOk, Match, TableOk, Steps, Keeps, CodeAt, Stopped, GenExpr, Eval, InFragment, Resolved;
    if es == [] {
      n, fr', mem' := 0, fr, mem;
      NoMove(k, t, env, c, fr, rest, mem);
    } else {
      var x := GenExpr(t, c, es[0]);
      var xs := GenArgs(t, x.c, es[1..]);
      ExprGrowing(t, c, es[0]);
      CodeAtAppend(k.mod[fr.fn].code, fr.pc, x.code, xs.code);
      var i, fr1, mem1 := SimExpr(k, fuel, t, c, es[0], env, fr, rest, mem);
      n, fr', mem' := i, fr1, mem1;
      var r := Eval(k.prog, fuel, es[0], env);
      if r.Val? {
        var j, fr2, mem2 := SimArgs(k, fuel, t, x.c, es[1..], r.env, fr1, rest, mem1);
        n, fr', mem' := i + j, fr2, mem2;
        var rs := EvalArgs(k.prog, fuel, es[1..], r.env);
        ArgsStopped(k, fuel, rs, Active(fr, rest, mem), i, Active(fr1, rest, mem1), j);
        if rs.Vals? {
          ArrivesThen(k, t, r.env, rs.env, c, x.c, fr1.pc, fr2.pc, fr, rest, mem, i, fr1, mem1, j, fr2, mem2);
          StillShows(es[0], x, fr1, fr2, r.v, x.c.temps);
          FirstArg(fr2, es[0], x, xs, r.v, rs.vs);
        }
      }
    }
  }

  lemma ArgsStopped(k: Link, fuel: nat, rs: Results, s: State, i: nat, s1: State, j: nat)
    requires Goes(k.mod, s, i, s1)
    requires rs.WrongArgs? ==> Stopped(k.mod, fuel, s1, Stop.Error(rs.error), j)
    requires rs.ArgsOutOfFuel? ==> Stopped(k.mod, fuel, s1, Endless, j)
    ensures rs.WrongArgs? ==> Stopped(k.mod, fuel, s, Stop.Error(rs.error), i + j)
    ensures rs.ArgsOutOfFuel? ==> Stopped(k.mod, fuel, s, Endless, i + j)
  {
    if rs.WrongArgs? {
      ThenStopped(k.mod, fuel, s, i, s1, Stop.Error(rs.error), j);
    } else if rs.ArgsOutOfFuel? {
      ThenStopped(k.mod, fuel, s, i, s1, Endless, j);
    }
  }

  /** The call itself, once its arguments are evaluated. */
  lemma {:induction false} SimCallStep(
    k: Link, fuel: nat, e: Expr, t: Scopes<Symbol>, c: Counters, f: string, a: ArgsCode, vs: seq<int32>, env: Env,
    fr: Frame, rest: seq<Saved>, mem: map<Slot, MemCell>)
    returns (n: nat, fr': Frame, mem': map<Slot, MemCell>)
    requires LinkOk(k) && fuel > 0 && c.temps <= a.c.temps
    requires Ready(k, t, env, fr, mem, [CallI(a.c.temps + 1, f, a.args)])
    requires ReadArgs(fr, a.args) == GotAll(vs)
    ensures
      match Invoke(k.prog, fuel - 1, f, vs, Globals(env))
      case Failed(err) => Stopped(k.mod, fuel, Active(fr, rest, mem), Stop.Error(err), n)
      case NoAnswer => Stopped(k.mod, fuel, Active(fr, rest, mem), Endless, n)
      case Answer(v, g) =>
        && Arrives(k, t, WithGlobals(env, g), c, fr.pc + 1, fr, rest, mem, n, fr', mem')
        && ReadOperand(fr', I32, Tmp(a.c.temps + 1)) == Got(IntV(v))
    decreases fuel, e, 0
  {
    hide Match, TableOk, Steps, CodeAt, RoutineOk, Exec, GlobalsOk, UniqueLabels;
    StepAt(k, fr, rest, mem, [CallI(a.c.temps + 1, f, a.args)], 0);
    n, fr', mem' := 1, fr, mem;
    CallLinks(k, f, |vs|);
    if f in k.prog && |k.prog[f].params| == |vs| {
      MatchGlobals(env, t, fr.slots, mem, k.fs);
      var callee := Active(Entry(k.mod, f, vs), [Saved(fr, a.c.temps + 1)] + rest, mem);
      var j, mem1 := SimInvoke(k, fuel - 1, f, vs, Globals(env), [Saved(fr, a.c.temps + 1)] + rest, mem);
      n, mem' := 1 + j, mem1;
      match Invoke(k.prog, fuel - 1, f, vs, Globals(env))
      case Failed(err) => ThenStopped(k.mod, fuel - 1, Active(fr, rest, mem), 1, callee, Stop.Error(err), j);
      case NoAnswer => ThenStopped(k.mod, fuel - 1, Active(fr, rest, mem), 1, callee, Endless, j);
      case Answer(v, g) =>
        fr' := SetTemp(fr, a.c.temps + 1, IntV(v));
        assert ([Saved(fr, a.c.temps + 1)] + rest)[1..] == rest;
        Then(k.mod, Active(fr, rest, mem), 1, callee, j, Active(fr', rest, mem1));
        MatchNewGlobals(env, t, fr.slots, mem, k.fs, g, mem1);
    }
  }

  /** The module has a routine exactly where the program has a function. */
  lemma CallLinks(k: Link, f: string, arity: nat)
    requires LinkOk(k)
    ensures (f in k.prog && |k.prog[f].params| == arity) <==> (f in k.mod && |k.mod[f].params| == arity)
  {
  }

  lemma {:induction false} SimCall(
    k: Link, fuel: nat, t: Scopes<Symbol>, c: Counters, e: Expr, env: Env,
    fr: Frame, rest: seq<Saved>, mem: map<Slot, MemCell>)
    returns (n: nat, fr': Frame, mem': map<Slot, MemCell>)
    requires LinkOk(k) && e.Call? && InFragment(e) && Resolved(t, e)
    requires Ready(k, t, env, fr, mem, GenExpr(t, c, e).code)
    ensures ExprSim(k, fuel, Eval(k.prog, fuel, e, env), e, t, c, GenExpr(t, c, e), fr, rest, mem, n, fr', mem')
    decreases fuel, e, 1
  {
    hide LinkOk, Match, TableOk, Steps, Keeps, CodeAt, Stopped, Invoke, EvalArgs, GenArgs, Operate, Execute, Exec,
         UniqueLabels, GlobalsOk;
    var a := GenArgs(t, c, e.args);
    ArgsDefineOnce(t, c, e.args, TempItem(0));
    CodeAtAppend(k.mod[fr.fn].code, fr.pc, a.code, [CallI(a.c.temps + 1, e.callee, a.args)]);
    var i, fr1, mem1 := SimArgs(k, fuel, t, c, e.args, env, fr, rest, mem);
    n, fr', mem' := i, fr1, mem1;
    var rs := EvalArgs(k.prog, fuel, e.args, env);
    if rs.Vals? {
      if fuel == 0 {
        OutOfFuelNow(k, Active(fr, rest, mem), i, Active(fr1, rest, mem1));
      } else {
        var j, fr2, mem2 := SimCallStep(k, fuel, e, t, c, e.callee, a, rs.vs, rs.env, fr1, rest, mem1);
        n, fr', mem' := i + j, fr2, mem2;
        match Invoke(k.prog, fuel - 1, e.callee, rs.vs, Globals(rs.env))
        case Failed(err) =>
          ThenStopped(k.mod, fuel, Active(fr, rest, mem), i, Active(fr1, rest, mem1), Stop.Error(err), j);
        case NoAnswer => ThenStopped(k.mod, fuel, Active(fr, rest, mem), i, Active(fr1, rest, mem1), Endless, j);
        case Answer(v, g) =>
          ArrivesThen(k, t, rs.env, WithGlobals(rs.env, g), c, c, fr1.pc, fr2.pc, fr, rest, mem, i, fr1, mem1, j, fr2,
                      mem2);
      }
    }
  }

  lemma OutOfFuelNow(k: Link, s: State, i: nat, s1: State)
    requires Goes(k.mod, s, i, s1) && s1.Active?
    ensures Stopped(k.mod, 0, s, Endless, i)
  {
  }

  // ----- Statements -----

  /** An expression in a statement: no temporary is needed afterwards. */
  lemma {:induction false} SimValue(
    k: Link, fuel: nat, t: Scopes<Symbol>, c: Counters, e: Expr, x: ExprCode, env: Env,
    fr: Frame, rest: seq<Saved>, mem: map<Slot, MemCell>)
    returns (n: nat, fr': Frame, mem': map<Slot, MemCell>)
    requires LinkOk(k) && IsValue(e) && Resolved(t, e) && x == GenExpr(t, c, e)
    requires Ready(k, t, env, fr, mem, x.code)
    ensures
      match Eval(k.prog, fuel, e, env)
      case Wrong(err) => Stopped(k.mod, fuel, Active(fr, rest, mem), Stop.Error(err), n)
      case OutOfFuel => Stopped(k.mod, fuel, Active(fr, rest, mem), Endless, n)
      case Val(v, env1) =>
        && Reaches(k, t, env1, fr.pc + |x.code|, fr, rest, mem, n, fr', mem')
        && ReadOperand(fr', I32, OperandOf(e, x.r)) == Got(IntV(v))
    decreases fuel, e, 5
  {
    hide LinkOk, Match, TableOk, Steps, CodeAt, Stopped, GenExpr, Eval, InFragment, Resolved, ReadOperand, Goes;
    n, fr', mem' := SimExpr(k, fuel, t, c, e, env, fr, rest, mem);
    var r := Eval(k.prog, fuel, e, env);
    if r.Val? {
      ArrivesReaches(k, t, r.env, c, fr'.pc, fr, rest, mem, n, fr', mem');
      ValueShows(e, x, fr', r.v);
    }
  }

  lemma ReadyFor(
    k: Link, g: Context, inLoop: bool, env: Env, fr: Frame, mem: map<Slot, MemCell>, part: seq<Instr>, a: seq<Instr>,
    b: seq<Instr>)
    requires StmtReady(k, g, inLoop, env, fr, mem, part) && part == a + b
    ensures Ready(k, g.table.scopes, env, fr, mem, a) && CodeAt(k.mod[fr.fn].code, fr.pc + |a|, b)
  {
    CodeAtAppend(k.mod[fr.fn].code, fr.pc, a, b);
  }

  lemma {:induction false} SimReturn(
    k: Link, fuel: nat, g: Context, s: Stmt, env: Env, fr: Frame, rest: seq<Saved>, mem: map<Slot, MemCell>)
    returns (n: nat, fr': Frame, mem': map<Slot, MemCell>)
    requires LinkOk(k) && s.Return? && IsValue(s.value) && !g.inReturnBlock && Resolved(g.table.scopes, s.value)
    requires StmtReady(k, g, false, env, fr, mem, GenStmt(g, s).code)
    ensures StmtSim(k, fuel, Exec(k.prog, fuel, s, env), g, GenStmt(g, s), fr, rest, mem, n, fr', mem')
    decreases fuel, s, 0
  {
    hide LinkOk, Match, TableOk, Steps, CodeAt, Stopped, GenExpr, Eval, InFragment, Resolved, ReadOperand, After;
    var t := g.table.scopes;
    var x := GenExpr(t, g.c, s.value);
    var ret := [Ret(OperandOf(s.value, x.r))];
    ToIntIsFree(x.c, s.value, x.r);
    assert [] + ret == ret;
    ReadyFor(k, g, false, env, fr, mem, GenStmt(g, s).code, x.code, ret);
    n, fr', mem' := SimValue(k, fuel, t, g.c, s.value, x, env, fr, rest, mem);
    var r := Eval(k.prog, fuel, s.value, env);
    if r.Val? {
      CodeAtLines(k.mod[fr.fn].code, fr'.pc, ret);
      RetReturns(k, OperandOf(s.value, x.r), r.v, fr', rest, mem');
      Then(k.mod, Active(fr, rest, mem), n, Active(fr', rest, mem'), 1, ReturnTo(rest, r.v, mem'));
      MatchGlobals(r.env, t, fr'.slots, mem', k.fs);
      n := n + 1;
    } else {
      ExprAborts(k, fuel, r, t, g.breakLabel, g.continueLabel, fr, rest, mem, n, fr', mem');
    }
  }

  lemma {:induction false} SimDecl(
    k: Link, fuel: nat, g: Context, s: Stmt, env: Env, fr: Frame, rest: seq<Saved>, mem: map<Slot, MemCell>)
    returns (n: nat, fr': Frame, mem': map<Slot, MemCell>)
    requires LinkOk(k) && s.Decl? && (s.init.Some? ==> IsValue(s.init.value)) && !g.inReturnBlock
    requires s.name !in g.table.scopes.vars
    requires OptionResolved(AddSymbol(g.table, s.name, VariableSymbol, false).scopes, s.init)
    requires StmtReady(k, g, false, env, fr, mem, GenDecl(g, s.name, s.init).code)
    ensures StmtSim(k, fuel, Exec(k.prog, fuel, s, env), g, GenDecl(g, s.name, s.init), fr, rest, mem, n, fr', mem')
    decreases fuel, s, 1
  {
    hide LinkOk, Match, Steps, CodeAt, Stopped, GenExpr, Eval, InFragment, Resolved, ReadOperand, After, Goes,
         TableFits, TableOk;
    var sym := NewSymbol(g.table, s.name, VariableSymbol, false);
    var g1 := g.(table := AddSymbol(g.table, s.name, VariableSymbol, false));
    var t := g1.table.scopes;
    var whole := GenDecl(g, s.name, s.init).code;
    assert whole[..1] == [Alloca(SlotOf(sym), I32)] && whole == whole[..1] + whole[1..];
    ReadyFor(k, g, false, env, fr, mem, whole, whole[..1], whole[1..]);
    CodeAtLines(k.mod[fr.fn].code, fr.pc, whole[..1]);
    fr' := DeclareReaches(k, g, s.name, env, fr, rest, mem);
    n, mem' := 1, mem;
    DeclareFits(g.table, s.name, false);
    if s.init.Some? {
      var fr1 := fr';
      assert Ready(k, t, Bind(env, s.name, Unset), fr1, mem, whole[1..]) by { FitsOk(g1.table); }
      var j, fr2, mem2 := SimInit(k, fuel, g1, s, sym, Bind(env, s.name, Unset), fr1, rest, mem, whole[1..]);
      n, fr', mem' := 1 + j, fr2, mem2;
      var r := Eval(k.prog, fuel, s.init.value, Bind(env, s.name, Unset));
      PartStopped(k, fuel, r, Active(fr, rest, mem), 1, Active(fr1, rest, mem), j) by {
        GoesOf(k, t, Bind(env, s.name, Unset), fr.pc + 1, fr, rest, mem, 1, fr1, mem);
      }
      if r.Val? {
        ReachesThen(k, t, Bind(env, s.name, Unset), fr1.pc, t, Update(r.env, s.name, Held(r.v)), fr2.pc,
                    fr, rest, mem, 1, fr1, mem, j, fr2, mem2);
      } else {
        ExprAborts(k, fuel, r, g.table.scopes, g.breakLabel, g.continueLabel, fr, rest, mem, n, fr', mem');
      }
    }
  }

  lemma FitsOk(t: Table)
    requires TableFits(t)
    ensures TableOk(t.scopes)
  {
  }

  lemma GoesOf(
    k: Link, t: Scopes<Symbol>, env: Env, pc: nat,
    fr: Frame, rest: seq<Saved>, mem: map<Slot, MemCell>, n: nat, fr': Frame, mem': map<Slot, MemCell>)
    requires Reaches(k, t, env, pc, fr, rest, mem, n, fr', mem')
    ensures Goes(k.mod, Active(fr, rest, mem), n, Active(fr', rest, mem'))
  {
  }

  /** The initializer of a declared variable. */
  lemma {:induction false} SimInit(
    k: Link, fuel: nat, g: Context, s: Stmt, sym: Symbol, env: Env, fr: Frame, rest: seq<Saved>,
    mem: map<Slot, MemCell>, part: seq<Instr>)
    returns (n: nat, fr': Frame, mem': map<Slot, MemCell>)
    requires LinkOk(k) && s.Decl? && s.init.Some? && IsValue(s.init.value) && Resolved(g.table.scopes, s.init.value)
    requires Find(g.table.scopes, s.name) == Some(sym) && sym.kind == VariableSymbol
    requires Ready(k, g.table.scopes, env, fr, mem, part)
    requires part == InitCode(g, SlotOf(sym), s.init.value, GenExpr(g.table.scopes, g.c, s.init.value)).code[1..]
    ensures
      match Eval(k.prog, fuel, s.init.value, env)
      case Wrong(err) => Stopped(k.mod, fuel, Active(fr, rest, mem), Stop.Error(err), n)
      case OutOfFuel => Stopped(k.mod, fuel, Active(fr, rest, mem), Endless, n)
      case Val(v, env1) =>
        Reaches(k, g.table.scopes, Update(env1, s.name, Held(v)), fr.pc + |part|, fr, rest, mem, n, fr', mem')
    decreases fuel, s, 0
  {
    hide LinkOk, Match, Steps, CodeAt, Stopped, GenExpr, Eval, InFragment, Resolved, ReadOperand, TableOk;
    LinkStands(k, g.table.scopes, env, fr, mem, part);
    var t := g.table.scopes;
    var x := GenExpr(t, g.c, s.init.value);
    var store := [Store(I32, OperandOf(s.init.value, x.r), SlotOf(sym))];
    ToIntIsFree(x.c, s.init.value, x.r);
    assert part == x.code + store;
    CodeAtAppend(k.mod[fr.fn].code, fr.pc, x.code, store);
    n, fr', mem' := SimValue(k, fuel, t, g.c, s.init.value, x, env, fr, rest, mem);
    var r := Eval(k.prog, fuel, s.init.value, env);
    if r.Val? {
      var fr2, mem2 := StoreArrives(k, t, r.env, g.c, s.name, OperandOf(s.init.value, x.r), r.v, fr', rest, mem');
      ArrivesReaches(k, t, Update(r.env, s.name, Held(r.v)), g.c, fr2.pc, fr', rest, mem', 1, fr2, mem2);
      ReachesThen(k, t, r.env, fr'.pc, t, Update(r.env, s.name, Held(r.v)), fr2.pc, fr, rest, mem, n, fr', mem', 1,
                  fr2, mem2);
      n, fr', mem' := n + 1, fr2, mem2;
    }
  }

  /** An expression evaluated for its effects. */
  lemma {:induction false} SimEffect(
    k: Link, fuel: nat, t: Scopes<Symbol>, c: Counters, e: Expr, x: ExprCode, env: Env,
    fr: Frame, rest: seq<Saved>, mem: map<Slot, MemCell>)
    returns (n: nat, fr': Frame, mem': map<Slot, MemCell>)
    requires LinkOk(k) && Discardable(e) && Resolved(t, e) && x == GenExpr(t, c, e)
    requires Ready(k, t, env, fr, mem, x.code)
    ensures
      match Eval(k.prog, fuel, e, env)
      case Wrong(err) => Stopped(k.mod, fuel, Active(fr, rest, mem), Stop.Error(err), n)
      case OutOfFuel => Stopped(k.mod, fuel, Active(fr, rest, mem), Endless, n)
      case Val(_, env1) => Reaches(k, t, env1, fr.pc + |x.code|, fr, rest, mem, n, fr', mem')
    decreases fuel, e, 5
  {
    hide LinkOk, Match, TableOk, Steps, CodeAt, Stopped, GenExpr, InFragment, ReadOperand, Goes;
    if e.Assign? && e.rhs.Number? {
      LinkStands(k, t, env, fr, mem, x.code);
      fr', mem' := LiteralStored(k, t, env, c, e, x, fr, rest, mem);
      n := 1;
      assert Eval(k.prog, fuel, e.rhs, env) == Val(e.rhs.value, env);
    } else {
      n, fr', mem' := SimExpr(k, fuel, t, c, e, env, fr, rest, mem);
      var r := Eval(k.prog, fuel, e, env);
      if r.Val? {
        ArrivesReaches(k, t, r.env, c, fr'.pc, fr, rest, mem, n, fr', mem');
      }
    }
  }

  /** A test and the branch on it. */
  lemma {:induction false} SimTestBr(
    k: Link, fuel: nat, t: Scopes<Symbol>, c: Counters, e: Expr, x: ExprCode, l1: Label, l2: Label, p1: nat, p2: nat,
    env: Env, fr: Frame, rest: seq<Saved>, mem: map<Slot, MemCell>)
    returns (n: nat, fr': Frame, mem': map<Slot, MemCell>)
    requires LinkOk(k) && InFragment(e) && Resolved(t, e) && x == GenTest(t, c, e)
    requires Ready(k, t, env, fr, mem, x.code) && At(k, fr, fr.pc + |x.code|, CondBr(x.r, l1, l2))
    requires At(k, fr, p1, LabelDef(l1)) && At(k, fr, p2, LabelDef(l2))
    ensures
      match Eval(k.prog, fuel, e, env)
      case Wrong(err) => Stopped(k.mod, fuel, Active(fr, rest, mem), Stop.Error(err), n)
      case OutOfFuel => Stopped(k.mod, fuel, Active(fr, rest, mem), Endless, n)
      case Val(v, env1) =>
        n > 0 && Reaches(k, t, env1, (if v != 0 then p1 else p2) + 1, fr, rest, mem, n, fr', mem')
    decreases fuel, e, 6
  {
    hide LinkOk, Match, TableOk, Steps, CodeAt, Stopped, GenTest, Eval, InFragment, Resolved, ReadOperand, UniqueLabels;
    LinkStands(k, t, env, fr, mem, x.code);
    n, fr', mem' := SimTest(k, fuel, t, c, e, x, env, fr, rest, mem);
    var r := Eval(k.prog, fuel, e, env);
    if r.Val? {
      ArrivesReaches(k, t, r.env, c, fr'.pc, fr, rest, mem, n, fr', mem');
      var p := if r.v != 0 then p1 else p2;
      CondBrReaches(k, t, r.env, x.r, r.v != 0, l1, l2, p, fr', rest, mem');
      ReachesThen(k, t, r.env, fr'.pc, t, r.env, p + 1, fr, rest, mem, n, fr', mem', 1, fr'.(pc := p + 1), mem');
      n, fr' := n + 1, fr'.(pc := p + 1);
    }
  }

  lemma ReadyAnywhere(k: Link, g: Context, inLoop: bool, env: Env, fr: Frame, mem: map<Slot, MemCell>, part: seq<Instr>)
    requires StmtReady(k, g, inLoop, env, fr, mem, part)
    ensures StmtReady(k, g, false, env, fr, mem, part)
  {
  }

  lemma {:induction false} SimStmt(
    k: Link, fuel: nat, g: Context, s: Stmt, inLoop: bool, env: Env, fr: Frame, rest: seq<Saved>,
    mem: map<Slot, MemCell>)
    returns (n: nat, fr': Frame, mem': map<Slot, MemCell>)
    requires LinkOk(k) && StmtInFragment(s, inLoop) && StmtResolved(g, s) && !g.inReturnBlock
    requires StmtReady(k, g, inLoop, env, fr, mem, GenStmt(g, s).code)
    ensures StmtSim(k, fuel, Exec(k.prog, fuel, s, env), g, GenStmt(g, s), fr, rest, mem, n, fr', mem')
    decreases fuel, s, 5
  {
    hide LinkOk, StmtReady, JumpSim, Reaches, GenExpr, GenTest, GenGuard, GenUpdate, Eval, InFragment, Resolved,
         IsValue;
    match s
    case Block(_) => n, fr', mem' := SimBlock(k, fuel, g, s, inLoop, env, fr, rest, mem);
    case Decl(_, _) =>
      ReadyAnywhere(k, g, inLoop, env, fr, mem, GenStmt(g, s).code);
      n, fr', mem' := SimDecl(k, fuel, g, s, env, fr, rest, mem);
    case ExprStmt(_) => n, fr', mem' := SimExprStmt(k, fuel, g, s, inLoop, env, fr, rest, mem);
    case If(_, _, _) => n, fr', mem' := SimIf(k, fuel, g, s, inLoop, env, fr, rest, mem);
    case While(_, _) => n, fr', mem' := SimWhile(k, fuel, g, s, inLoop, env, fr, rest, mem);
    case DoWhile(_, _) => n, fr', mem' := SimDoWhile(k, fuel, g, s, inLoop, env, fr, rest, mem);
    case For(_, _, _, _) => n, fr', mem' := SimFor(k, fuel, g, s, inLoop, env, fr, rest, mem);
    case Break => n, fr', mem' := SimJump(k, fuel, g, s, env, fr, rest, mem);
    case Continue => n, fr', mem' := SimJump(k, fuel, g, s, env, fr, rest, mem);
    case Return(_) =>
      ReadyAnywhere(k, g, inLoop, env, fr, mem, GenStmt(g, s).code);
      n, fr', mem' := SimReturn(k, fuel, g, s, env, fr, rest, mem);
    case Empty =>
      n, fr', mem' := 0, fr, mem;
      Stays(k, g, inLoop, env, fr, rest, mem, []);
  }

  lemma Stays(
    k: Link, g: Context, inLoop: bool, env: Env, fr: Frame, rest: seq<Saved>, mem: map<Slot, MemCell>, part: seq<Instr>)
    requires StmtReady(k, g, inLoop, env, fr, mem, part)
    ensures Reaches(k, g.table.scopes, env, fr.pc, fr, rest, mem, 0, fr, mem)
  {
  }

  lemma SimJump(
    k: Link, fuel: nat, g: Context, s: Stmt, env: Env, fr: Frame, rest: seq<Saved>, mem: map<Slot, MemCell>)
    returns (n: nat, fr': Frame, mem': map<Slot, MemCell>)
    requires (s.Break? || s.Continue?) && !g.inReturnBlock
    requires StmtReady(k, g, true, env, fr, mem, GenStmt(g, s).code)
    ensures StmtSim(k, fuel, Exec(k.prog, fuel, s, env), g, GenStmt(g, s), fr, rest, mem, n, fr', mem')
  {
    hide Match, Steps, TableFits, CodeAt, After, UniqueLabels;
    var l := if s.Break? then g.breakLabel.value else g.continueLabel.value;
    assert GenStmt(g, s).code == [Br(l)];
    CodeAtLines(k.mod[fr.fn].code, fr.pc, [Br(l)]);
    JumpReaches(k, g.table.scopes, env, l, fr, rest, mem);
    n, fr', mem' := 1, fr.(pc := After(k.mod[fr.fn].code, l)), mem;
    assert Exec(k.prog, fuel, s, env) == if s.Break? then Broke(env) else Continued(env);
  }

  lemma {:induction false} SimExprStmt(
    k: Link, fuel: nat, g: Context, s: Stmt, inLoop: bool, env: Env, fr: Frame, rest: seq<Saved>,
    mem: map<Slot, MemCell>)
    returns (n: nat, fr': Frame, mem': map<Slot, MemCell>)
    requires LinkOk(k) && s.ExprStmt? && Discardable(s.expr) && !g.inReturnBlock && Resolved(g.table.scopes, s.expr)
    requires StmtReady(k, g, inLoop, env, fr, mem, GenStmt(g, s).code)
    ensures StmtSim(k, fuel, Exec(k.prog, fuel, s, env), g, GenStmt(g, s), fr, rest, mem, n, fr', mem')
    decreases fuel, s, 0
  {
    hide LinkOk, Match, TableOk, Steps, CodeAt, Stopped, GenExpr, Eval, InFragment, Resolved, ReadOperand, After,
         Discardable;
    var t := g.table.scopes;
    var x := GenExpr(t, g.c, s.expr);
    assert x.code + [] == x.code;
    ReadyFor(k, g, inLoop, env, fr, mem, GenStmt(g, s).code, x.code, []);
    n, fr', mem' := SimEffect(k, fuel, t, g.c, s.expr, x, env, fr, rest, mem);
    var r := Eval(k.prog, fuel, s.expr, env);
    if !r.Val? {
      ExprAborts(k, fuel, r, t, g.breakLabel, g.continueLabel, fr, rest, mem, n, fr', mem');
    }
  }

  lemma EnterReady(k: Link, g: Context, inLoop: bool, env: Env, fr: Frame, mem: map<Slot, MemCell>, part: seq<Instr>)
    requires StmtReady(k, g, inLoop, env, fr, mem, part)
    ensures StmtReady(k, InNewScope(g), inLoop, Push(env), fr, mem, part)
  {
    EnterFits(g.table);
    PushMatches(env, g.table.scopes, fr.slots, mem, k.fs);
  }

  /** A branch or body in a scope of its own. */
  lemma {:induction false} SimScoped(
    k: Link, fuel: nat, g: Context, s: Stmt, inLoop: bool, env: Env, fr: Frame, rest: seq<Saved>,
    mem: map<Slot, MemCell>)
    returns (n: nat, fr': Frame, mem': map<Slot, MemCell>)
    requires LinkOk(k) && StmtInFragment(s, inLoop) && ScopedResolved(g, s) && !g.inReturnBlock
    requires StmtReady(k, g, inLoop, env, fr, mem, GenScoped(g, s).code)
    ensures StmtSim(k, fuel, ExecScoped(k.prog, fuel, s, env), g, GenScoped(g, s), fr, rest, mem, n, fr', mem')
    decreases fuel, s, 6
  {
    hide LinkOk, StmtReady, JumpSim, Reaches, GenStmt, Exec, StmtInFragment, StmtResolved;
    var g1 := InNewScope(g);
    EnterReady(k, g, inLoop, env, fr, mem, GenScoped(g, s).code);
    n, fr', mem' := SimStmt(k, fuel, g1, s, inLoop, Push(env), fr, rest, mem);
    var o := Exec(k.prog, fuel, s, Push(env));
    StmtRestores(g1, s);
    if o.Normal? {
      ReachesOut(k, GenStmt(g1, s).g.table.scopes, o.env, fr.pc + |GenStmt(g1, s).code|, fr, rest, mem, n, fr', mem');
    } else {
      JumpOut(k, fuel, o, g1.table.scopes, g.breakLabel, g.continueLabel, fr, rest, mem, n, fr', mem');
    }
  }

  lemma {:induction false} SimBlock(
    k: Link, fuel: nat, g: Context, s: Stmt, inLoop: bool, env: Env, fr: Frame, rest: seq<Saved>,
    mem: map<Slot, MemCell>)
    returns (n: nat, fr': Frame, mem': map<Slot, MemCell>)
    requires LinkOk(k) && s.Block? && StmtInFragment(s, inLoop) && StmtResolved(g, s) && !g.inReturnBlock
    requires StmtReady(k, g, inLoop, env, fr, mem, GenStmt(g, s).code)
    ensures StmtSim(k, fuel, Exec(k.prog, fuel, s, env), g, GenStmt(g, s), fr, rest, mem, n, fr', mem')
    decreases fuel, s, 0
  {
    hide LinkOk, StmtReady, JumpSim, Reaches, GenStmts, ExecSeq, StmtsInFragment, StmtsResolved;
    var g1 := InNewScope(g);
    EnterReady(k, g, inLoop, env, fr, mem, GenStmts(g1, s.stmts).code);
    n, fr', mem' := SimStmts(k, fuel, g1, s.stmts, inLoop, Push(env), fr, rest, mem);
    var o := ExecSeq(k.prog, fuel, s.stmts, Push(env));
    StmtsRestore(g1, s.stmts);
    if o.Normal? {
      var x := GenStmts(g1, s.stmts);
      ReachesOut(k, x.g.table.scopes, o.env, fr.pc + |x.code|, fr, rest, mem, n, fr', mem');
    }
  }

  lemma {:induction false} SimStmts(
    k: Link, fuel: nat, g: Context, ss: seq<Stmt>, inLoop: bool, env: Env, fr: Frame, rest: seq<Saved>,
    mem: map<Slot, MemCell>)
    returns (n: nat, fr': Frame, mem': map<Slot, MemCell>)
    requires LinkOk(k) && StmtsInFragment(ss, inLoop) && StmtsResolved(g, ss) && !g.inReturnBlock
    requires g.table.scopes.Inner? && StmtReady(k, g, inLoop, env, fr, mem, GenStmts(g, ss).code)
    ensures
      var o, x := ExecSeq(k.prog, fuel, ss, env), GenStmts(g, ss);
      if o.Normal? then
        !x.g.inReturnBlock && Reaches(k, x.g.table.scopes, o.env, fr.pc + |x.code|, fr, rest, mem, n, fr', mem')
      else JumpSim(k, fuel, Popped(o), g.table.scopes.outer, g.breakLabel, g.continueLabel, fr, rest, mem, n, fr', mem')
    decreases fuel, ss, 1
  {
    hide LinkOk, StmtReady, JumpSim, Reaches, GenStmt, Exec, StmtInFragment, StmtResolved, Popped;
    if ss == [] {
      n, fr', mem' := 0, fr, mem;
      Stays(k, g, inLoop, env, fr, rest, mem, []);
    } else {
      var x := GenStmt(g, ss[0]);
      var xs := GenStmts(x.g, ss[1..]);
      FirstReady(k, g, inLoop, env, fr, mem, x.code, xs.code);
      var i, fr1, mem1 := SimStmt(k, fuel, g, ss[0], inLoop, env, fr, rest, mem);
      n, fr', mem' := i, fr1, mem1;
      var o := Exec(k.prog, fuel, ss[0], env);
      if o.Normal? {
        NextReady(k, g, x, ss[0], inLoop, env, o.env, fr, rest, mem, xs.code, i, fr1, mem1);
        var j, fr2, mem2 := SimStmts(k, fuel, x.g, ss[1..], inLoop, o.env, fr1, rest, mem1);
        n, fr', mem' := i + j, fr2, mem2;
        var o2 := ExecSeq(k.prog, fuel, ss[1..], o.env);
        StmtRestores(g, ss[0]);
        if o2.Normal? {
          ReachesThen(k, x.g.table.scopes, o.env, fr1.pc, xs.g.table.scopes, o2.env, fr.pc + |x.code + xs.code|, fr,
                      rest, mem, i, fr1, mem1, j, fr2, mem2);
        } else {
          ReachesJump(k, fuel, Popped(o2), g.table.scopes.outer, g.breakLabel, g.continueLabel, x.g.table.scopes,
                      o.env, fr.pc + |x.code|,
                      fr, rest, mem, i, fr1, mem1, j, fr2, mem2);
        }
      } else {
        JumpOut(k, fuel, o, g.table.scopes, g.breakLabel, g.continueLabel, fr, rest, mem, n, fr', mem');
      }
    }
  }

  lemma FirstReady(
    k: Link, g: Context, inLoop: bool, env: Env, fr: Frame, mem: map<Slot, MemCell>, a: seq<Instr>, b: seq<Instr>)
    requires StmtReady(k, g, inLoop, env, fr, mem, a + b)
    ensures StmtReady(k, g, inLoop, env, fr, mem, a)
  {
    CodeAtAppend(k.mod[fr.fn].code, fr.pc, a, b);
  }

  /** The next statement starts where this one ends. */
  lemma NextReady(
    k: Link, g: Context, x: StmtCode, s: Stmt, inLoop: bool, env: Env, env1: Env, fr: Frame, rest: seq<Saved>,
    mem: map<Slot, MemCell>, b: seq<Instr>,
    n: nat, fr1: Frame, mem1: map<Slot, MemCell>)
    requires StmtReady(k, g, inLoop, env, fr, mem, x.code + b) && x == GenStmt(g, s)
    requires Reaches(k, x.g.table.scopes, env1, fr.pc + |x.code|, fr, rest, mem, n, fr1, mem1)
    ensures StmtReady(k, x.g, inLoop, env1, fr1, mem1, b) && x.g.table.scopes.Inner? && fr1.pc == fr.pc + |x.code|
  {
    hide GenStmt, Match, Steps, TableFits, FindLabel;
    CodeAtAppend(k.mod[fr.fn].code, fr.pc, x.code, b);
    StmtRestores(g, s);
    StmtFits(g, s);
  }

  /** A scoped body up to the label that follows it. */
  lemma {:induction false} SimBody(
    k: Link, fuel: nat, g: Context, s: Stmt, inLoop: bool, l: Label, p: nat, env: Env,
    fr: Frame, rest: seq<Saved>, mem: map<Slot, MemCell>)
    returns (n: nat, fr': Frame, mem': map<Slot, MemCell>)
    requires LinkOk(k) && StmtInFragment(s, inLoop) && ScopedResolved(g, s) && !g.inReturnBlock
    requires StmtReady(k, g, inLoop, env, fr, mem, GenScoped(g, s).code + Closing(GenScoped(g, s).g.inReturnBlock, l))
    requires !GenScoped(g, s).g.inReturnBlock ==> At(k, fr, p, LabelDef(l))
    ensures
      var o := ExecScoped(k.prog, fuel, s, env);
      if o.Normal? then
        !GenScoped(g, s).g.inReturnBlock
        && Reaches(k, g.table.scopes, o.env, p + 1, fr, rest, mem, n, fr', mem')
      else JumpSim(k, fuel, o, g.table.scopes, g.breakLabel, g.continueLabel, fr, rest, mem, n, fr', mem')
    decreases fuel, s, 7
  {
    hide LinkOk, JumpSim, Reaches, GenScoped, ExecScoped, StmtInFragment, ScopedResolved, CodeAt, Match, TableFits,
         FindLabel, Closing;
    var x := GenScoped(g, s);
    FirstReady(k, g, inLoop, env, fr, mem, x.code, Closing(x.g.inReturnBlock, l));
    var o := ExecScoped(k.prog, fuel, s, env);
    n, fr', mem' := SimScoped(k, fuel, g, s, inLoop, env, fr, rest, mem);
    ScopedRestores(g, s);
    n, fr', mem' := ClosedReaches(k, fuel, o, g, x, l, p, fr, rest, mem, n, fr', mem');
  }

  /** One branch of an `if`, from its label on. */
  lemma {:induction false} SimBranchStmt(
    k: Link, fuel: nat, g: Context, g1: Context, s: Stmt, arm: Stmt, inLoop: bool, q: nat, env: Env, env1: Env,
    part: seq<Instr>,
    fr: Frame, rest: seq<Saved>, mem: map<Slot, MemCell>, i: nat, fr1: Frame, mem1: map<Slot, MemCell>)
    returns (n: nat, fr': Frame, mem': map<Slot, MemCell>)
    requires LinkOk(k) && StmtInFragment(arm, inLoop) && ScopedResolved(g1, arm) && !g1.inReturnBlock && arm < s
    requires StmtReady(k, g, inLoop, env, fr, mem, part)
    requires Reaches(k, g.table.scopes, env1, fr1.pc, fr, rest, mem, i, fr1, mem1)
    requires g1.table.scopes == g.table.scopes && Restored(g, g1)
    requires CodeAt(k.mod[fr.fn].code, fr1.pc,
                    GenScoped(g1, arm).code + Closing(GenScoped(g1, arm).g.inReturnBlock, IfEnd(g)))
    requires !GenScoped(g1, arm).g.inReturnBlock ==> At(k, fr, q, LabelDef(IfEnd(g)))
    ensures
      var o := ExecScoped(k.prog, fuel, arm, env1);
      if o.Normal? then
        !GenScoped(g1, arm).g.inReturnBlock
        && Reaches(k, g.table.scopes, o.env, q + 1, fr, rest, mem, n, fr', mem')
      else JumpSim(k, fuel, o, g.table.scopes, g.breakLabel, g.continueLabel, fr, rest, mem, n, fr', mem')
    decreases fuel, s, 0
  {
    hide LinkOk, JumpSim, GenScoped, ExecScoped, StmtInFragment, ScopedResolved, CodeAt, Match, StmtReady, Closing,
         Placed, Goes;
    var x := GenScoped(g1, arm);
    var code := x.code + Closing(x.g.inReturnBlock, IfEnd(g));
    LoopPlaced(k, g, inLoop, env, fr, mem, part);
    Resumes(k, g, g1, inLoop, inLoop, env, env1, fr1.pc, fr, rest, mem, part, i, fr1, mem1, code);
    var j, fr2, mem2 := SimBody(k, fuel, g1, arm, inLoop, IfEnd(g), q, env1, fr1, rest, mem1);
    var o := ExecScoped(k.prog, fuel, arm, env1);
    n, fr', mem' := i + j, fr2, mem2;
    if o.Normal? {
      ReachesThen(k, g.table.scopes, env1, fr1.pc, g.table.scopes, o.env, q + 1, fr, rest, mem, i, fr1, mem1, j, fr2,
                  mem2);
    } else {
      ReachesJump(k, fuel, o, g.table.scopes, g.breakLabel, g.continueLabel, g.table.scopes, env1, fr1.pc,
                  fr, rest, mem, i, fr1, mem1, j, fr2, mem2);
    }
  }

  lemma {:induction false} SimIfThen(
    k: Link, fuel: nat, g: Context, s: Stmt, inLoop: bool, env: Env, fr: Frame, rest: seq<Saved>,
    mem: map<Slot, MemCell>)
    returns (n: nat, fr': Frame, mem': map<Slot, MemCell>)
    requires LinkOk(k) && s.If? && s.elseStmt.None? && StmtInFragment(s, inLoop) && StmtResolved(g, s)
             && !g.inReturnBlock
    requires StmtReady(k, g, inLoop, env, fr, mem, GenStmt(g, s).code)
    ensures StmtSim(k, fuel, Exec(k.prog, fuel, s, env), g, GenStmt(g, s), fr, rest, mem, n, fr', mem')
    decreases fuel, s, 1
  {
    hide LinkOk, JumpSim, Reaches, GenTest, GenScoped, ExecScoped, CodeAt, Match, StmtReady, Eval, InFragment,
         Resolved, ScopedResolved, Closing, UniqueLabels;
    var t := g.table.scopes;
    var x := GenTest(t, TakeLabels(g, 3).c, s.cond);
    var g1 := g.(c := x.c);
    ExprGrowing(t, TakeLabels(g, 3).c, s.cond);
    ScopedRestores(g1, s.thenStmt);
    var part := GenStmt(g, s).code;
    LoopPlaced(k, g, inLoop, env, fr, mem, part);
    var m, q := IfLies(k.mod[fr.fn].code, fr.pc, g, x, GenScoped(g1, s.thenStmt));
    CodeAtLines(k.mod[fr.fn].code, m, [CondBr(x.r, IfThen(g), IfEnd(g)), LabelDef(IfThen(g))]);
    CodeAtLines(k.mod[fr.fn].code, q, [LabelDef(IfEnd(g))]);
    var i, fr1, mem1 := SimTestBr(k, fuel, t, TakeLabels(g, 3).c, s.cond, x, IfThen(g), IfEnd(g), m + 1, q, env, fr,
                                  rest, mem);
    n, fr', mem' := i, fr1, mem1;
    var r := Eval(k.prog, fuel, s.cond, env);
    if !r.Val? {
      ExprAborts(k, fuel, r, t, g.breakLabel, g.continueLabel, fr, rest, mem, n, fr', mem');
    } else if r.v != 0 {
      ReachedPc(k, t, r.env, m + 2, fr, rest, mem, i, fr1, mem1);
      n, fr', mem' := SimBranchStmt(k, fuel, g, g1, s, s.thenStmt, inLoop, q, env, r.env, part, fr, rest, mem, i, fr1,
                                    mem1);
    }
  }

  lemma ReachedPc(
    k: Link, t: Scopes<Symbol>, env: Env, pc: nat,
    fr: Frame, rest: seq<Saved>, mem: map<Slot, MemCell>, n: nat, fr': Frame, mem': map<Slot, MemCell>)
    requires Reaches(k, t, env, pc, fr, rest, mem, n, fr', mem')
    ensures fr'.pc == pc && fr'.fn == fr.fn
  {
  }

  /** Both branches of an `if`, given where they lie. */
  lemma {:induction false} SimArms(
    k: Link, fuel: nat, g: Context, s: Stmt, x: ExprCode, a: StmtCode, b: StmtCode, m: nat, e: nat, q: nat,
    part: seq<Instr>,
    inLoop: bool, env: Env, fr: Frame, rest: seq<Saved>, mem: map<Slot, MemCell>)
    returns (n: nat, fr': Frame, mem': map<Slot, MemCell>)
    requires LinkOk(k) && s.If? && s.elseStmt.Some? && InFragment(s.cond) && Resolved(g.table.scopes, s.cond)
             && !g.inReturnBlock
    requires StmtInFragment(s.thenStmt, inLoop) && StmtInFragment(s.elseStmt.value, inLoop)
    requires x == GenTest(g.table.scopes, TakeLabels(g, 3).c, s.cond)
    requires a == GenScoped(g.(c := x.c), s.thenStmt) && b == GenScoped(AfterThen(a), s.elseStmt.value)
    requires ScopedResolved(g.(c := x.c), s.thenStmt) && ScopedResolved(AfterThen(a), s.elseStmt.value)
    requires StmtReady(k, g, inLoop, env, fr, mem, part)
    requires CodeAt(k.mod[fr.fn].code, fr.pc, x.code)
    requires m == fr.pc + |x.code|
             && CodeAt(k.mod[fr.fn].code, m, [CondBr(x.r, IfThen(g), IfElse(g)), LabelDef(IfThen(g))])
    requires CodeAt(k.mod[fr.fn].code, m + 2, a.code + Closing(a.g.inReturnBlock, IfEnd(g)))
    requires CodeAt(k.mod[fr.fn].code, e, [LabelDef(IfElse(g))])
    requires CodeAt(k.mod[fr.fn].code, e + 1, b.code + Closing(b.g.inReturnBlock, IfEnd(g)))
    requires !(a.g.inReturnBlock && b.g.inReturnBlock) ==> At(k, fr, q, LabelDef(IfEnd(g)))
    ensures
      match Eval(k.prog, fuel, s.cond, env)
      case Wrong(err) => Stopped(k.mod, fuel, Active(fr, rest, mem), Stop.Error(err), n)
      case OutOfFuel => Stopped(k.mod, fuel, Active(fr, rest, mem), Endless, n)
      case Val(v, env1) =>
        var o := ExecScoped(k.prog, fuel, if v != 0 then s.thenStmt else s.elseStmt.value, env1);
        if o.Normal? then
          !(a.g.inReturnBlock && b.g.inReturnBlock)
            && Reaches(k, g.table.scopes, o.env, q + 1, fr, rest, mem, n, fr', mem')
        else JumpSim(k, fuel, o, g.table.scopes, g.breakLabel, g.continueLabel, fr, rest, mem, n, fr', mem')
    decreases fuel, s, 1
  {
    hide LinkOk, JumpSim, Reaches, GenTest, GenScoped, ExecScoped, CodeAt, Match, StmtReady, Eval, InFragment, Resolved,
         ScopedResolved, Closing, UniqueLabels, StmtInFragment, Stopped;
    var t := g.table.scopes;
    var g1 := g.(c := x.c);
    ExprGrowing(t, TakeLabels(g, 3).c, s.cond);
    ScopedRestores(g1, s.thenStmt);
    LoopPlaced(k, g, inLoop, env, fr, mem, part);
    CodeAtLines(k.mod[fr.fn].code, m, [CondBr(x.r, IfThen(g), IfElse(g)), LabelDef(IfThen(g))]);
    CodeAtLines(k.mod[fr.fn].code, e, [LabelDef(IfElse(g))]);
    var i, fr1, mem1 := SimTestBr(k, fuel, t, TakeLabels(g, 3).c, s.cond, x, IfThen(g), IfElse(g), m + 1, e, env, fr,
                                  rest, mem);
    n, fr', mem' := i, fr1, mem1;
    var r := Eval(k.prog, fuel, s.cond, env);
    if r.Val? {
      ReachedPc(k, t, r.env, if r.v != 0 then m + 2 else e + 1, fr, rest, mem, i, fr1, mem1);
      if r.v != 0 {
        n, fr', mem' := SimBranchStmt(k, fuel, g, g1, s, s.thenStmt, inLoop, q, env, r.env, part, fr, rest, mem, i,
                                      fr1, mem1);
      } else {
        n, fr', mem' := SimBranchStmt(k, fuel, g, AfterThen(a), s, s.elseStmt.value, inLoop, q, env, r.env, part,
                                      fr, rest, mem, i, fr1, mem1);
      }
    }
  }

  lemma {:induction false} SimIfElse(
    k: Link, fuel: nat, g: Context, s: Stmt, inLoop: bool, env: Env, fr: Frame, rest: seq<Saved>,
    mem: map<Slot, MemCell>)
    returns (n: nat, fr': Frame, mem': map<Slot, MemCell>)
    requires LinkOk(k) && s.If? && s.elseStmt.Some? && StmtInFragment(s, inLoop) && StmtResolved(g, s)
             && !g.inReturnBlock
    requires StmtReady(k, g, inLoop, env, fr, mem, GenStmt(g, s).code)
    ensures StmtSim(k, fuel, Exec(k.prog, fuel, s, env), g, GenStmt(g, s), fr, rest, mem, n, fr', mem')
    decreases fuel, s, 2
  {
    hide LinkOk, JumpSim, Reaches, GenTest, GenScoped, ExecScoped, CodeAt, Match, StmtReady, Eval, InFragment, Resolved,
         ScopedResolved, Closing, UniqueLabels, Stopped;
    var x := GenTest(g.table.scopes, TakeLabels(g, 3).c, s.cond);
    var a := GenScoped(g.(c := x.c), s.thenStmt);
    var b := GenScoped(AfterThen(a), s.elseStmt.value);
    ScopedRestores(g.(c := x.c), s.thenStmt);
    ScopedRestores(AfterThen(a), s.elseStmt.value);
    LoopPlaced(k, g, inLoop, env, fr, mem, GenStmt(g, s).code);
    var m, e, q := IfElseLies(k.mod[fr.fn].code, fr.pc, g, x, a, b);
    if !(a.g.inReturnBlock && b.g.inReturnBlock) {
      CodeAtLines(k.mod[fr.fn].code, q, [LabelDef(IfEnd(g))]);
    }
    n, fr', mem' := SimArms(k, fuel, g, s, x, a, b, m, e, q, GenStmt(g, s).code, inLoop, env, fr, rest, mem);
    var r := Eval(k.prog, fuel, s.cond, env);
    if !r.Val? {
      ExprAborts(k, fuel, r, g.table.scopes, g.breakLabel, g.continueLabel, fr, rest, mem, n, fr', mem');
    }
  }

  lemma {:induction false} SimIf(
    k: Link, fuel: nat, g: Context, s: Stmt, inLoop: bool, env: Env, fr: Frame, rest: seq<Saved>,
    mem: map<Slot, MemCell>)
    returns (n: nat, fr': Frame, mem': map<Slot, MemCell>)
    requires LinkOk(k) && s.If? && StmtInFragment(s, inLoop) && StmtResolved(g, s) && !g.inReturnBlock
    requires StmtReady(k, g, inLoop, env, fr, mem, GenStmt(g, s).code)
    ensures StmtSim(k, fuel, Exec(k.prog, fuel, s, env), g, GenStmt(g, s), fr, rest, mem, n, fr', mem')
    decreases fuel, s, 3
  {
    hide LinkOk, StmtReady, StmtSim, GenStmt, Exec, StmtInFragment, StmtResolved;
    if s.elseStmt.None? {
      n, fr', mem' := SimIfThen(k, fuel, g, s, inLoop, env, fr, rest, mem);
    } else {
      n, fr', mem' := SimIfElse(k, fuel, g, s, inLoop, env, fr, rest, mem);
    }
  }

  /** A loop's scoped body: where it ends up next. */
  lemma {:induction false} SimLoopBody(
    k: Link, fuel: nat, g: Context, g1: Context, s: Stmt, body: Stmt, brk: Label, cont: Label, cp: nat, q: nat,
    inLoop: bool,
    env: Env, part: seq<Instr>, env1: Env, fr: Frame, rest: seq<Saved>, mem: map<Slot, MemCell>,
    i: nat, fr1: Frame, mem1: map<Slot, MemCell>)
    returns (n: nat, fr': Frame, mem': map<Slot, MemCell>)
    requires LinkOk(k) && StmtInFragment(body, true) && ScopedResolved(g1, body) && !g1.inReturnBlock && body < s
    requires StmtReady(k, g, inLoop, env, fr, mem, part)
    requires Reaches(k, g.table.scopes, env1, fr1.pc, fr, rest, mem, i, fr1, mem1)
    requires g1.table == g.table && g1.breakLabel == Some(brk) && g1.continueLabel == Some(cont)
    requires CodeAt(k.mod[fr.fn].code, fr1.pc,
                    GenScoped(g1, body).code + Closing(GenScoped(g1, body).g.inReturnBlock, cont))
    requires At(k, fr, cp, LabelDef(cont)) && At(k, fr, q, LabelDef(brk))
    ensures n >= i && BodySim(k, fuel, ExecScoped(k.prog, fuel, body, env1), g, cp + 1, q + 1, fr, rest, mem, n, fr',
                              mem')
    decreases fuel, s, 0
  {
    hide LinkOk, JumpSim, GenScoped, ExecScoped, StmtInFragment, ScopedResolved, CodeAt, Match, StmtReady, Closing,
         Placed, Goes,
         BodySim, UniqueLabels;
    var x := GenScoped(g1, body);
    var code := x.code + Closing(x.g.inReturnBlock, cont);
    LoopPlaced(k, g, inLoop, env, fr, mem, part);
    LabelPlaced(k.mod[fr.fn].code, brk, q);
    LabelPlaced(k.mod[fr.fn].code, cont, cp);
    Resumes(k, g, g1, inLoop, true, env, env1, fr1.pc, fr, rest, mem, part, i, fr1, mem1, code);
    var j, fr2, mem2 := SimBody(k, fuel, g1, body, true, cont, cp, env1, fr1, rest, mem1);
    var o := ExecScoped(k.prog, fuel, body, env1);
    BodyEnds(k, fuel, o, g, brk, cont, cp, q, fr1, rest, mem1, j, fr2, mem2);
    ReachesBody(k, fuel, o, g, cp + 1, q + 1, g.table.scopes, env1, fr1.pc, fr, rest, mem, i, fr1, mem1, j, fr2, mem2);
    n, fr', mem' := i + j, fr2, mem2;
  }

  /** Where the parts of a `while` lie: its labels at cp, m + 1 and q. */
  ghost predicate WhileAt(k: Link, g: Context, s: Stmt, x: ExprCode, b: StmtCode, fr: Frame, cp: nat, m: nat, q: nat)
    requires s.While?
  {
    && x == GenTest(g.table.scopes, TakeLabels(g, 3).c, s.cond) && b == GenScoped(WhileContext(g, x.c), s.body)
    && At(k, fr, cp, LabelDef(WhileCond(g))) && CodeAt(k.mod[fr.fn].code, cp + 1, x.code) && m == cp + 1 + |x.code|
    && At(k, fr, m, CondBr(x.r, WhileBody(g), WhileEnd(g))) && At(k, fr, m + 1, LabelDef(WhileBody(g)))
    && CodeAt(k.mod[fr.fn].code, m + 2, b.code + Closing(b.g.inReturnBlock, WhileCond(g)))
    && At(k, fr, q, LabelDef(WhileEnd(g)))
  }

  /** One round of a `while`: the test, and the body if it holds. */
  lemma {:induction false} SimWhileRound(
    k: Link, fuel: nat, g: Context, s: Stmt, x: ExprCode, b: StmtCode, cp: nat, m: nat, q: nat, inLoop: bool,
    env: Env, fr: Frame, rest: seq<Saved>, mem: map<Slot, MemCell>)
    returns (n: nat, fr': Frame, mem': map<Slot, MemCell>)
    requires LinkOk(k) && s.While? && InFragment(s.cond) && StmtInFragment(s.body, true) && !g.inReturnBlock
    requires Resolved(g.table.scopes, s.cond) && ScopedResolved(WhileContext(g, x.c), s.body)
    requires StmtReady(k, g, inLoop, env, fr, mem, x.code) && WhileAt(k, g, s, x, b, fr, cp, m, q) && fr.pc == cp + 1
    ensures
      match Eval(k.prog, fuel, s.cond, env)
      case Wrong(err) => Stopped(k.mod, fuel, Active(fr, rest, mem), Stop.Error(err), n)
      case OutOfFuel => Stopped(k.mod, fuel, Active(fr, rest, mem), Endless, n)
      case Val(v, env1) =>
        if v == 0 then Reaches(k, g.table.scopes, env1, q + 1, fr, rest, mem, n, fr', mem')
        else n > 0 && BodySim(k, fuel, ExecScoped(k.prog, fuel, s.body, env1), g, cp + 1, q + 1, fr, rest, mem, n, fr',
                              mem')
    decreases fuel, s, 1
  {
    hide LinkOk, JumpSim, Reaches, GenTest, GenScoped, ExecScoped, CodeAt, Match, StmtReady, Eval, InFragment, Resolved,
         ScopedResolved, Closing, UniqueLabels, StmtInFragment, Stopped, BodySim;
    LoopPlaced(k, g, inLoop, env, fr, mem, x.code);
    n, fr', mem' := SimTestBr(k, fuel, g.table.scopes, TakeLabels(g, 3).c, s.cond, x, WhileBody(g), WhileEnd(g), m + 1,
                              q, env, fr, rest, mem);
    var r := Eval(k.prog, fuel, s.cond, env);
    if r.Val? && r.v != 0 {
      ReachedPc(k, g.table.scopes, r.env, m + 2, fr, rest, mem, n, fr', mem');
      n, fr', mem' := SimLoopBody(k, fuel, g, WhileContext(g, x.c), s, s.body, WhileEnd(g), WhileCond(g), cp, q, inLoop,
                                  env, x.code, r.env, fr, rest, mem, n, fr', mem');
    }
  }

  /** A `while` from its test on. */
  lemma {:induction false} SimWhileLoop(
    k: Link, fuel: nat, g: Context, s: Stmt, x: ExprCode, b: StmtCode, cp: nat, m: nat, q: nat, inLoop: bool,
    env: Env, fr: Frame, rest: seq<Saved>, mem: map<Slot, MemCell>)
    returns (n: nat, fr': Frame, mem': map<Slot, MemCell>)
    requires LinkOk(k) && s.While? && InFragment(s.cond) && StmtInFragment(s.body, true) && !g.inReturnBlock
    requires Resolved(g.table.scopes, s.cond) && ScopedResolved(WhileContext(g, x.c), s.body)
    requires StmtReady(k, g, inLoop, env, fr, mem, x.code) && WhileAt(k, g, s, x, b, fr, cp, m, q) && fr.pc == cp + 1
    ensures LoopSim(k, fuel, Exec(k.prog, fuel, s, env), g, q + 1, fr, rest, mem, n, fr', mem')
    decreases fuel, s, 2
  {
    hide LinkOk, JumpSim, Reaches, WhileAt, ExecScoped, CodeAt, StmtReady, Eval, InFragment, Resolved, ScopedResolved,
         StmtInFragment, Stopped;
    n, fr', mem' := SimWhileRound(k, fuel, g, s, x, b, cp, m, q, inLoop, env, fr, rest, mem);
    var r := Eval(k.prog, fuel, s.cond, env);
    if !r.Val? {
      ExprAborts(k, fuel, r, g.table.scopes, g.breakLabel, g.continueLabel, fr, rest, mem, n, fr', mem');
    } else if r.v != 0 {
      var o := ExecScoped(k.prog, fuel, s.body, r.env);
      if o.Normal? || o.Continued? {
        if fuel == 0 {
          ZeroFuel(k, g.table.scopes, o.env, cp + 1, g.table.scopes, g.breakLabel, g.continueLabel, fr, rest, mem, n,
                   fr', mem');
        } else {
          var i, fr1, mem1 := n, fr', mem';
          WhileAgain(k, g, s, x, b, cp, m, q, inLoop, env, o.env, fr, rest, mem, i, fr1, mem1);
          var j, fr2, mem2 := SimWhileLoop(k, fuel - 1, g, s, x, b, cp, m, q, inLoop, o.env, fr1, rest, mem1);
          LoopsOn(k, fuel, Exec(k.prog, fuel - 1, s, o.env), g, q + 1, o.env, cp + 1, fr, rest, mem, i, fr1, mem1, j,
                  fr2, mem2);
          n, fr', mem' := i + j, fr2, mem2;
        }
      }
    }
  }

  lemma WhileAgain(
    k: Link, g: Context, s: Stmt, x: ExprCode, b: StmtCode, cp: nat, m: nat, q: nat, inLoop: bool,
    env: Env, env1: Env, fr: Frame, rest: seq<Saved>, mem: map<Slot, MemCell>, n: nat, fr1: Frame,
    mem1: map<Slot, MemCell>)
    requires s.While? && StmtReady(k, g, inLoop, env, fr, mem, x.code) && WhileAt(k, g, s, x, b, fr, cp, m, q)
    requires Reaches(k, g.table.scopes, env1, cp + 1, fr, rest, mem, n, fr1, mem1)
    ensures StmtReady(k, g, inLoop, env1, fr1, mem1, x.code) && WhileAt(k, g, s, x, b, fr1, cp, m, q)
            && fr1.pc == cp + 1
  {
    hide GenTest, GenScoped, Closing, Match, Steps, TableFits, UniqueLabels, FindLabel;
  }

  lemma {:induction false} SimWhile(
    k: Link, fuel: nat, g: Context, s: Stmt, inLoop: bool, env: Env, fr: Frame, rest: seq<Saved>,
    mem: map<Slot, MemCell>)
    returns (n: nat, fr': Frame, mem': map<Slot, MemCell>)
    requires LinkOk(k) && s.While? && StmtInFragment(s, inLoop) && StmtResolved(g, s) && !g.inReturnBlock
    requires StmtReady(k, g, inLoop, env, fr, mem, GenStmt(g, s).code)
    ensures StmtSim(k, fuel, Exec(k.prog, fuel, s, env), g, GenStmt(g, s), fr, rest, mem, n, fr', mem')
    decreases fuel, s, 3
  {
    hide LinkOk, JumpSim, Reaches, GenTest, GenScoped, Exec, CodeAt, Match, StmtReady, Eval, InFragment, Resolved,
         ScopedResolved, Closing, UniqueLabels, Stopped, LoopSim;
    var x := GenTest(g.table.scopes, TakeLabels(g, 3).c, s.cond);
    var b := GenScoped(WhileContext(g, x.c), s.body);
    ScopedRestores(WhileContext(g, x.c), s.body);
    var part := GenStmt(g, s).code;
    LoopPlaced(k, g, inLoop, env, fr, mem, part);
    var m, q := WhileLies(k.mod[fr.fn].code, fr.pc, g, x, b);
    CodeAtLines(k.mod[fr.fn].code, fr.pc, [Br(WhileCond(g)), LabelDef(WhileCond(g))]);
    CodeAtLines(k.mod[fr.fn].code, m, [CondBr(x.r, WhileBody(g), WhileEnd(g)), LabelDef(WhileBody(g))]);
    CodeAtLines(k.mod[fr.fn].code, q, [LabelDef(WhileEnd(g))]);
    var fr1 := fr.(pc := fr.pc + 2);
    ReadyMatch(k, g, inLoop, env, fr, mem, part);
    BrReaches(k, g.table.scopes, env, WhileCond(g), fr.pc + 1, fr, rest, mem);
    Resumes(k, g, g, inLoop, inLoop, env, env, fr.pc + 2, fr, rest, mem, part, 1, fr1, mem, x.code);
    var j, fr2, mem2 := SimWhileLoop(k, fuel, g, s, x, b, fr.pc + 1, m, q, inLoop, env, fr1, rest, mem);
    n, fr', mem' := 1 + j, fr2, mem2;
    LoopFromStart(k, fuel, Exec(k.prog, fuel, s, env), g, GenStmt(g, s), q + 1, env, fr.pc + 2, fr, rest, mem, 1, fr1,
                  mem, j, fr2, mem2);
  }

  lemma ReadyMatch(k: Link, g: Context, inLoop: bool, env: Env, fr: Frame, mem: map<Slot, MemCell>, part: seq<Instr>)
    requires StmtReady(k, g, inLoop, env, fr, mem, part)
    ensures Match(env, g.table.scopes, fr.slots, mem, k.fs)
  {
  }

  /** Code up to a loop and the loop make the loop statement. */
  lemma LoopFromStart(
    k: Link, fuel: nat, o: Outcome, g: Context, x: StmtCode, q: nat, env1: Env, pc1: nat,
    fr: Frame, rest: seq<Saved>, mem: map<Slot, MemCell>, i: nat, fr1: Frame, mem1: map<Slot, MemCell>,
    j: nat, fr2: Frame, mem2: map<Slot, MemCell>)
    requires Reaches(k, g.table.scopes, env1, pc1, fr, rest, mem, i, fr1, mem1)
    requires LoopSim(k, fuel, o, g, q, fr1, rest, mem1, j, fr2, mem2)
    requires !x.g.inReturnBlock && x.g.table.scopes == g.table.scopes && q == fr.pc + |x.code|
    ensures StmtSim(k, fuel, o, g, x, fr, rest, mem, i + j, fr2, mem2)
  {
    hide Match, Steps, After, GlobalsMatch, Goes, Stopped, Reaches, JumpSim;
    if o.Normal? {
      ReachesThen(k, g.table.scopes, env1, pc1, g.table.scopes, o.env, q, fr, rest, mem, i, fr1, mem1, j, fr2, mem2);
    } else {
      ReachesJump(k, fuel, o, g.table.scopes, g.breakLabel, g.continueLabel, g.table.scopes, env1, pc1,
                  fr, rest, mem, i, fr1, mem1, j, fr2, mem2);
    }
  }

  /** Where the parts of a `do` lie: its labels at bp, m and q. */
  ghost predicate DoAt(k: Link, g: Context, s: Stmt, b: StmtCode, x: ExprCode, fr: Frame, bp: nat, m: nat, q: nat)
    requires s.DoWhile?
  {
    && b == GenScoped(DoContext(g), s.body) && x == GenTest(g.table.scopes, b.g.c, s.cond)
    && At(k, fr, bp, LabelDef(DoBody(g)))
    && CodeAt(k.mod[fr.fn].code, bp + 1, b.code + Closing(b.g.inReturnBlock, DoCond(g)))
    && At(k, fr, m, LabelDef(DoCond(g))) && CodeAt(k.mod[fr.fn].code, m + 1, x.code)
    && At(k, fr, m + 1 + |x.code|, CondBr(x.r, DoBody(g), DoEnd(g)))
    && At(k, fr, q, LabelDef(DoEnd(g)))
  }

  /** One round of a `do`: the body, and the test unless the body left. */
  lemma {:induction false} SimDoRound(
    k: Link, fuel: nat, g: Context, s: Stmt, b: StmtCode, x: ExprCode, bp: nat, m: nat, q: nat, inLoop: bool,
    env: Env, fr: Frame, rest: seq<Saved>, mem: map<Slot, MemCell>)
    returns (n: nat, fr': Frame, mem': map<Slot, MemCell>)
    requires LinkOk(k) && s.DoWhile? && InFragment(s.cond) && StmtInFragment(s.body, true) && !g.inReturnBlock
    requires Resolved(g.table.scopes, s.cond) && ScopedResolved(DoContext(g), s.body)
    requires StmtReady(k, g, inLoop, env, fr, mem, []) && DoAt(k, g, s, b, x, fr, bp, m, q) && fr.pc == bp + 1
    ensures
      var o := ExecScoped(k.prog, fuel, s.body, env);
      if o.Normal? || o.Continued? then
        match Eval(k.prog, fuel, s.cond, o.env)
        case Wrong(err) => Stopped(k.mod, fuel, Active(fr, rest, mem), Stop.Error(err), n)
        case OutOfFuel => Stopped(k.mod, fuel, Active(fr, rest, mem), Endless, n)
        case Val(v, env1) =>
          n > 0 && Reaches(k, g.table.scopes, env1, (if v != 0 then bp else q) + 1, fr, rest, mem, n, fr', mem')
      else BodySim(k, fuel, o, g, m + 1, q + 1, fr, rest, mem, n, fr', mem')
    decreases fuel, s, 1
  {
    hide LinkOk, JumpSim, GenTest, GenScoped, ExecScoped, CodeAt, Match, StmtReady, Eval, InFragment, Resolved,
         ScopedResolved, Closing, UniqueLabels, StmtInFragment, Stopped;
    Stays(k, g, inLoop, env, fr, rest, mem, []);
    n, fr', mem' := SimLoopBody(k, fuel, g, DoContext(g), s, s.body, DoEnd(g), DoCond(g), m, q, inLoop,
                                env, [], env, fr, rest, mem, 0, fr, mem);
    var o := ExecScoped(k.prog, fuel, s.body, env);
    if o.Normal? || o.Continued? {
      var i, fr1, mem1 := n, fr', mem';
      Resumes(k, g, g, inLoop, false, env, o.env, m + 1, fr, rest, mem, [], i, fr1, mem1, x.code);
      LoopPlaced(k, g, false, o.env, fr1, mem1, x.code);
      var j, fr2, mem2 := SimTestBr(k, fuel, g.table.scopes, b.g.c, s.cond, x, DoBody(g), DoEnd(g), bp, q, o.env, fr1,
                                    rest, mem1);
      n, fr', mem' := i + j, fr2, mem2;
      var r := Eval(k.prog, fuel, s.cond, o.env);
      PartStopped(k, fuel, r, Active(fr, rest, mem), i, Active(fr1, rest, mem1), j);
      if r.Val? {
        ReachesThen(k, g.table.scopes, o.env, m + 1, g.table.scopes, r.env, (if r.v != 0 then bp else q) + 1,
                    fr, rest, mem, i, fr1, mem1, j, fr2, mem2);
      }
    }
  }

  /** A `do` from its body on. */
  lemma {:induction false} SimDoLoop(
    k: Link, fuel: nat, g: Context, s: Stmt, b: StmtCode, x: ExprCode, bp: nat, m: nat, q: nat, inLoop: bool,
    env: Env, fr: Frame, rest: seq<Saved>, mem: map<Slot, MemCell>)
    returns (n: nat, fr': Frame, mem': map<Slot, MemCell>)
    requires LinkOk(k) && s.DoWhile? && InFragment(s.cond) && StmtInFragment(s.body, true) && !g.inReturnBlock
    requires Resolved(g.table.scopes, s.cond) && ScopedResolved(DoContext(g), s.body)
    requires StmtReady(k, g, inLoop, env, fr, mem, []) && DoAt(k, g, s, b, x, fr, bp, m, q) && fr.pc == bp + 1
    ensures LoopSim(k, fuel, Exec(k.prog, fuel, s, env), g, q + 1, fr, rest, mem, n, fr', mem')
    decreases fuel, s, 2
  {
    hide LinkOk, JumpSim, Reaches, DoAt, ExecScoped, CodeAt, StmtReady, Eval, InFragment, Resolved, ScopedResolved,
         StmtInFragment, Stopped;
    n, fr', mem' := SimDoRound(k, fuel, g, s, b, x, bp, m, q, inLoop, env, fr, rest, mem);
    var o := ExecScoped(k.prog, fuel, s.body, env);
    if o.Normal? || o.Continued? {
      var r := Eval(k.prog, fuel, s.cond, o.env);
      if !r.Val? {
        ExprAborts(k, fuel, r, g.table.scopes, g.breakLabel, g.continueLabel, fr, rest, mem, n, fr', mem');
      } else if r.v != 0 {
        if fuel == 0 {
          ZeroFuel(k, g.table.scopes, r.env, bp + 1, g.table.scopes, g.breakLabel, g.continueLabel, fr, rest, mem, n,
                   fr', mem');
        } else {
          var i, fr1, mem1 := n, fr', mem';
          DoAgain(k, g, s, b, x, bp, m, q, inLoop, env, r.env, fr, rest, mem, i, fr1, mem1);
          var j, fr2, mem2 := SimDoLoop(k, fuel - 1, g, s, b, x, bp, m, q, inLoop, r.env, fr1, rest, mem1);
          LoopsOn(k, fuel, Exec(k.prog, fuel - 1, s, r.env), g, q + 1, r.env, bp + 1, fr, rest, mem, i, fr1, mem1, j,
                  fr2, mem2);
          n, fr', mem' := i + j, fr2, mem2;
        }
      }
    }
  }

  lemma DoAgain(
    k: Link, g: Context, s: Stmt, b: StmtCode, x: ExprCode, bp: nat, m: nat, q: nat, inLoop: bool,
    env: Env, env1: Env, fr: Frame, rest: seq<Saved>, mem: map<Slot, MemCell>, n: nat, fr1: Frame,
    mem1: map<Slot, MemCell>)
    requires s.DoWhile? && StmtReady(k, g, inLoop, env, fr, mem, []) && DoAt(k, g, s, b, x, fr, bp, m, q)
    requires Reaches(k, g.table.scopes, env1, bp + 1, fr, rest, mem, n, fr1, mem1)
    ensures StmtReady(k, g, inLoop, env1, fr1, mem1, []) && DoAt(k, g, s, b, x, fr1, bp, m, q) && fr1.pc == bp + 1
  {
    hide GenTest, GenScoped, Closing, Match, Steps, TableFits, UniqueLabels, FindLabel;
  }

  lemma {:induction false} SimDoWhile(
    k: Link, fuel: nat, g: Context, s: Stmt, inLoop: bool, env: Env, fr: Frame, rest: seq<Saved>,
    mem: map<Slot, MemCell>)
    returns (n: nat, fr': Frame, mem': map<Slot, MemCell>)
    requires LinkOk(k) && s.DoWhile? && StmtInFragment(s, inLoop) && StmtResolved(g, s) && !g.inReturnBlock
    requires StmtReady(k, g, inLoop, env, fr, mem, GenStmt(g, s).code)
    ensures StmtSim(k, fuel, Exec(k.prog, fuel, s, env), g, GenStmt(g, s), fr, rest, mem, n, fr', mem')
    decreases fuel, s, 3
  {
    hide LinkOk, JumpSim, Reaches, GenTest, GenScoped, Exec, CodeAt, Match, StmtReady, Eval, InFragment, Resolved,
         ScopedResolved, Closing, UniqueLabels, Stopped, LoopSim, ExecScoped;
    var b := GenScoped(DoContext(g), s.body);
    ScopedRestores(DoContext(g), s.body);
    var x := GenTest(g.table.scopes, b.g.c, s.cond);
    var part := GenStmt(g, s).code;
    LoopPlaced(k, g, inLoop, env, fr, mem, part);
    var m, q := DoLies(k.mod[fr.fn].code, fr.pc, g, b, x);
    CodeAtLines(k.mod[fr.fn].code, fr.pc, [Br(DoBody(g)), LabelDef(DoBody(g))]);
    CodeAtLines(k.mod[fr.fn].code, m, [LabelDef(DoCond(g))]);
    CodeAtLines(k.mod[fr.fn].code, q, [CondBr(x.r, DoBody(g), DoEnd(g)), LabelDef(DoEnd(g))]);
    var fr1 := fr.(pc := fr.pc + 2);
    ReadyMatch(k, g, inLoop, env, fr, mem, part);
    BrReaches(k, g.table.scopes, env, DoBody(g), fr.pc + 1, fr, rest, mem);
    NoCode(k.mod[fr.fn].code, fr.pc + 2);
    Resumes(k, g, g, inLoop, inLoop, env, env, fr.pc + 2, fr, rest, mem, part, 1, fr1, mem, []);
    var j, fr2, mem2 := SimDoLoop(k, fuel, g, s, b, x, fr.pc + 1, m, q + 1, inLoop, env, fr1, rest, mem);
    n, fr', mem' := 1 + j, fr2, mem2;
    LoopFromStart(k, fuel, Exec(k.prog, fuel, s, env), g, GenStmt(g, s), q + 2, env, fr.pc + 2, fr, rest, mem, 1, fr1,
                  mem, j, fr2, mem2);
  }

  lemma NoCode(code: seq<Instr>, pc: nat)
    requires pc <= |code|
    ensures CodeAt(code, pc, [])
  {
  }

  // ----- `for` -----

  /** The test of a `for`, or the plain branch when there is none. */
  lemma {:induction false} SimGuard(
    k: Link, fuel: nat, g: Context, s: Stmt, x: ExprCode, l1: Label, l2: Label, p1: nat, p2: nat,
    env: Env, fr: Frame, rest: seq<Saved>, mem: map<Slot, MemCell>)
    returns (n: nat, fr': Frame, mem': map<Slot, MemCell>)
    requires LinkOk(k) && s.For? && (s.guard.Some? ==> InFragment(s.guard.value))
             && OptionResolved(g.table.scopes, s.guard)
    requires x == GenGuard(g.table.scopes, g.c, s.guard, l1, l2)
    requires Ready(k, g.table.scopes, env, fr, mem, x.code)
    requires At(k, fr, p1, LabelDef(l1)) && At(k, fr, p2, LabelDef(l2))
    ensures
      match EvalGuard(k.prog, fuel, s, env)
      case Wrong(err) => Stopped(k.mod, fuel, Active(fr, rest, mem), Stop.Error(err), n)
      case OutOfFuel => Stopped(k.mod, fuel, Active(fr, rest, mem), Endless, n)
      case Val(v, env1) =>
        n > 0 && Reaches(k, g.table.scopes, env1, (if v != 0 then p1 else p2) + 1, fr, rest, mem, n, fr', mem')
    decreases fuel, s, 0
  {
    hide LinkOk, Match, TableOk, Steps, CodeAt, Stopped, GenTest, Eval, InFragment, Resolved, ReadOperand, UniqueLabels;
    LinkStands(k, g.table.scopes, env, fr, mem, x.code);
    if s.guard.None? {
      CodeAtLines(k.mod[fr.fn].code, fr.pc, x.code);
      BrReaches(k, g.table.scopes, env, l1, p1, fr, rest, mem);
      n, fr', mem' := 1, fr.(pc := p1 + 1), mem;
    } else {
      var y := GenTest(g.table.scopes, g.c, s.guard.value);
      CodeAtAppend(k.mod[fr.fn].code, fr.pc, y.code, [CondBr(y.r, l1, l2)]);
      CodeAtLines(k.mod[fr.fn].code, fr.pc + |y.code|, [CondBr(y.r, l1, l2)]);
      n, fr', mem' := SimTestBr(k, fuel, g.table.scopes, g.c, s.guard.value, y, l1, l2, p1, p2, env, fr, rest, mem);
    }
  }

  /** The update of a `for` and the branch back to the test. */
  lemma {:induction false} SimUpdate(
    k: Link, fuel: nat, t: Scopes<Symbol>, c: Counters, s: Stmt, y: ExprCode, l: Label, p: nat, env: Env,
    fr: Frame, rest: seq<Saved>, mem: map<Slot, MemCell>)
    returns (n: nat, fr': Frame, mem': map<Slot, MemCell>)
    requires LinkOk(k) && s.For? && (s.update.Some? ==> Discardable(s.update.value)) && OptionResolved(t, s.update)
    requires y == GenUpdate(t, c, s.update)
    requires Ready(k, t, env, fr, mem, y.code) && At(k, fr, fr.pc + |y.code|, Br(l)) && At(k, fr, p, LabelDef(l))
    ensures
      match EvalUpdate(k.prog, fuel, s, env)
      case Wrong(err) => Stopped(k.mod, fuel, Active(fr, rest, mem), Stop.Error(err), n)
      case OutOfFuel => Stopped(k.mod, fuel, Active(fr, rest, mem), Endless, n)
      case Val(_, env1) => Reaches(k, t, env1, p + 1, fr, rest, mem, n, fr', mem')
    decreases fuel, s, 0
  {
    hide LinkOk, Match, TableOk, Steps, CodeAt, Stopped, GenExpr, Eval, Discardable, Resolved, ReadOperand,
         UniqueLabels;
    LinkStands(k, t, env, fr, mem, y.code);
    n, fr', mem' := 0, fr, mem;
    var r := EvalUpdate(k.prog, fuel, s, env);
    if s.update.Some? {
      n, fr', mem' := SimEffect(k, fuel, t, c, s.update.value, y, env, fr, rest, mem);
    } else {
      NoMove(k, t, env, c, fr, rest, mem);
      ArrivesReaches(k, t, env, c, fr.pc, fr, rest, mem, 0, fr, mem);
    }
    if r.Val? {
      BrReaches(k, t, r.env, l, p, fr', rest, mem');
      ReachesThen(k, t, r.env, fr'.pc, t, r.env, p + 1, fr, rest, mem, n, fr', mem', 1, fr'.(pc := p + 1), mem');
      n, fr' := n + 1, fr'.(pc := p + 1);
    }
  }

  /** Where the parts of a `for` lie, after its first part: g is the state
      there, f the state of the statement; the labels are at cp, m, u and q. */
  ghost predicate ForAt(
    k: Link, f: Context, g: Context, s: Stmt, x: ExprCode, b: StmtCode, y: ExprCode, fr: Frame, cp: nat, m: nat,
    u: nat, q: nat)
    requires s.For?
  {
    && x == GenGuard(g.table.scopes, g.c, s.guard, ForBody(f), ForEnd(f))
    && b == GenStmt(g.(c := x.c), s.body) && y == GenUpdate(g.table.scopes, b.g.c, s.update)
    && At(k, fr, cp, LabelDef(ForCond(f))) && CodeAt(k.mod[fr.fn].code, cp + 1, x.code)
    && At(k, fr, m, LabelDef(ForBody(f)))
    && CodeAt(k.mod[fr.fn].code, m + 1, b.code + Closing(b.g.inReturnBlock, ForUpdate(f)))
    && At(k, fr, u, LabelDef(ForUpdate(f))) && CodeAt(k.mod[fr.fn].code, u + 1, y.code)
    && At(k, fr, u + 1 + |y.code|, Br(ForCond(f)))
    && At(k, fr, q, LabelDef(ForEnd(f)))
  }

  /** The body of a `for`, in the scope of its first part. */
  lemma {:induction false} SimForBody(
    k: Link, fuel: nat, f: Context, g: Context, s: Stmt, x: ExprCode, b: StmtCode, y: ExprCode, cp: nat, m: nat,
    u: nat, q: nat,
    env: Env, env1: Env, fr: Frame, rest: seq<Saved>, mem: map<Slot, MemCell>, i: nat, fr1: Frame,
    mem1: map<Slot, MemCell>)
    returns (n: nat, fr': Frame, mem': map<Slot, MemCell>)
    requires LinkOk(k) && s.For? && StmtInFragment(s.body, true) && !s.body.Decl? && !g.inReturnBlock
    requires g.breakLabel == Some(ForEnd(f)) && g.continueLabel == Some(ForUpdate(f))
    requires StmtResolved(g.(c := x.c), s.body)
    requires StmtReady(k, g, false, env, fr, mem, []) && ForAt(k, f, g, s, x, b, y, fr, cp, m, u, q)
    requires Reaches(k, g.table.scopes, env1, m + 1, fr, rest, mem, i, fr1, mem1)
    ensures n >= i && BodySim(k, fuel, Exec(k.prog, fuel, s.body, env1), g, u + 1, q + 1, fr, rest, mem, n, fr', mem')
    decreases fuel, s, 0
  {
    hide LinkOk, JumpSim, GenStmt, Exec, StmtInFragment, StmtResolved, CodeAt, Match, StmtReady, Closing, Placed, Goes,
         BodySim, UniqueLabels, GenGuard, GenUpdate;
    var g1 := g.(c := x.c);
    var code := b.code + Closing(b.g.inReturnBlock, ForUpdate(f));
    LoopPlaced(k, g, false, env, fr, mem, []);
    LabelPlaced(k.mod[fr.fn].code, ForEnd(f), q);
    LabelPlaced(k.mod[fr.fn].code, ForUpdate(f), u);
    Resumes(k, g, g1, false, true, env, env1, m + 1, fr, rest, mem, [], i, fr1, mem1, code);
    FirstReady(k, g1, true, env1, fr1, mem1, b.code, Closing(b.g.inReturnBlock, ForUpdate(f)));
    var o := Exec(k.prog, fuel, s.body, env1);
    var j, fr2, mem2 := SimStmt(k, fuel, g1, s.body, true, env1, fr1, rest, mem1);
    StmtRestores(g1, s.body);
    j, fr2, mem2 := ClosedReaches(k, fuel, o, g1, b, ForUpdate(f), u, fr1, rest, mem1, j, fr2, mem2);
    BodyEnds(k, fuel, o, g, ForEnd(f), ForUpdate(f), u, q, fr1, rest, mem1, j, fr2, mem2);
    ReachesBody(k, fuel, o, g, u + 1, q + 1, g.table.scopes, env1, m + 1, fr, rest, mem, i, fr1, mem1, j, fr2, mem2);
    n, fr', mem' := i + j, fr2, mem2;
  }

  /** One round of a `for`: test, body, update. */
  lemma {:induction false} SimForRound(
    k: Link, fuel: nat, f: Context, g: Context, s: Stmt, x: ExprCode, b: StmtCode, y: ExprCode, cp: nat, m: nat,
    u: nat, q: nat,
    env: Env, fr: Frame, rest: seq<Saved>, mem: map<Slot, MemCell>)
    returns (n: nat, fr': Frame, mem': map<Slot, MemCell>)
    requires LinkOk(k) && s.For? && StmtInFragment(s, false) && !g.inReturnBlock
    requires g.breakLabel == Some(ForEnd(f)) && g.continueLabel == Some(ForUpdate(f))
    requires OptionResolved(g.table.scopes, s.guard) && OptionResolved(g.table.scopes, s.update)
    requires StmtResolved(g.(c := x.c), s.body)
    requires StmtReady(k, g, false, env, fr, mem, []) && ForAt(k, f, g, s, x, b, y, fr, cp, m, u, q) && fr.pc == cp + 1
    ensures
      match EvalGuard(k.prog, fuel, s, env)
      case Wrong(err) => Stopped(k.mod, fuel, Active(fr, rest, mem), Stop.Error(err), n)
      case OutOfFuel => Stopped(k.mod, fuel, Active(fr, rest, mem), Endless, n)
      case Val(v, env1) =>
        if v == 0 then Reaches(k, g.table.scopes, env1, q + 1, fr, rest, mem, n, fr', mem')
        else
          var o := Exec(k.prog, fuel, s.body, env1);
          if o.Normal? || o.Continued? then
            match EvalUpdate(k.prog, fuel, s, o.env)
            case Wrong(err) => Stopped(k.mod, fuel, Active(fr, rest, mem), Stop.Error(err), n)
            case OutOfFuel => Stopped(k.mod, fuel, Active(fr, rest, mem), Endless, n)
            case Val(_, env3) => n > 0 && Reaches(k, g.table.scopes, env3, cp + 1, fr, rest, mem, n, fr', mem')
          else BodySim(k, fuel, o, g, u + 1, q + 1, fr, rest, mem, n, fr', mem')
    decreases fuel, s, 1
  {
    hide LinkOk, JumpSim, GenTest, GenGuard, GenUpdate, GenStmt, Exec, CodeAt, Match, StmtReady, Eval, EvalGuard,
         EvalUpdate, InFragment,
         Discardable, Resolved, StmtResolved, Closing, UniqueLabels, Stopped;
    var t := g.table.scopes;
    GuardReady(k, g, false, env, fr, mem, x.code);
    n, fr', mem' := SimGuard(k, fuel, g, s, x, ForBody(f), ForEnd(f), m, q, env, fr, rest, mem);
    var r := EvalGuard(k.prog, fuel, s, env);
    if r.Val? && r.v != 0 {
      n, fr', mem' := SimForBody(k, fuel, f, g, s, x, b, y, cp, m, u, q, env, r.env, fr, rest, mem, n, fr', mem');
      var o := Exec(k.prog, fuel, s.body, r.env);
      if o.Normal? || o.Continued? {
        var i, fr1, mem1 := n, fr', mem';
        Resumes(k, g, g, false, false, env, o.env, u + 1, fr, rest, mem, [], i, fr1, mem1, y.code);
        LoopPlaced(k, g, false, o.env, fr1, mem1, y.code);
        var j, fr2, mem2 := SimUpdate(k, fuel, t, b.g.c, s, y, ForCond(f), cp, o.env, fr1, rest, mem1);
        n, fr', mem' := i + j, fr2, mem2;
        var w := EvalUpdate(k.prog, fuel, s, o.env);
        PartStopped(k, fuel, w, Active(fr, rest, mem), i, Active(fr1, rest, mem1), j);
        if w.Val? {
          ReachesThen(k, t, o.env, u + 1, t, w.env, cp + 1, fr, rest, mem, i, fr1, mem1, j, fr2, mem2);
        }
      }
    }
  }

  lemma GuardReady(k: Link, g: Context, inLoop: bool, env: Env, fr: Frame, mem: map<Slot, MemCell>, part: seq<Instr>)
    requires StmtReady(k, g, inLoop, env, fr, mem, []) && CodeAt(k.mod[fr.fn].code, fr.pc, part)
    ensures Ready(k, g.table.scopes, env, fr, mem, part)
  {
  }

  /** A `for` from its test on. */
  lemma {:induction false} SimForLoop(
    k: Link, fuel: nat, f: Context, g: Context, s: Stmt, x: ExprCode, b: StmtCode, y: ExprCode, cp: nat, m: nat,
    u: nat, q: nat,
    env: Env, fr: Frame, rest: seq<Saved>, mem: map<Slot, MemCell>)
    returns (n: nat, fr': Frame, mem': map<Slot, MemCell>)
    requires LinkOk(k) && s.For? && StmtInFragment(s, false) && !g.inReturnBlock
    requires g.breakLabel == Some(ForEnd(f)) && g.continueLabel == Some(ForUpdate(f))
    requires OptionResolved(g.table.scopes, s.guard) && OptionResolved(g.table.scopes, s.update)
    requires StmtResolved(g.(c := x.c), s.body)
    requires StmtReady(k, g, false, env, fr, mem, []) && ForAt(k, f, g, s, x, b, y, fr, cp, m, u, q) && fr.pc == cp + 1
    ensures LoopSim(k, fuel, ExecFor(k.prog, fuel, s, env), g, q + 1, fr, rest, mem, n, fr', mem')
    decreases fuel, s, 2
  {
    hide LinkOk, JumpSim, Reaches, ForAt, Exec, CodeAt, StmtReady, Eval, EvalGuard, EvalUpdate, InFragment, Resolved,
         StmtResolved,
         StmtInFragment, Stopped;
    n, fr', mem' := SimForRound(k, fuel, f, g, s, x, b, y, cp, m, u, q, env, fr, rest, mem);
    var r := EvalGuard(k.prog, fuel, s, env);
    if !r.Val? {
      ExprAborts(k, fuel, r, g.table.scopes, g.breakLabel, g.continueLabel, fr, rest, mem, n, fr', mem');
    } else if r.v != 0 {
      var o := Exec(k.prog, fuel, s.body, r.env);
      if o.Normal? || o.Continued? {
        var w := EvalUpdate(k.prog, fuel, s, o.env);
        if !w.Val? {
          ExprAborts(k, fuel, w, g.table.scopes, g.breakLabel, g.continueLabel, fr, rest, mem, n, fr', mem');
        } else if fuel == 0 {
          ZeroFuel(k, g.table.scopes, w.env, cp + 1, g.table.scopes, g.breakLabel, g.continueLabel, fr, rest, mem, n,
                   fr', mem');
        } else {
          var i, fr1, mem1 := n, fr', mem';
          ForAgain(k, f, g, s, x, b, y, cp, m, u, q, env, w.env, fr, rest, mem, i, fr1, mem1);
          var j, fr2, mem2 := SimForLoop(k, fuel - 1, f, g, s, x, b, y, cp, m, u, q, w.env, fr1, rest, mem1);
          LoopsOn(k, fuel, ExecFor(k.prog, fuel - 1, s, w.env), g, q + 1, w.env, cp + 1, fr, rest, mem, i, fr1, mem1,
                  j, fr2, mem2);
          n, fr', mem' := i + j, fr2, mem2;
        }
      }
    }
  }

  lemma ForAgain(
    k: Link, f: Context, g: Context, s: Stmt, x: ExprCode, b: StmtCode, y: ExprCode, cp: nat, m: nat, u: nat, q: nat,
    env: Env, env1: Env, fr: Frame, rest: seq<Saved>, mem: map<Slot, MemCell>, n: nat, fr1: Frame,
    mem1: map<Slot, MemCell>)
    requires s.For? && StmtReady(k, g, false, env, fr, mem, []) && ForAt(k, f, g, s, x, b, y, fr, cp, m, u, q)
    requires Reaches(k, g.table.scopes, env1, cp + 1, fr, rest, mem, n, fr1, mem1)
    ensures StmtReady(k, g, false, env1, fr1, mem1, []) && ForAt(k, f, g, s, x, b, y, fr1, cp, m, u, q)
            && fr1.pc == cp + 1
  {
    hide GenGuard, GenUpdate, GenStmt, Closing, Match, Steps, TableFits, UniqueLabels, FindLabel;
  }

  /** `break` and `continue` do not leave a `for`, nor its first part. */
  lemma {:induction false} ForKeepsJumps(p: Program, fuel: nat, s: Stmt, env: Env)
    requires s.For? && (s.first.Decl? || s.first.ExprStmt? || s.first.Empty?)
    ensures !ExecFor(p, fuel, s, env).Broke? && !ExecFor(p, fuel, s, env).Continued?
    ensures !Exec(p, fuel, s.first, env).Broke? && !Exec(p, fuel, s.first, env).Continued?
    decreases fuel
  {
    hide Eval;
    match EvalGuard(p, fuel, s, env)
    case Val(v, env1) =>
      if v != 0 {
        var o := Exec(p, fuel, s.body, env1);
        if (o.Normal? || o.Continued?) && fuel > 0 {
          var w := EvalUpdate(p, fuel, s, o.env);
          if w.Val? {
            ForKeepsJumps(p, fuel - 1, s, w.env);
          }
        }
      }
    case _ =>
  }

  /** Outcomes other than jumps mean the same in every scope. */
  lemma PoppedElsewhere(
    k: Link, fuel: nat, o: Outcome, t: Scopes<Symbol>, t': Scopes<Symbol>, g: Context, g': Context,
    fr: Frame, rest: seq<Saved>, mem: map<Slot, MemCell>, n: nat, fr': Frame, mem': map<Slot, MemCell>)
    requires !o.Normal? && !o.Broke? && !o.Continued?
    requires JumpSim(k, fuel, o, t, g.breakLabel, g.continueLabel, fr, rest, mem, n, fr', mem')
    ensures JumpSim(k, fuel, Popped(o), t', g'.breakLabel, g'.continueLabel, fr, rest, mem, n, fr', mem')
  {
  }

  lemma FirstLeavesOpen(g: Context, s: Stmt)
    requires s.Decl? || s.ExprStmt? || s.Empty?
    ensures GenStmt(g, s).g.inReturnBlock == g.inReturnBlock
  {
    hide GenExpr;
  }

  /** A `for` from its first test on, inside its scope. */
  lemma {:induction false} SimForRest(
    k: Link, fuel: nat, f: Context, g: Context, s: Stmt, x: ExprCode, b: StmtCode, y: ExprCode, h: nat, m: nat, u: nat,
    q: nat,
    env: Env, fr: Frame, rest: seq<Saved>, mem: map<Slot, MemCell>)
    returns (n: nat, fr': Frame, mem': map<Slot, MemCell>)
    requires LinkOk(k) && s.For? && StmtInFragment(s, false) && !g.inReturnBlock
    requires g.breakLabel == Some(ForEnd(f)) && g.continueLabel == Some(ForUpdate(f))
    requires OptionResolved(g.table.scopes, s.guard) && OptionResolved(g.table.scopes, s.update)
    requires StmtResolved(g.(c := x.c), s.body)
    requires StmtReady(k, g, false, env, fr, mem, []) && ForAt(k, f, g, s, x, b, y, fr, h + 1, m, u, q)
    requires fr.pc == h && At(k, fr, h, Br(ForCond(f)))
    ensures LoopSim(k, fuel, ExecFor(k.prog, fuel, s, env), g, q + 1, fr, rest, mem, n, fr', mem')
    decreases fuel, s, 3
  {
    hide LinkOk, JumpSim, ExecFor, CodeAt, Match, StmtReady, InFragment, Resolved, StmtResolved, UniqueLabels, Stopped,
         GenStmt, GenGuard, GenUpdate;
    ReadyMatch(k, g, false, env, fr, mem, []);
    LoopPlaced(k, g, false, env, fr, mem, []);
    BrReaches(k, g.table.scopes, env, ForCond(f), h + 1, fr, rest, mem);
    var fr1 := fr.(pc := h + 2);
    ForAgain(k, f, g, s, x, b, y, h + 1, m, u, q, env, env, fr, rest, mem, 1, fr1, mem);
    var j, fr2, mem2 := SimForLoop(k, fuel, f, g, s, x, b, y, h + 1, m, u, q, env, fr1, rest, mem);
    n, fr', mem' := 1 + j, fr2, mem2;
    var o := ExecFor(k.prog, fuel, s, env);
    if o.Normal? {
      ReachesThen(k, g.table.scopes, env, h + 2, g.table.scopes, o.env, q + 1, fr, rest, mem, 1, fr1, mem, j, fr2,
                  mem2);
    } else {
      ReachesJump(k, fuel, o, g.table.scopes, g.breakLabel, g.continueLabel, g.table.scopes, env, h + 2,
                  fr, rest, mem, 1, fr1, mem, j, fr2, mem2);
    }
  }

  lemma ForPlaced(
    k: Link, g: Context, i: StmtCode, s: Stmt, x: ExprCode, b: StmtCode, y: ExprCode, fr: Frame)
    returns (h: nat, m: nat, u: nat, q: nat)
    requires s.For? && fr.fn in k.mod && CodeAt(k.mod[fr.fn].code, fr.pc, ForCode(g, i, x, b, y).code)
    requires x == GenGuard(i.g.table.scopes, i.g.c, s.guard, ForBody(g), ForEnd(g))
    requires b == GenStmt(i.g.(c := x.c), s.body) && y == GenUpdate(i.g.table.scopes, b.g.c, s.update)
    ensures h == fr.pc + |i.code| && CodeAt(k.mod[fr.fn].code, fr.pc, i.code)
    ensures At(k, fr, h, Br(ForCond(g))) && ForAt(k, g, i.g, s, x, b, y, fr, h + 1, m, u, q + 1)
    ensures q + 2 == fr.pc + |ForCode(g, i, x, b, y).code|
  {
    hide GenGuard, GenUpdate, GenStmt, CodeAt, Closing;
    h, m, u, q := ForLies(k.mod[fr.fn].code, fr.pc, g, i, x, b, y);
    CodeAtLines(k.mod[fr.fn].code, h, [Br(ForCond(g)), LabelDef(ForCond(g))]);
    CodeAtLines(k.mod[fr.fn].code, m, [LabelDef(ForBody(g))]);
    CodeAtLines(k.mod[fr.fn].code, u, [LabelDef(ForUpdate(g))]);
    CodeAtLines(k.mod[fr.fn].code, q, [Br(ForCond(g)), LabelDef(ForEnd(g))]);
  }

  lemma ForStays(
    k: Link, f: Context, g: Context, s: Stmt, x: ExprCode, b: StmtCode, y: ExprCode, fr: Frame, fr1: Frame, cp: nat,
    m: nat, u: nat, q: nat)
    requires s.For? && ForAt(k, f, g, s, x, b, y, fr, cp, m, u, q) && fr1.fn == fr.fn
    ensures ForAt(k, f, g, s, x, b, y, fr1, cp, m, u, q)
  {
    hide GenGuard, GenUpdate, GenStmt, Closing, CodeAt;
  }

  lemma {:induction false} SimFor(
    k: Link, fuel: nat, g: Context, s: Stmt, inLoop: bool, env: Env, fr: Frame, rest: seq<Saved>,
    mem: map<Slot, MemCell>)
    returns (n: nat, fr': Frame, mem': map<Slot, MemCell>)
    requires LinkOk(k) && s.For? && StmtInFragment(s, inLoop) && StmtResolved(g, s) && !g.inReturnBlock
    requires StmtReady(k, g, inLoop, env, fr, mem, GenStmt(g, s).code)
    ensures StmtSim(k, fuel, Exec(k.prog, fuel, s, env), g, GenStmt(g, s), fr, rest, mem, n, fr', mem')
    decreases fuel, s, 4
  {
    hide LinkOk, JumpSim, Reaches, GenGuard, GenUpdate, CodeAt, Match, StmtReady, InFragment, Resolved, StmtResolved,
         Closing, UniqueLabels, Stopped, LoopSim, ExecFor, Exec, GenStmt, StmtInFragment, ForAt;
    ForUnfolds(k.prog, fuel, g, s, inLoop, env);
    var fc := ForContext(g);
    var i := GenStmt(fc, s.first);
    StmtRestores(fc, s.first);
    FirstLeavesOpen(fc, s.first);
    var x := GenGuard(i.g.table.scopes, i.g.c, s.guard, ForBody(g), ForEnd(g));
    var b := GenStmt(i.g.(c := x.c), s.body);
    StmtRestores(i.g.(c := x.c), s.body);
    var y := GenUpdate(i.g.table.scopes, b.g.c, s.update);
    var whole := ForCode(g, i, x, b, y);
    LoopPlaced(k, g, inLoop, env, fr, mem, whole.code);
    var h, m, u, q := ForPlaced(k, g, i, s, x, b, y, fr);
    ForStart(k, g, i, s, inLoop, env, fr, mem, whole.code);
    var n1, fr1, mem1 := SimStmt(k, fuel, fc, s.first, false, Push(env), fr, rest, mem);
    n, fr', mem' := n1, fr1, mem1;
    var o := Exec(k.prog, fuel, s.first, Push(env));
    ForKeepsJumps(k.prog, fuel, s, Push(env));
    if o.Normal? {
      ForKeepsJumps(k.prog, fuel, s, o.env);
      NoCode(k.mod[fr.fn].code, h);
      assert i.code + [] == i.code;
      NextReady(k, fc, i, s.first, false, Push(env), o.env, fr, rest, mem, [], n1, fr1, mem1);
      ReachedPc(k, i.g.table.scopes, o.env, h, fr, rest, mem, n1, fr1, mem1);
      ForStays(k, g, i.g, s, x, b, y, fr, fr1, h + 1, m, u, q + 1);
      var j, fr2, mem2 := SimForRest(k, fuel, g, i.g, s, x, b, y, h, m, u, q + 1, o.env, fr1, rest, mem1);
      n, fr', mem' := n1 + j, fr2, mem2;
      ForDone(k, fuel, ExecFor(k.prog, fuel, s, o.env), g, i.g, whole, q + 2, o.env, h, fr, rest, mem, n1, fr1, mem1,
              j, fr2, mem2);
    } else {
      PoppedElsewhere(k, fuel, o, fc.table.scopes, g.table.scopes, fc, g, fr, rest, mem, n, fr', mem');
    }
  }

  /** The two sides of a `for`, unfolded once. */
  lemma ForUnfolds(p: Program, fuel: nat, g: Context, s: Stmt, inLoop: bool, env: Env)
    requires s.For? && !g.inReturnBlock && StmtInFragment(s, inLoop) && StmtResolved(g, s)
    ensures
      var i := GenStmt(ForContext(g), s.first);
      var x := GenGuard(i.g.table.scopes, i.g.c, s.guard, ForBody(g), ForEnd(g));
      var b := GenStmt(i.g.(c := x.c), s.body);
      && GenStmt(g, s) == ForCode(g, i, x, b, GenUpdate(i.g.table.scopes, b.g.c, s.update))
      && StmtResolved(ForContext(g), s.first) && OptionResolved(i.g.table.scopes, s.guard)
      && StmtResolved(i.g.(c := x.c), s.body) && OptionResolved(i.g.table.scopes, s.update)
    ensures StmtInFragment(s, false) && StmtInFragment(s.first, false) && StmtInFragment(s.body, true) && !s.body.Decl?
    ensures s.first.Decl? || s.first.ExprStmt? || s.first.Empty?
    ensures
      var o := Exec(p, fuel, s.first, Push(env));
      Exec(p, fuel, s, env) == Popped(if o.Normal? then ExecFor(p, fuel, s, o.env) else o)
  {
    hide GenExpr, GenTest, GenGuard, GenUpdate, ExecFor, Eval, InFragment, Resolved, Discardable, IsValue;
    var fc := ForContext(g);
    FirstLeavesOpen(fc, s.first);
    var i := GenStmt(fc, s.first);
    var x := GenGuard(i.g.table.scopes, i.g.c, s.guard, ForBody(g), ForEnd(g));
    assert i.g.(c := x.c, inReturnBlock := false) == i.g.(c := x.c);
    StmtRestores(i.g.(c := x.c), s.body);
  }

  lemma ForStart(
    k: Link, g: Context, i: StmtCode, s: Stmt, inLoop: bool, env: Env, fr: Frame, mem: map<Slot, MemCell>,
    part: seq<Instr>)
    requires s.For? && StmtReady(k, g, inLoop, env, fr, mem, part) && CodeAt(k.mod[fr.fn].code, fr.pc, i.code)
    ensures StmtReady(k, ForContext(g), false, Push(env), fr, mem, i.code)
  {
    hide Match;
    EnterFits(g.table);
    PushMatches(env, g.table.scopes, fr.slots, mem, k.fs);
  }

  /** The end of a `for` is the end of its scope. */
  lemma ForDone(
    k: Link, fuel: nat, o: Outcome, g: Context, gi: Context, whole: StmtCode, q: nat, env1: Env, pc1: nat,
    fr: Frame, rest: seq<Saved>, mem: map<Slot, MemCell>, i: nat, fr1: Frame, mem1: map<Slot, MemCell>,
    j: nat, fr2: Frame, mem2: map<Slot, MemCell>)
    requires !o.Broke? && !o.Continued?
    requires gi.table.scopes.Inner? && gi.table.scopes.outer == g.table.scopes
    requires Reaches(k, gi.table.scopes, env1, pc1, fr, rest, mem, i, fr1, mem1)
    requires LoopSim(k, fuel, o, gi, q, fr1, rest, mem1, j, fr2, mem2)
    requires !whole.g.inReturnBlock && whole.g.table.scopes == g.table.scopes && q == fr.pc + |whole.code|
    ensures StmtSim(k, fuel, Popped(o), g, whole, fr, rest, mem, i + j, fr2, mem2)
  {
    hide Match, Steps, After, GlobalsMatch, Goes, Stopped, Reaches, JumpSim;
    if o.Normal? {
      ReachesThen(k, gi.table.scopes, env1, pc1, gi.table.scopes, o.env, q, fr, rest, mem, i, fr1, mem1, j, fr2, mem2);
      ReachesOut(k, gi.table.scopes, o.env, q, fr, rest, mem, i + j, fr2, mem2);
    } else {
      ReachesJump(k, fuel, o, gi.table.scopes, gi.breakLabel, gi.continueLabel, gi.table.scopes, env1, pc1,
                  fr, rest, mem, i, fr1, mem1, j, fr2, mem2);
      PoppedElsewhere(k, fuel, o, gi.table.scopes, g.table.scopes, gi, g, fr, rest, mem, i + j, fr2, mem2);
    }
  }

  // ----- Functions -----

  /** A statement outside every loop does not end in `break` or `continue`. */
  lemma {:induction false} NoStrayJumps(p: Program, fuel: nat, s: Stmt, env: Env)
    requires StmtInFragment(s, false)
    ensures !Exec(p, fuel, s, env).Broke? && !Exec(p, fuel, s, env).Continued?
    decreases s, 1, fuel
  {
    hide Eval, InFragment, Discardable, IsValue;
    match s
    case Block(ss) => NoStrayJumpsInSeq(p, fuel, ss, Push(env));
    case If(c, t, f) =>
      var r := Eval(p, fuel, c, env);
      if r.Val? {
        NoStrayJumps(p, fuel, t, Push(r.env));
        if f.Some? {
          NoStrayJumps(p, fuel, f.value, Push(r.env));
        }
      }
    case While(_, _) => LoopKeepsJumps(p, fuel, s, env);
    case DoWhile(_, _) => LoopKeepsJumps(p, fuel, s, env);
    case For(first, _, _, _) =>
      ForKeepsJumps(p, fuel, s, Push(env));
      var o := Exec(p, fuel, first, Push(env));
      if o.Normal? {
        ForKeepsJumps(p, fuel, s, o.env);
      }
    case _ =>
  }

  lemma {:induction false} LoopKeepsJumps(p: Program, fuel: nat, s: Stmt, env: Env)
    requires s.While? || s.DoWhile?
    ensures !Exec(p, fuel, s, env).Broke? && !Exec(p, fuel, s, env).Continued?
    decreases fuel
  {
    hide Eval, ExecScoped;
    if s.While? {
      var r := Eval(p, fuel, s.cond, env);
      if r.Val? && r.v != 0 {
        var o := ExecScoped(p, fuel, s.body, r.env);
        if (o.Normal? || o.Continued?) && fuel > 0 {
          LoopKeepsJumps(p, fuel - 1, s, o.env);
        }
      }
    } else {
      var o := ExecScoped(p, fuel, s.body, env);
      if o.Normal? || o.Continued? {
        var r := Eval(p, fuel, s.cond, o.env);
        if r.Val? && fuel > 0 {
          LoopKeepsJumps(p, fuel - 1, s, r.env);
        }
      }
    }
  }

  lemma {:induction false} NoStrayJumpsInSeq(p: Program, fuel: nat, ss: seq<Stmt>, env: Env)
    requires StmtsInFragment(ss, false)
    ensures !ExecSeq(p, fuel, ss, env).Broke? && !ExecSeq(p, fuel, ss, env).Continued?
    decreases ss, 0, fuel
  {
    hide Eval;
    if ss != [] {
      NoStrayJumps(p, fuel, ss[0], env);
      var o := Exec(p, fuel, ss[0], env);
      if o.Normal? {
        NoStrayJumpsInSeq(p, fuel, ss[1..], o.env);
      }
    }
  }

  lemma {:induction false} ZipAt(names: seq<string>, vs: seq<int32>, i: nat)
    requires DistinctNames(names) && |names| == |vs| && i < |names|
    ensures names[i] in Zip(names, vs) && Zip(names, vs)[names[i]] == vs[i]
    decreases |names|
  {
    if i < |names| - 1 {
      ZipAt(names[..|names| - 1], vs[..|vs| - 1], i);
    }
  }

  /** The variables of a function's first i parameters. */
  function Bound(params: seq<string>, vs: seq<int32>, i: nat): map<string, Cell>
    requires |params| == |vs| && i <= |vs|
  {
    Cells(Zip(params[..i], vs[..i]))
  }

  lemma BoundNext(params: seq<string>, vs: seq<int32>, i: nat)
    requires |params| == |vs| && i < |vs|
    ensures Bound(params, vs, i + 1) == Bound(params, vs, i)[params[i] := Held(vs[i])]
  {
    assert params[..i + 1][..i] == params[..i] && vs[..i + 1][..i] == vs[..i];
  }

  /** A parameter is copied into its slot. */
  lemma ParamReaches(
    k: Link, t: Table, x: string, v: int32, env: Env, fr: Frame, rest: seq<Saved>, mem: map<Slot, MemCell>,
    part: seq<Instr>)
    returns (fr': Frame)
    requires TableFits(t) && t.scopes.Inner? && x !in t.scopes.vars
    requires fr.fn in k.mod && Match(env, t.scopes, fr.slots, mem, k.fs)
    requires x in fr.incoming && fr.incoming[x] == v
    requires part == [Alloca(SlotOf(NewSymbol(t, x, VariableSymbol, true)), I32),
                      Store(I32, Incoming(x), SlotOf(NewSymbol(t, x, VariableSymbol, true)))]
    requires CodeAt(k.mod[fr.fn].code, fr.pc, part)
    ensures Reaches(k, AddSymbol(t, x, VariableSymbol, true).scopes, Bind(env, x, Held(v)), fr.pc + 2, fr, rest, mem,
                    2, fr', mem)
  {
    hide Match, Steps, CodeAt;
    var sym := NewSymbol(t, x, VariableSymbol, true);
    CodeAtLines(k.mod[fr.fn].code, fr.pc, part);
    Executes(k, fr, rest, mem, part[0]);
    var fr1 := Next(fr.(slots := fr.slots[SlotOf(sym) := Image(Unset)]));
    Executes(k, fr1, rest, mem, part[1]);
    fr' := Next(fr1.(slots := fr1.slots[SlotOf(sym) := Image(Held(v))]));
    Then(k.mod, Active(fr, rest, mem), 1, Active(fr1, rest, mem), 1, Active(fr', rest, mem));
    assert fr'.slots == fr.slots[SlotOf(sym) := Image(Held(v))];
    DeclareMatches(env, t.scopes, fr.slots, mem, k.fs, x, sym, Held(v));
  }

  /** The code in front of a function's body stores every argument. */
  lemma {:induction false} SimParams(
    k: Link, params: seq<string>, vs: seq<int32>, i: nat, t: Table, globals: map<string, Cell>,
    fr: Frame, rest: seq<Saved>, mem: map<Slot, MemCell>)
    returns (n: nat, fr': Frame)
    requires |params| == |vs| && i <= |vs| && DistinctNames(params)
    requires TableFits(t) && t.scopes.Inner? && t.scopes.vars.Keys == set j | 0 <= j < i :: params[j]
    requires fr.incoming == Zip(params, vs) && fr.fn in k.mod
    requires CodeAt(k.mod[fr.fn].code, fr.pc, GenParams(t, params[i..]).code)
    requires Match(Inner(Bound(params, vs, i), Base(globals)), t.scopes, fr.slots, mem, k.fs)
    ensures
      var t' := GenParams(t, params[i..]);
      && TableFits(t'.table) && t'.table.scopes.Inner?
      && Reaches(k, t'.table.scopes, Inner(Bound(params, vs, |vs|), Base(globals)), fr.pc + |t'.code|, fr, rest, mem,
                 n, fr', mem)
    decreases |params| - i
  {
    hide Match, Steps, CodeAt, TableFits, Zip;
    if i == |params| {
      n, fr' := 0, fr;
      assert Goes(k.mod, Active(fr, rest, mem), 0, Active(fr, rest, mem)) by { NoSteps(k, Active(fr, rest, mem)); }
    } else {
      var x := params[i];
      ZipAt(params, vs, i);
      BoundNext(params, vs, i);
      assert params[i..][0] == x && params[i..][1..] == params[i + 1..];
      var sym := NewSymbol(t, x, VariableSymbol, true);
      var part := [Alloca(SlotOf(sym), I32), Store(I32, Incoming(x), SlotOf(sym))];
      var t1 := AddSymbol(t, x, VariableSymbol, true);
      var tail := GenParams(t1, params[i + 1..]).code;
      CodeAtAppend(k.mod[fr.fn].code, fr.pc, part, tail);
      var env := Inner(Bound(params, vs, i), Base(globals));
      var env1 := Inner(Bound(params, vs, i + 1), Base(globals));
      var fr1 := ParamReaches(k, t, x, vs[i], env, fr, rest, mem, part);
      DeclareFits(t, x, true);
      var j, fr2 := SimParams(k, params, vs, i + 1, t1, globals, fr1, rest, mem);
      ReachesThen(k, t1.scopes, env1, fr1.pc, GenParams(t1, params[i + 1..]).table.scopes,
                  Inner(Bound(params, vs, |vs|), Base(globals)), fr2.pc, fr, rest, mem, 2, fr1, mem, j, fr2, mem);
      n, fr' := 2 + j, fr2;
    }
  }

  lemma NoSteps(k: Link, s: State)
    ensures Goes(k.mod, s, 0, s)
  {
  }

  lemma LinkRoutine(k: Link, f: string)
    requires LinkOk(k) && f in k.prog
    ensures f in k.entry && f in k.mod && RoutineOk(k.prog[f], k.mod[f], k.entry[f], k.fs)
  {
    hide RoutineOk, UniqueLabels, GlobalsOk;
  }

  /** Before the parameters are stored memory shows the file scope. */
  lemma EntryMatches(
    f: FunDef, r: Routine, g: Context, fs: map<string, Symbol>, globals: map<string, Cell>, mem: map<Slot, MemCell>)
    requires RoutineOk(f, r, g, fs) && GlobalsMatch(globals, mem, fs)
    ensures
      var t := FunctionEntry(g, f).table;
      && TableFits(t) && t.scopes.Inner? && t.scopes.vars == map[]
      && Match(Inner(map[], Base(globals)), t.scopes, map[], mem, fs)
  {
    hide StmtResolved, StmtInFragment, GenParams, GenStmt, GenFunction, GlobalsMatch;
    var t := FunctionEntry(g, f).table;
    assert t.scopes.outer.Base? && Uids(t.scopes) == {};
  }

  /** A routine is its parameters' code, its body's code and a default return. */
  lemma RoutineParts(k: Link, f: string)
    requires LinkOk(k) && f in k.prog && f in k.mod && f in k.entry
    ensures
      var def, g := k.prog[f], k.entry[f];
      var ps := GenParams(FunctionEntry(g, def).table, def.params);
      var b := GenStmt(BodyContext(g, def), def.body);
      && k.mod[f].params == def.params && DistinctNames(def.params)
      && CodeAt(k.mod[f].code, 0, ps.code) && CodeAt(k.mod[f].code, |ps.code|, b.code)
      && CodeAt(k.mod[f].code, |ps.code| + |b.code|, Epilogue(b.g.inReturnBlock))
      && UniqueLabels(k.mod[f].code)
  {
    hide StmtResolved, StmtInFragment, GenParams, GenStmt, FunctionEntry, TableOk, CodeAt, Closing;
    var def, g := k.prog[f], k.entry[f];
    var ps := GenParams(FunctionEntry(g, def).table, def.params);
    var b := GenStmt(BodyContext(g, def), def.body);
    LinkRoutine(k, f);
    WholeCode(k.mod[f].code);
    CodeAtThree(k.mod[f].code, 0, ps.code, b.code, Epilogue(b.g.inReturnBlock));
  }

  /** A call starts with the arguments in place. */
  lemma SimEntry(
    k: Link, f: string, vs: seq<int32>, globals: map<string, Cell>, rest: seq<Saved>, mem: map<Slot, MemCell>)
    returns (n: nat, fr: Frame)
    requires LinkOk(k) && f in k.prog && f in k.mod && f in k.entry && |k.prog[f].params| == |vs| == |k.mod[f].params|
    requires GlobalsMatch(globals, mem, k.fs)
    ensures
      var g := BodyContext(k.entry[f], k.prog[f]);
      var x := GenStmt(g, k.prog[f].body);
      var env := Inner(Cells(Zip(k.prog[f].params, vs)), Base(globals));
      && Goes(k.mod, Active(Entry(k.mod, f, vs), rest, mem), n, Active(fr, rest, mem)) && fr.fn == f
      && StmtReady(k, g, false, env, fr, mem, x.code)
      && CodeAt(k.mod[f].code, fr.pc + |x.code|, Epilogue(x.g.inReturnBlock))
  {
    hide LinkOk, RoutineOk, Steps, Zip, GenStmt, GenParams, FunctionEntry, TableFits, Match, CodeAt, GlobalsMatch,
         UniqueLabels, Cells;
    var def, g := k.prog[f], k.entry[f];
    var t := FunctionEntry(g, def).table;
    LinkRoutine(k, f);
    EntryMatches(def, k.mod[f], g, k.fs, globals, mem);
    RoutineParts(k, f);
    assert def.params[0..] == def.params && def.params[..|vs|] == def.params && vs[..|vs|] == vs;
    EmptyBound(def.params, vs);
    n, fr := SimParams(k, def.params, vs, 0, t, globals, Entry(k.mod, f, vs), rest, mem);
  }

  lemma EmptyBound(params: seq<string>, vs: seq<int32>)
    requires |params| == |vs|
    ensures Bound(params, vs, 0) == map[]
  {
  }

  lemma WholeCode(code: seq<Instr>)
    ensures CodeAt(code, 0, code)
  {
    assert code[0..|code|] == code;
  }

  /** A call of a compiled function. */
  lemma {:induction false} SimInvoke(
    k: Link, fuel: nat, f: string, vs: seq<int32>, globals: map<string, Cell>, rest: seq<Saved>,
    mem: map<Slot, MemCell>)
    returns (n: nat, mem': map<Slot, MemCell>)
    requires LinkOk(k) && f in k.prog && f in k.mod && |k.prog[f].params| == |vs| == |k.mod[f].params|
    requires GlobalsMatch(globals, mem, k.fs)
    ensures
      match Invoke(k.prog, fuel, f, vs, globals)
      case Failed(err) => Stopped(k.mod, fuel, Active(Entry(k.mod, f, vs), rest, mem), Stop.Error(err), n)
      case NoAnswer => Stopped(k.mod, fuel, Active(Entry(k.mod, f, vs), rest, mem), Endless, n)
      case Answer(v, g) =>
        && Goes(k.mod, Active(Entry(k.mod, f, vs), rest, mem), n, ReturnTo(rest, v, mem'))
        && GlobalsMatch(g, mem', k.fs)
    decreases fuel, k.prog[f].body, 8
  {
    hide LinkOk, Steps, Zip, GenStmt, StmtResolved, StmtInFragment, Stopped, Match, StmtReady, CodeAt, Exec, After,
         GlobalsMatch, Goes,
         BodyContext, Cells;
    EntryExists(k, f);
    var def := k.prog[f];
    var g := BodyContext(k.entry[f], def);
    var x := GenStmt(g, def.body);
    var env := Inner(Cells(Zip(def.params, vs)), Base(globals));
    var s0 := Active(Entry(k.mod, f, vs), rest, mem);
    var i, fr := SimEntry(k, f, vs, globals, rest, mem);
    BodyOk(k, f);
    var j, fr1, mem1 := SimStmt(k, fuel, g, def.body, false, env, fr, rest, mem);
    n, mem' := i + j, mem1;
    NoStrayJumps(k.prog, fuel, def.body, env);
    var s1 := Active(fr, rest, mem);
    match Exec(k.prog, fuel, def.body, env)
    case Normal(env1) =>
      FallsOff(k, x.g.table.scopes, env1, fr, rest, mem, j, fr1, mem1, fr.pc + |x.code|);
      Then(k.mod, s0, i, s1, j + 1, ReturnTo(rest, 0, mem1));
      n := i + (j + 1);
    case Returned(v, env1) => Then(k.mod, s0, i, s1, j, ReturnTo(rest, v, mem1));
    case Crashed(err) => ThenStopped(k.mod, fuel, s0, i, s1, Stop.Error(err), j);
    case Running => ThenStopped(k.mod, fuel, s0, i, s1, Endless, j);
  }

  lemma EntryExists(k: Link, f: string)
    requires LinkOk(k) && f in k.prog
    ensures f in k.entry && f in k.mod
  {
  }

  lemma BodyOk(k: Link, f: string)
    requires LinkOk(k) && f in k.prog && f in k.entry
    ensures StmtInFragment(k.prog[f].body, false)
    ensures StmtResolved(BodyContext(k.entry[f], k.prog[f]), k.prog[f].body)
            && !BodyContext(k.entry[f], k.prog[f]).inReturnBlock
  {
    hide StmtInFragment, StmtResolved;
  }

  /** Falling off the end of a body returns 0. */
  lemma FallsOff(
    k: Link, t: Scopes<Symbol>, env: Env, fr: Frame, rest: seq<Saved>, mem: map<Slot, MemCell>,
    n: nat, fr1: Frame, mem1: map<Slot, MemCell>, pc: nat)
    requires Reaches(k, t, env, pc, fr, rest, mem, n, fr1, mem1) && fr.fn in k.mod
    requires CodeAt(k.mod[fr.fn].code, pc, [Ret(Imm(0))])
    ensures Goes(k.mod, Active(fr, rest, mem), n + 1, ReturnTo(rest, 0, mem1))
    ensures GlobalsMatch(Globals(env), mem1, k.fs)
  {
    CodeAtLines(k.mod[fr.fn].code, pc, [Ret(Imm(0))]);
    RetReturns(k, Imm(0), 0, fr1, rest, mem1);
    Then(k.mod, Active(fr, rest, mem), n, Active(fr1, rest, mem1), 1, ReturnTo(rest, 0, mem1));
    MatchGlobals(env, t, fr1.slots, mem1, k.fs);
  }
}
