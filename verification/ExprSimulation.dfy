/** The code of an expression computes the expression's value, with its side
    effects, and stops exactly as the expression does. */
module ExprSimulation {
  import opened Options
  import opened Int32
  import opened Ast
  import opened Scopes
  import opened Source
  import opened Ir
  import opened Codegen
  import opened Relation
  import opened Linking
  import opened Types

  // ----- What holds before and after -----

  /** Temporaries and their slots up to number n are untouched. */
  ghost predicate Keeps(fr: Frame, fr': Frame, n: int) {
    && (forall i: int :: i <= n && i in fr.temps ==> i in fr'.temps && fr'.temps[i] == fr.temps[i])
    && (forall i: int :: i <= n && TempAddr(i) in fr.slots ==>
          TempAddr(i) in fr'.slots && fr'.slots[TempAddr(i)] == fr.slots[TempAddr(i)])
  }

  /** The frame got to position pc of the same routine. */
  ghost predicate Moved(fr: Frame, fr': Frame, n: int, pc: nat) {
    fr'.fn == fr.fn && fr'.incoming == fr.incoming && fr'.pc == pc && Keeps(fr, fr', n)
  }

  /** How the machine holds the value v of e after its code x: a comparison as
      an i1, anything else as a literal or an i32. */
  ghost predicate Shows(e: Expr, x: ExprCode, fr: Frame, v: int32) {
    && (!e.Number? ==> x.r <= x.c.temps)
    && if IsComparison(e) then (v == 0 || v == 1) && ReadOperand(fr, I1, Tmp(x.r)) == Got(BoolV(v != 0))
       else ReadOperand(fr, I32, OperandOf(e, x.r)) == Got(IntV(v))
  }

  ghost predicate Ready(k: Link, t: Scopes<Symbol>, env: Env, fr: Frame, mem: map<Slot, MemCell>, part: seq<Instr>) {
    && TableOk(t) && Match(env, t, fr.slots, mem, k.fs)
    && fr.fn in k.mod && CodeAt(k.mod[fr.fn].code, fr.pc, part)
  }

  ghost predicate Arrives(
    k: Link, t: Scopes<Symbol>, env: Env, c: Counters, pc: nat,
    fr: Frame, rest: seq<Saved>, mem: map<Slot, MemCell>, n: nat, fr': Frame, mem': map<Slot, MemCell>)
  {
    && Goes(k.mod, Active(fr, rest, mem), n, Active(fr', rest, mem'))
    && Moved(fr, fr', c.temps, pc)
    && Match(env, t, fr'.slots, mem', k.fs)
  }

  /** The run of an expression's code against the expression's evaluation. */
  ghost predicate ExprSim(
    k: Link, fuel: nat, res: Result, e: Expr, t: Scopes<Symbol>, c: Counters, x: ExprCode,
    fr: Frame, rest: seq<Saved>, mem: map<Slot, MemCell>, n: nat, fr': Frame, mem': map<Slot, MemCell>)
  {
    match res
    case Val(v, env) => Arrives(k, t, env, c, fr.pc + |x.code|, fr, rest, mem, n, fr', mem') && Shows(e, x, fr', v)
    case Wrong(err) => Stopped(k.mod, fuel, Active(fr, rest, mem), Stop.Error(err), n)
    case OutOfFuel => Stopped(k.mod, fuel, Active(fr, rest, mem), Endless, n)
  }

  // ----- Single steps -----

  lemma StepAt(k: Link, fr: Frame, rest: seq<Saved>, mem: map<Slot, MemCell>, part: seq<Instr>, i: nat)
    requires fr.fn in k.mod && i < |part|
    requires i <= fr.pc && CodeAt(k.mod[fr.fn].code, fr.pc - i, part)
    ensures Goes(k.mod, Active(fr, rest, mem), 1, Execute(k.mod, k.mod[fr.fn].code, part[i], fr, rest, mem))
  {
    CodeAtIndex(k.mod[fr.fn].code, fr.pc - i, part, i);
    OneStep(k.mod, Active(fr, rest, mem));
  }

  lemma KeepsTrans(a: Frame, b: Frame, d: Frame, i: int, j: int)
    requires Keeps(a, b, i) && Keeps(b, d, j) && i <= j
    ensures Keeps(a, d, i)
  {
  }

  /** Two arrivals in a row. */
  lemma ArrivesThen(
    k: Link, t: Scopes<Symbol>, env1: Env, env2: Env, c: Counters, c1: Counters, pc1: nat, pc2: nat,
    fr: Frame, rest: seq<Saved>, mem: map<Slot, MemCell>, i: nat, fr1: Frame, mem1: map<Slot, MemCell>,
    j: nat, fr2: Frame, mem2: map<Slot, MemCell>)
    requires Arrives(k, t, env1, c, pc1, fr, rest, mem, i, fr1, mem1)
    requires Arrives(k, t, env2, c1, pc2, fr1, rest, mem1, j, fr2, mem2)
    requires c.temps <= c1.temps
    ensures Arrives(k, t, env2, c, pc2, fr, rest, mem, i + j, fr2, mem2)
  {
    Then(k.mod, Active(fr, rest, mem), i, Active(fr1, rest, mem1), j, Active(fr2, rest, mem2));
    KeepsTrans(fr, fr1, fr2, c.temps, c1.temps);
  }

  lemma ArrivesLess(
    k: Link, t: Scopes<Symbol>, env: Env, c: Counters, c1: Counters, pc: nat,
    fr: Frame, rest: seq<Saved>, mem: map<Slot, MemCell>, n: nat, fr': Frame, mem': map<Slot, MemCell>)
    requires Arrives(k, t, env, c1, pc, fr, rest, mem, n, fr', mem') && c.temps <= c1.temps
    ensures Arrives(k, t, env, c, pc, fr, rest, mem, n, fr', mem')
  {
  }

  /** What an operand shows survives code that leaves its temporary alone. */
  lemma StillShows(e: Expr, x: ExprCode, fr: Frame, fr': Frame, v: int32, n: int)
    requires Shows(e, x, fr, v) && Keeps(fr, fr', n) && x.c.temps <= n
    ensures Shows(e, x, fr', v)
  {
  }

  lemma StillReads(fr: Frame, fr': Frame, n: int, e: Expr, r: int, v: int32)
    requires ReadOperand(fr, I32, OperandOf(e, r)) == Got(IntV(v)) && Keeps(fr, fr', n) && (!e.Number? ==> r <= n)
    ensures ReadOperand(fr', I32, OperandOf(e, r)) == Got(IntV(v))
  {
  }

  /** An instruction that only sets a new temporary. */
  lemma SetTempArrives(
    k: Link, t: Scopes<Symbol>, env: Env, c: Counters, fr: Frame, rest: seq<Saved>, mem: map<Slot, MemCell>,
    part: seq<Instr>, dst: int, v: Value)
    requires Ready(k, t, env, fr, mem, part) && |part| == 1 && dst > c.temps
    requires Execute(k.mod, k.mod[fr.fn].code, part[0], fr, rest, mem) == Active(SetTemp(fr, dst, v), rest, mem)
    ensures Arrives(k, t, env, c, fr.pc + 1, fr, rest, mem, 1, SetTemp(fr, dst, v), mem)
  {
    StepAt(k, fr, rest, mem, part, 0);
  }

  // ----- Conversions of a result -----

  /** A value needs no cast on its way into an int. */
  lemma ToIntIsFree(c: Counters, e: Expr, r: int)
    requires IsValue(e)
    ensures GenToInt(c, e, r) == ExprCode(c, [], r)
  {
    ValueType(e);
  }

  /** After promotion every operand reads as an i32. */
  lemma PromoteArrives(
    k: Link, t: Scopes<Symbol>, env: Env, e: Expr, x: ExprCode, c: Counters, v: int32,
    fr: Frame, rest: seq<Saved>, mem: map<Slot, MemCell>)
    returns (n: nat, fr': Frame)
    requires InFragment(e) && Shows(e, x, fr, v) && x.c.temps <= c.temps
    requires Ready(k, t, env, fr, mem, GenPromote(c, e, x.r).code)
    ensures Arrives(k, t, env, c, fr.pc + |GenPromote(c, e, x.r).code|, fr, rest, mem, n, fr', mem)
    ensures ReadOperand(fr', I32, OperandOf(e, GenPromote(c, e, x.r).r)) == Got(IntV(v))
    ensures !e.Number? ==> GenPromote(c, e, x.r).r <= GenPromote(c, e, x.r).c.temps
    ensures c.temps <= GenPromote(c, e, x.r).c.temps
  {
    if IsComparison(e) {
      n, fr' := 1, SetTemp(fr, c.temps + 1, IntV(if v != 0 then 1 else 0));
      SetTempArrives(k, t, env, c, fr, rest, mem, GenPromote(c, e, x.r).code, c.temps + 1,
                     IntV(if v != 0 then 1 else 0));
    } else {
      ToIntIsFree(c, e, x.r);
      n, fr' := 0, fr;
    }
  }

  /** After a truth test the temporary holds whether the value is nonzero. */
  lemma TruthArrives(
    k: Link, t: Scopes<Symbol>, env: Env, e: Expr, x: ExprCode, v: int32,
    fr: Frame, rest: seq<Saved>, mem: map<Slot, MemCell>)
    returns (n: nat, fr': Frame)
    requires Shows(e, x, fr, v)
    requires Ready(k, t, env, fr, mem, GenTruth(x.c, e, x.r).code)
    ensures var b := GenTruth(x.c, e, x.r);
      && Arrives(k, t, env, x.c, fr.pc + |b.code|, fr, rest, mem, n, fr', mem)
      && ReadOperand(fr', I1, Tmp(b.r)) == Got(BoolV(v != 0))
  {
    if IsComparison(e) {
      n, fr' := 0, fr;
    } else {
      n, fr' := 1, SetTemp(fr, x.c.temps + 1, BoolV(v != 0));
      SetTempArrives(k, t, env, x.c, fr, rest, mem, GenTruth(x.c, e, x.r).code, x.c.temps + 1, BoolV(v != 0));
    }
  }

  // ----- Leaves -----

  /** Reading a variable faults exactly when it was never assigned. */
  lemma LoadSim(
    k: Link, fuel: nat, t: Scopes<Symbol>, env: Env, c: Counters, y: string,
    fr: Frame, rest: seq<Saved>, mem: map<Slot, MemCell>)
    returns (fr': Frame)
    requires IsVariable(t, y) && Ready(k, t, env, fr, mem, LoadCode(c, Find(t, y)).code)
    ensures Find(env, y).Some?
    ensures
      match Find(env, y).value
      case Unset => Stopped(k.mod, fuel, Active(fr, rest, mem), Stop.Error(Uninitialised), 1)
      case Held(v) =>
        && Arrives(k, t, env, c, fr.pc + 1, fr, rest, mem, 1, fr', mem)
        && ReadOperand(fr', I32, Tmp(c.temps + 1)) == Got(IntV(v))
  {
    hide Match, TableOk;
    FindMatches(env, t, fr, mem, k.fs, y);
    var part := LoadCode(c, Find(t, y)).code;
    var cell := Find(env, y).value;
    if cell.Held? {
      fr' := SetTemp(fr, c.temps + 1, IntV(cell.value));
      SetTempArrives(k, t, env, c, fr, rest, mem, part, c.temps + 1, IntV(cell.value));
    } else {
      fr' := fr;
      StepAt(k, fr, rest, mem, part, 0);
    }
  }

  /** Storing an operand into a variable in scope. */
  lemma StoreArrives(
    k: Link, t: Scopes<Symbol>, env: Env, c: Counters, y: string, o: Operand, v: int32,
    fr: Frame, rest: seq<Saved>, mem: map<Slot, MemCell>)
    returns (fr': Frame, mem': map<Slot, MemCell>)
    requires IsVariable(t, y) && GlobalsOk(k.fs)
    requires Ready(k, t, env, fr, mem, [Store(I32, o, SlotOf(Find(t, y).value))])
    requires ReadOperand(fr, I32, o) == Got(IntV(v))
    ensures Find(env, y).Some?
    ensures Arrives(k, t, Update(env, y, Held(v)), c, fr.pc + 1, fr, rest, mem, 1, fr', mem')
    ensures fr'.temps == fr.temps
  {
    var s := SlotOf(Find(t, y).value);
    FindMatches(env, t, fr, mem, k.fs, y);
    StoreMatches(env, t, fr.slots, mem, k.fs, y, Held(v));
    StepAt(k, fr, rest, mem, [Store(I32, o, s)], 0);
    if s.Global? {
      fr', mem' := Next(fr), mem[s := Image(Held(v))];
    } else {
      fr', mem' := Next(fr.(slots := fr.slots[s := Image(Held(v))])), mem;
    }
  }

  /** Each C operator is mapped to the opcode or predicate that computes it. */
  lemma OperatorsAgree(op: BinaryOp, a: int32, b: int32)
    requires op != LAnd && op != LOr
    ensures
      if IsComparisonOp(op) then Operate(op, a, b) == Some(FromBool(Compare(PredicateOf(op), a, b)))
      else Operate(op, a, b) == Opcode32(OpcodeOf(op), a, b)
  {
    hide Wrap, Quotient, Remainder, Bitwise, Pow2;
  }

  /** The instruction of a binary operator. */
  lemma OperatorExecutes(
    m: Module, code: seq<Instr>, op: BinaryOp, dst: int, o: Operand, p: Operand, a: int32, b: int32,
    fr: Frame, rest: seq<Saved>, mem: map<Slot, MemCell>)
    requires op != LAnd && op != LOr
    requires ReadOperand(fr, I32, o) == Got(IntV(a)) && ReadOperand(fr, I32, p) == Got(IntV(b))
    ensures
      Execute(m, code, OperatorInstr(op, dst, o, p), fr, rest, mem)
      == match Operate(op, a, b)
         case None => Faulted(ArithmeticFault)
         case Some(v) => Active(SetTemp(fr, dst, if IsComparisonOp(op) then BoolV(v != 0) else IntV(v)), rest, mem)
    ensures IsComparisonOp(op) ==> Operate(op, a, b) in {Some(0), Some(1)}
  {
    hide Operate, Opcode32, Compare;
    OperatorsAgree(op, a, b);
  }

  function OperatorTail(op: BinaryOp, l: Expr, r: Expr, x: ExprCode, y: ExprCode): seq<Instr> {
    var temp := y.c.temps + 1;
    var px := GenPromote(y.c.(temps := temp), l, x.r);
    var py := GenPromote(px.c, r, y.r);
    px.code + (py.code + [OperatorInstr(op, temp, OperandOf(l, px.r), OperandOf(r, py.r))])
  }

  lemma OperatorStepSim(
    k: Link, fuel: nat, t: Scopes<Symbol>, env: Env, op: BinaryOp, c: Counters, o: Operand, p: Operand, a: int32,
    b: int32,
    fr: Frame, rest: seq<Saved>, mem: map<Slot, MemCell>)
    returns (fr': Frame)
    requires op != LAnd && op != LOr
    requires ReadOperand(fr, I32, o) == Got(IntV(a)) && ReadOperand(fr, I32, p) == Got(IntV(b))
    requires Ready(k, t, env, fr, mem, [OperatorInstr(op, c.temps + 1, o, p)])
    ensures
      match Operate(op, a, b)
      case None => Stopped(k.mod, fuel, Active(fr, rest, mem), Stop.Error(Arithmetic), 1)
      case Some(v) =>
        && Arrives(k, t, env, c, fr.pc + 1, fr, rest, mem, 1, fr', mem)
        && ReadOperand(fr', if IsComparisonOp(op) then I1 else I32, Tmp(c.temps + 1))
           == Got(if IsComparisonOp(op) then BoolV(v != 0) else IntV(v))
        && (IsComparisonOp(op) ==> v == 0 || v == 1)
  {
    hide Operate, Execute, Step, Steps, Match, TableOk;
    var part := [OperatorInstr(op, c.temps + 1, o, p)];
    OperatorExecutes(k.mod, k.mod[fr.fn].code, op, c.temps + 1, o, p, a, b, fr, rest, mem);
    if Operate(op, a, b).Some? {
      var v := Operate(op, a, b).value;
      var w := if IsComparisonOp(op) then BoolV(v != 0) else IntV(v);
      fr' := SetTemp(fr, c.temps + 1, w);
      SetTempArrives(k, t, env, c, fr, rest, mem, part, c.temps + 1, w);
    } else {
      fr' := fr;
      StepAt(k, fr, rest, mem, part, 0);
    }
  }

  lemma PromoteBoth(
    k: Link, t: Scopes<Symbol>, env: Env, l: Expr, r: Expr, x: ExprCode, y: ExprCode, a: int32, b: int32,
    c: Counters, px: ExprCode, py: ExprCode, fr: Frame, rest: seq<Saved>, mem: map<Slot, MemCell>)
    returns (n: nat, fr': Frame)
    requires InFragment(l) && InFragment(r) && x.c.temps <= c.temps && y.c.temps <= c.temps
    requires Shows(l, x, fr, a) && Shows(r, y, fr, b)
    requires px == GenPromote(c, l, x.r) && py == GenPromote(px.c, r, y.r)
    requires Ready(k, t, env, fr, mem, px.code + py.code)
    ensures Arrives(k, t, env, c, fr.pc + |px.code + py.code|, fr, rest, mem, n, fr', mem)
    ensures ReadOperand(fr', I32, OperandOf(l, px.r)) == Got(IntV(a))
    ensures ReadOperand(fr', I32, OperandOf(r, py.r)) == Got(IntV(b))
  {
    hide Match, TableOk, Steps, Keeps, CodeAt;
    CodeAtAppend(k.mod[fr.fn].code, fr.pc, px.code, py.code);
    var i, fr1 := PromoteArrives(k, t, env, l, x, c, a, fr, rest, mem);
    StillShows(r, y, fr, fr1, b, c.temps);
    var j, fr2 := PromoteArrives(k, t, env, r, y, px.c, b, fr1, rest, mem);
    StillReads(fr1, fr2, px.c.temps, l, px.r, a);
    ArrivesThen(k, t, env, env, c, px.c, fr1.pc, fr2.pc, fr, rest, mem, i, fr1, mem, j, fr2, mem);
    n, fr' := i + j, fr2;
  }

  /** From both operands to the operator's result. */
  lemma OperatorTailSim(
    k: Link, fuel: nat, t: Scopes<Symbol>, env: Env, e: Expr, x: ExprCode, y: ExprCode, a: int32, b: int32,
    fr: Frame, rest: seq<Saved>, mem: map<Slot, MemCell>)
    returns (n: nat, fr': Frame)
    requires e.Binary? && e.op != LAnd && e.op != LOr && InFragment(e.left) && InFragment(e.right)
    requires x.c.temps <= y.c.temps && Shows(e.left, x, fr, a) && Shows(e.right, y, fr, b)
    requires Ready(k, t, env, fr, mem, OperatorTail(e.op, e.left, e.right, x, y))
    ensures
      match Operate(e.op, a, b)
      case None => Stopped(k.mod, fuel, Active(fr, rest, mem), Stop.Error(Arithmetic), n)
      case Some(v) =>
        && Arrives(k, t, env, y.c, fr.pc + |OperatorTail(e.op, e.left, e.right, x, y)|, fr, rest, mem, n, fr', mem)
        && Shows(e, OperatorCode(e.op, e.left, e.right, x, y), fr', v)
  {
    hide Operate, Execute, Steps, Match, TableOk, Keeps, GenPromote, InFragment, CodeAt;
    var temp := y.c.temps + 1;
    var c1 := y.c.(temps := temp);
    var px := GenPromote(c1, e.left, x.r);
    var py := GenPromote(px.c, e.right, y.r);
    var o, p := OperandOf(e.left, px.r), OperandOf(e.right, py.r);
    var last := [OperatorInstr(e.op, temp, o, p)];
    assert px.code + (py.code + last) == (px.code + py.code) + last;
    CodeAtAppend(k.mod[fr.fn].code, fr.pc, px.code + py.code, last);
    var i, fr1 := PromoteBoth(k, t, env, e.left, e.right, x, y, a, b, c1, px, py, fr, rest, mem);
    ArrivesLess(k, t, env, y.c, c1, fr1.pc, fr, rest, mem, i, fr1, mem);
    fr' := OperatorStepSim(k, fuel, t, env, e.op, y.c, o, p, a, b, fr1, rest, mem);
    n := i + 1;
    if Operate(e.op, a, b).Some? {
      ArrivesThen(k, t, env, env, y.c, y.c, fr1.pc, fr'.pc, fr, rest, mem, i, fr1, mem, 1, fr', mem);
      PromotedTemps(c1, e.left, e.right, x.r, y.r);
    } else {
      ThenStopped(k.mod, fuel, Active(fr, rest, mem), i, Active(fr1, rest, mem), Stop.Error(Arithmetic), 1);
    }
  }

  lemma PromotedTemps(c: Counters, l: Expr, r: Expr, i: int, j: int)
    ensures c.temps <= GenPromote(GenPromote(c, l, i).c, r, j).c.temps
  {
  }

  // ----- Assignment -----

  /** r is what the right-hand side came to. */
  function Assigned(r: Result, y: string): Result {
    match r
    case Val(v, env) => if Find(env, y).None? then Wrong(Unbound) else Val(v, Update(env, y, Held(v)))
    case bad => bad
  }

  /** The value of the right-hand side is stored. */
  lemma AssignSim(
    k: Link, fuel: nat, t: Scopes<Symbol>, c: Counters, e: Expr, x: ExprCode, r: Result,
    fr: Frame, rest: seq<Saved>, mem: map<Slot, MemCell>, i: nat, fr1: Frame, mem1: map<Slot, MemCell>)
    returns (n: nat, fr': Frame, mem': map<Slot, MemCell>)
    requires e.Assign? && IsValue(e.rhs) && !e.rhs.Number? && IsVariable(t, e.name)
    requires GlobalsOk(k.fs) && TableOk(t) && c.temps <= x.c.temps
    requires fr.fn in k.mod
    requires CodeAt(k.mod[fr.fn].code, fr.pc + |x.code|,
                    [Store(I32, OperandOf(e.rhs, x.r), SlotOf(Find(t, e.name).value))])
    requires ExprSim(k, fuel, r, e.rhs, t, c, x, fr, rest, mem, i, fr1, mem1)
    ensures ExprSim(k, fuel, Assigned(r, e.name), e, t, c, AssignCode(Find(t, e.name), e.rhs, x), fr, rest, mem, n,
                    fr', mem')
  {
    hide Match, TableOk, Steps, Keeps, CodeAt, Stopped, Goes, GlobalsOk;
    ToIntIsFree(x.c, e.rhs, x.r);
    n, fr', mem' := i, fr1, mem1;
    if r.Val? {
      fr', mem' := StoreArrives(k, t, r.env, x.c, e.name, OperandOf(e.rhs, x.r), r.v, fr1, rest, mem1);
      n := i + 1;
      ArrivesThen(k, t, r.env, Update(r.env, e.name, Held(r.v)), c, x.c, fr1.pc, fr'.pc, fr, rest, mem, i, fr1, mem1,
                  1, fr', mem');
    }
  }

  // ----- Unary operators, `++` and `--` -----

  lemma UnarySim(
    k: Link, t: Scopes<Symbol>, env: Env, u: Expr, x: ExprCode, v: int32,
    fr: Frame, rest: seq<Saved>, mem: map<Slot, MemCell>)
    returns (fr': Frame)
    requires u.Unary? && (u.uop == Neg || u.uop == BNot)
    requires IsValue(u.operand) && Shows(u.operand, x, fr, v)
    requires Ready(k, t, env, fr, mem, [UnaryInstr(u.uop, x.c.temps + 1, OperandOf(u.operand, x.r))])
    ensures Arrives(k, t, env, x.c, fr.pc + 1, fr, rest, mem, 1, fr', mem)
    ensures
      var w: int := v;
      Shows(u, UnaryCode(u.uop, u.operand, x), fr', if u.uop == Neg then Wrap(-w) else Wrap(-1 - w))
  {
    hide Match, TableOk, Steps, Bitwise, Combine;
    var w: int := v;
    var z := if u.uop == Neg then Wrap(-w) else Wrap(-1 - w);
    XorMinusOne(v);
    fr' := SetTemp(fr, x.c.temps + 1, IntV(z));
    SetTempArrives(k, t, env, x.c, fr, rest, mem,
                   [UnaryInstr(u.uop, x.c.temps + 1, OperandOf(u.operand, x.r))], x.c.temps + 1, IntV(z));
  }

  /** The last two lines of `++` and `--`: the new value is computed and stored. */
  lemma StepStores(
    k: Link, t: Scopes<Symbol>, env: Env, c: Counters, op: UnaryOp, y: string, v: int32, code: Instr,
    fr: Frame, rest: seq<Saved>, mem: map<Slot, MemCell>)
    returns (fr': Frame, mem': map<Slot, MemCell>)
    requires IsVariable(t, y) && GlobalsOk(k.fs) && IsStep(op)
    requires ReadOperand(fr, I32, Tmp(c.temps + 1)) == Got(IntV(v))
    requires code == Arith(c.temps + 2, if op == PreInc || op == PostInc then AddI else SubI, Tmp(c.temps + 1), Imm(1))
    requires Ready(k, t, env, fr, mem, [code] + [Store(I32, Tmp(c.temps + 2), SlotOf(Find(t, y).value))])
    ensures Arrives(k, t, Update(env, y, Held(Stepped(op, v))), c, fr.pc + 2, fr, rest, mem, 2, fr', mem')
    ensures fr'.temps == fr.temps[c.temps + 2 := IntV(Stepped(op, v))]
  {
    hide Match, TableOk, Steps;
    var w := Stepped(op, v);
    var store := [Store(I32, Tmp(c.temps + 2), SlotOf(Find(t, y).value))];
    CodeAtAppend(k.mod[fr.fn].code, fr.pc, [code], store);
    var fr1 := SetTemp(fr, c.temps + 2, IntV(w));
    SetTempArrives(k, t, env, c, fr, rest, mem, [code], c.temps + 2, IntV(w));
    fr', mem' := StoreArrives(k, t, env, c, y, Tmp(c.temps + 2), w, fr1, rest, mem);
    ArrivesThen(k, t, env, Update(env, y, Held(w)), c, c, fr1.pc, fr'.pc, fr, rest, mem, 1, fr1, mem, 1, fr', mem');
  }

  lemma StepSim(
    k: Link, fuel: nat, t: Scopes<Symbol>, env: Env, c: Counters, u: Expr,
    fr: Frame, rest: seq<Saved>, mem: map<Slot, MemCell>)
    returns (n: nat, fr': Frame, mem': map<Slot, MemCell>)
    requires u.Unary? && IsStep(u.uop) && u.operand.Var? && IsVariable(t, u.operand.name) && GlobalsOk(k.fs)
    requires Ready(k, t, env, fr, mem, StepCode(c, u.uop, Find(t, u.operand.name)).code)
    ensures ExprSim(k, fuel, Eval(k.prog, fuel, u, env), u, t, c, StepCode(c, u.uop, Find(t, u.operand.name)), fr,
                    rest, mem, n, fr', mem')
  {
    hide Match, TableOk, Steps, Keeps, Stepped, CodeAt, Goes, GlobalsOk, UniqueLabels, EvalArgs, Exec, GenExpr,
         Opcode32, Execute, SlotOf;
    var y := u.operand.name;
    var part := StepCode(c, u.uop, Find(t, y)).code;
    var load := LoadCode(c, Find(t, y)).code;
    assert part == load + ([part[1]] + [part[2]]);
    CodeAtAppend(k.mod[fr.fn].code, fr.pc, load, [part[1]] + [part[2]]);
    var fr1 := LoadSim(k, fuel, t, env, c, y, fr, rest, mem);
    n, fr', mem' := 1, fr1, mem;
    var cell := Find(env, y).value;
    if cell.Held? {
      fr', mem' := StepStores(k, t, env, c, u.uop, y, cell.value, part[1], fr1, rest, mem);
      n := 3;
      ArrivesThen(k, t, env, Update(env, y, Held(Stepped(u.uop, cell.value))), c, c, fr1.pc, fr'.pc,
                  fr, rest, mem, 1, fr1, mem, 2, fr', mem');
    }
  }

  // ----- Branches and the slots of temporaries -----

  ghost predicate At(k: Link, fr: Frame, pc: nat, i: Instr) {
    fr.fn in k.mod && pc < |k.mod[fr.fn].code| && k.mod[fr.fn].code[pc] == i
  }

  ghost predicate Stands(k: Link, t: Scopes<Symbol>, env: Env, fr: Frame, mem: map<Slot, MemCell>) {
    TableOk(t) && Match(env, t, fr.slots, mem, k.fs) && fr.fn in k.mod && UniqueLabels(k.mod[fr.fn].code)
  }

  lemma Executes(k: Link, fr: Frame, rest: seq<Saved>, mem: map<Slot, MemCell>, i: Instr)
    requires At(k, fr, fr.pc, i)
    ensures Goes(k.mod, Active(fr, rest, mem), 1, Execute(k.mod, k.mod[fr.fn].code, i, fr, rest, mem))
  {
    OneStep(k.mod, Active(fr, rest, mem));
  }

  /** A branch to the label at position p. */
  lemma BrArrives(
    k: Link, t: Scopes<Symbol>, env: Env, c: Counters, l: Label, p: nat,
    fr: Frame, rest: seq<Saved>, mem: map<Slot, MemCell>)
    requires Stands(k, t, env, fr, mem) && At(k, fr, fr.pc, Br(l)) && At(k, fr, p, LabelDef(l))
    ensures Arrives(k, t, env, c, p + 1, fr, rest, mem, 1, fr.(pc := p + 1), mem)
  {
    Executes(k, fr, rest, mem, Br(l));
    JumpLands(k.mod[fr.fn].code, l, p, fr, rest, mem);
  }

  lemma CondBrArrives(
    k: Link, t: Scopes<Symbol>, env: Env, c: Counters, r: int, b: bool, l1: Label, l2: Label, p: nat,
    fr: Frame, rest: seq<Saved>, mem: map<Slot, MemCell>)
    requires Stands(k, t, env, fr, mem) && At(k, fr, fr.pc, CondBr(r, l1, l2))
    requires At(k, fr, p, LabelDef(if b then l1 else l2))
    requires ReadOperand(fr, I1, Tmp(r)) == Got(BoolV(b))
    ensures Arrives(k, t, env, c, p + 1, fr, rest, mem, 1, fr.(pc := p + 1), mem)
  {
    Executes(k, fr, rest, mem, CondBr(r, l1, l2));
    JumpLands(k.mod[fr.fn].code, if b then l1 else l2, p, fr, rest, mem);
  }

  lemma AllocaArrives(
    k: Link, t: Scopes<Symbol>, env: Env, c: Counters, i: int, ty: Type,
    fr: Frame, rest: seq<Saved>, mem: map<Slot, MemCell>)
    returns (fr': Frame)
    requires Stands(k, t, env, fr, mem) && At(k, fr, fr.pc, Alloca(TempAddr(i), ty)) && i > c.temps
    ensures Arrives(k, t, env, c, fr.pc + 1, fr, rest, mem, 1, fr', mem)
    ensures TempAddr(i) in fr'.slots && fr'.slots[TempAddr(i)] == MemCell(ty, None)
  {
    Executes(k, fr, rest, mem, Alloca(TempAddr(i), ty));
    fr' := Next(fr.(slots := fr.slots[TempAddr(i) := MemCell(ty, None)]));
    MatchSameLocals(env, t, fr.slots, mem, k.fs, fr'.slots);
  }

  /** A store into a temporary's slot followed by a branch. */
  lemma StoreBrArrives(
    k: Link, t: Scopes<Symbol>, env: Env, c: Counters, ty: Type, o: Operand, v: Value, i: int, l: Label, p: nat,
    fr: Frame, rest: seq<Saved>, mem: map<Slot, MemCell>)
    returns (fr': Frame)
    requires Stands(k, t, env, fr, mem) && i > c.temps
    requires At(k, fr, fr.pc, Store(ty, o, TempAddr(i))) && At(k, fr, fr.pc + 1, Br(l)) && At(k, fr, p, LabelDef(l))
    requires ReadOperand(fr, ty, o) == Got(v)
    requires TempAddr(i) in fr.slots && fr.slots[TempAddr(i)].ty == ty
    ensures Arrives(k, t, env, c, p + 1, fr, rest, mem, 2, fr', mem)
    ensures TempAddr(i) in fr'.slots && fr'.slots[TempAddr(i)] == MemCell(ty, Some(v))
  {
    hide Match, Steps;
    Executes(k, fr, rest, mem, Store(ty, o, TempAddr(i)));
    var fr1 := Next(fr.(slots := fr.slots[TempAddr(i) := MemCell(ty, Some(v))]));
    MatchSameLocals(env, t, fr.slots, mem, k.fs, fr1.slots);
    BrArrives(k, t, env, c, l, p, fr1, rest, mem);
    fr' := fr1.(pc := p + 1);
    ArrivesThen(k, t, env, env, c, c, fr1.pc, p + 1, fr, rest, mem, 1, fr1, mem, 1, fr', mem);
  }

  lemma LoadTempArrives(
    k: Link, t: Scopes<Symbol>, env: Env, c: Counters, dst: int, ty: Type, v: Value, i: int,
    fr: Frame, rest: seq<Saved>, mem: map<Slot, MemCell>)
    requires Stands(k, t, env, fr, mem) && At(k, fr, fr.pc, Load(dst, ty, TempAddr(i))) && dst > c.temps
    requires TempAddr(i) in fr.slots && fr.slots[TempAddr(i)] == MemCell(ty, Some(v))
    ensures Arrives(k, t, env, c, fr.pc + 1, fr, rest, mem, 1, SetTemp(fr, dst, v), mem)
  {
    Executes(k, fr, rest, mem, Load(dst, ty, TempAddr(i)));
  }

  /** A condition and its conversion, from the code of the condition on. */
  lemma TestSim(
    k: Link, fuel: nat, t: Scopes<Symbol>, e: Expr, c: Counters, x: ExprCode, v: int32, env: Env,
    fr: Frame, rest: seq<Saved>, mem: map<Slot, MemCell>, n1: nat, fr1: Frame, mem1: map<Slot, MemCell>)
    returns (n: nat, fr': Frame)
    requires c.temps <= x.c.temps && TableOk(t) && fr.fn in k.mod
    requires CodeAt(k.mod[fr.fn].code, fr.pc, x.code + GenTruth(x.c, e, x.r).code)
    requires ExprSim(k, fuel, Val(v, env), e, t, c, x, fr, rest, mem, n1, fr1, mem1)
    ensures
      var b := GenTruth(x.c, e, x.r);
      && Arrives(k, t, env, c, fr.pc + |x.code| + |b.code|, fr, rest, mem, n, fr', mem1)
      && ReadOperand(fr', I1, Tmp(b.r)) == Got(BoolV(v != 0))
  {
    hide Match, TableOk, Steps, Keeps;
    var b := GenTruth(x.c, e, x.r);
    CodeAtAppend(k.mod[fr.fn].code, fr.pc, x.code, b.code);
    var j, fr2 := TruthArrives(k, t, env, e, x, v, fr1, rest, mem1);
    ArrivesThen(k, t, env, env, c, x.c, fr1.pc, fr2.pc, fr, rest, mem, n1, fr1, mem1, j, fr2, mem1);
    n, fr' := n1 + j, fr2;
  }

  // ----- Where the parts of a node lie -----

  /** The lines of a short piece, one by one. */
  lemma CodeAtLines(code: seq<Instr>, pc: nat, part: seq<Instr>)
    requires CodeAt(code, pc, part)
    ensures pc + |part| <= |code|
    ensures |part| > 0 ==> code[pc] == part[0]
    ensures |part| > 1 ==> code[pc + 1] == part[1]
    ensures |part| > 2 ==> code[pc + 2] == part[2]
    ensures |part| > 3 ==> code[pc + 3] == part[3]
    ensures |part| > 4 ==> code[pc + 4] == part[4]
  {
    forall i | 0 <= i < |part|
      ensures code[pc + i] == part[i]
    {
      CodeAtIndex(code, pc, part, i);
    }
  }

  lemma CodeAtJoin(code: seq<Instr>, pc: nat, a: seq<Instr>, b: seq<Instr>)
    requires CodeAt(code, pc, a) && CodeAt(code, pc + |a|, b)
    ensures CodeAt(code, pc, a + b)
  {
    assert code[pc..pc + |a| + |b|] == code[pc..pc + |a|] + code[pc + |a|..pc + |a| + |b|];
  }

  lemma CodeAtSeven(
    code: seq<Instr>, pc: nat, a: seq<Instr>, b: seq<Instr>, c: seq<Instr>, d: seq<Instr>, e: seq<Instr>,
    f: seq<Instr>, g: seq<Instr>)
    requires CodeAt(code, pc, a + (b + (c + (d + (e + (f + g))))))
    ensures CodeAt(code, pc, a) && CodeAt(code, pc + |a|, b + c)
    ensures CodeAt(code, pc + |a| + |b| + |c|, d) && CodeAt(code, pc + |a| + |b| + |c| + |d|, e + f)
    ensures CodeAt(code, pc + |a| + |b| + |c| + |d| + |e| + |f|, g)
  {
    hide CodeAt;
    CodeAtAppend(code, pc, a, b + (c + (d + (e + (f + g)))));
    CodeAtAppend(code, pc + |a|, b, c + (d + (e + (f + g))));
    CodeAtAppend(code, pc + |a| + |b|, c, d + (e + (f + g)));
    CodeAtAppend(code, pc + |a| + |b| + |c|, d, e + (f + g));
    CodeAtAppend(code, pc + |a| + |b| + |c| + |d|, e, f + g);
    CodeAtAppend(code, pc + |a| + |b| + |c| + |d| + |e|, f, g);
    CodeAtJoin(code, pc + |a|, b, c);
    CodeAtJoin(code, pc + |a| + |b| + |c| + |d|, e, f);
  }

  lemma LogicalLies(code: seq<Instr>, pc: nat, c: Counters, op: BinaryOp, l: Expr, r: Expr, x: ExprCode, y: ExprCode)
    returns (m: nat, q: nat)
    requires CodeAt(code, pc, LogicalCode(c, op, l, r, x, y).code)
    ensures
      var xb, yb := GenTruth(x.c, l, x.r), GenTruth(y.c, r, y.r);
      && CodeAt(code, pc, [Alloca(ResultSlot(c), I1)])
      && CodeAt(code, pc + 1, x.code + xb.code)
      && m == pc + 1 + |x.code| + |xb.code| && CodeAt(code, m, LogicalShortcut(c, op, xb.r))
      && CodeAt(code, m + 5, y.code + yb.code)
      && q == m + 5 + |y.code| + |yb.code| && CodeAt(code, q, LogicalExit(c, yb.r, yb.c.temps + 1))
      && q + 5 == pc + |LogicalCode(c, op, l, r, x, y).code|
  {
    hide CodeAt, GenTruth;
    var xb, yb := GenTruth(x.c, l, x.r), GenTruth(y.c, r, y.r);
    m := pc + 1 + |x.code| + |xb.code|;
    q := m + 5 + |y.code| + |yb.code|;
    CodeAtSeven(code, pc, [Alloca(ResultSlot(c), I1)], x.code, xb.code, LogicalShortcut(c, op, xb.r),
                y.code, yb.code, LogicalExit(c, yb.r, yb.c.temps + 1));
  }

  // ----- `&&` and `||` -----

  ghost predicate SlotIs(fr: Frame, i: int, ty: Type, v: Option<Value>) {
    TempAddr(i) in fr.slots && fr.slots[TempAddr(i)] == MemCell(ty, v)
  }

  lemma ShortcutTaken(
    k: Link, t: Scopes<Symbol>, env: Env, c: Counters, op: BinaryOp, test: int,
    fr: Frame, rest: seq<Saved>, mem: map<Slot, MemCell>)
    requires Stands(k, t, env, fr, mem)
    requires CodeAt(k.mod[fr.fn].code, fr.pc, LogicalShortcut(c, op, test))
    requires op == LAnd || op == LOr
    requires ReadOperand(fr, I1, Tmp(test)) == Got(BoolV(op == LOr))
    ensures Arrives(k, t, env, c, fr.pc + 2, fr, rest, mem, 1, fr.(pc := fr.pc + 2), mem)
  {
    hide Match, Steps, CodeAt, TableOk, Goes, Keeps;
    CodeAtLines(k.mod[fr.fn].code, fr.pc, LogicalShortcut(c, op, test));
    var m := fr.pc;
    if op == LAnd {
      CondBrArrives(k, t, env, c, test, false, LogicalRight(c), LogicalLeft(c), m + 1, fr, rest, mem);
    } else {
      CondBrArrives(k, t, env, c, test, true, LogicalLeft(c), LogicalRight(c), m + 1, fr, rest, mem);
    }
  }

  /** The left operand decides: the result is in its slot, past the end label. */
  lemma ShortcutArrives(
    k: Link, t: Scopes<Symbol>, env: Env, c: Counters, op: BinaryOp, test: int, value: int, final: int, q: nat,
    fr: Frame, rest: seq<Saved>, mem: map<Slot, MemCell>)
    returns (fr': Frame)
    requires Stands(k, t, env, fr, mem) && SlotIs(fr, c.temps + 1, I1, None)
    requires CodeAt(k.mod[fr.fn].code, fr.pc, LogicalShortcut(c, op, test))
    requires CodeAt(k.mod[fr.fn].code, q, LogicalExit(c, value, final))
    requires op == LAnd || op == LOr
    requires ReadOperand(fr, I1, Tmp(test)) == Got(BoolV(op == LOr))
    ensures Arrives(k, t, env, c, q + 3, fr, rest, mem, 3, fr', mem)
    ensures SlotIs(fr', c.temps + 1, I1, Some(BoolV(op == LOr)))
  {
    hide Match, Steps, CodeAt, TableOk, Goes, Keeps;
    CodeAtLines(k.mod[fr.fn].code, fr.pc, LogicalShortcut(c, op, test));
    CodeAtLines(k.mod[fr.fn].code, q, LogicalExit(c, value, final));
    var m := fr.pc;
    var fr1 := fr.(pc := m + 2);
    ShortcutTaken(k, t, env, c, op, test, fr, rest, mem);
    fr' := StoreBrArrives(k, t, env, c, I1, Flag(op == LOr), BoolV(op == LOr), c.temps + 1, LogicalEnd(c), q + 2, fr1,
                          rest, mem);
    ArrivesThen(k, t, env, env, c, c, m + 2, q + 3, fr, rest, mem, 1, fr1, mem, 2, fr', mem);
  }

  /** The left operand does not decide: control goes on to the right one. */
  lemma GoOnArrives(
    k: Link, t: Scopes<Symbol>, env: Env, c: Counters, c1: Counters, op: BinaryOp, test: int,
    fr: Frame, rest: seq<Saved>, mem: map<Slot, MemCell>)
    requires Stands(k, t, env, fr, mem)
    requires CodeAt(k.mod[fr.fn].code, fr.pc, LogicalShortcut(c, op, test))
    requires op == LAnd || op == LOr
    requires ReadOperand(fr, I1, Tmp(test)) == Got(BoolV(op == LAnd))
    ensures Arrives(k, t, env, c1, fr.pc + 5, fr, rest, mem, 1, fr.(pc := fr.pc + 5), mem)
  {
    hide Match, Steps, CodeAt;
    CodeAtLines(k.mod[fr.fn].code, fr.pc, LogicalShortcut(c, op, test));
    var m := fr.pc;
    if op == LAnd {
      CondBrArrives(k, t, env, c1, test, true, LogicalRight(c), LogicalLeft(c), m + 4, fr, rest, mem);
    } else {
      CondBrArrives(k, t, env, c1, test, false, LogicalLeft(c), LogicalRight(c), m + 4, fr, rest, mem);
    }
  }

  /** The right operand's truth value goes into the slot. */
  lemma RightArrives(
    k: Link, t: Scopes<Symbol>, env: Env, c: Counters, value: int, final: int, b: bool,
    fr: Frame, rest: seq<Saved>, mem: map<Slot, MemCell>)
    returns (fr': Frame)
    requires Stands(k, t, env, fr, mem) && SlotIs(fr, c.temps + 1, I1, None)
    requires CodeAt(k.mod[fr.fn].code, fr.pc, LogicalExit(c, value, final))
    requires ReadOperand(fr, I1, Tmp(value)) == Got(BoolV(b))
    ensures Arrives(k, t, env, c, fr.pc + 3, fr, rest, mem, 2, fr', mem)
    ensures SlotIs(fr', c.temps + 1, I1, Some(BoolV(b)))
  {
    hide Match, Steps, CodeAt;
    CodeAtLines(k.mod[fr.fn].code, fr.pc, LogicalExit(c, value, final));
    fr' := StoreBrArrives(k, t, env, c, I1, Tmp(value), BoolV(b), c.temps + 1, LogicalEnd(c), fr.pc + 2, fr, rest, mem);
  }

  /** Past the end label the result is loaded and widened. */
  lemma LogicalFinish(
    k: Link, t: Scopes<Symbol>, env: Env, c: Counters, value: int, final: int, b: bool, q: nat,
    fr: Frame, rest: seq<Saved>, mem: map<Slot, MemCell>)
    returns (fr': Frame)
    requires Stands(k, t, env, fr, mem) && SlotIs(fr, c.temps + 1, I1, Some(BoolV(b))) && fr.pc == q + 3
    requires CodeAt(k.mod[fr.fn].code, q, LogicalExit(c, value, final)) && final > c.temps
    ensures Arrives(k, t, env, c, q + 5, fr, rest, mem, 2, fr', mem)
    ensures ReadOperand(fr', I32, Tmp(final + 1)) == Got(IntV(FromBool(b)))
  {
    hide Match, Steps, CodeAt;
    CodeAtLines(k.mod[fr.fn].code, q, LogicalExit(c, value, final));
    var fr1 := SetTemp(fr, final, BoolV(b));
    LoadTempArrives(k, t, env, c, final, I1, BoolV(b), c.temps + 1, fr, rest, mem);
    Executes(k, fr1, rest, mem, Zext(final + 1, final));
    fr' := SetTemp(fr1, final + 1, IntV(FromBool(b)));
    assert Arrives(k, t, env, c, q + 5, fr1, rest, mem, 1, fr', mem);
    ArrivesThen(k, t, env, env, c, c, q + 4, q + 5, fr, rest, mem, 1, fr1, mem, 1, fr', mem);
  }

  /** From the branch on, when the left operand decides. */
  lemma ShortSim(
    k: Link, t: Scopes<Symbol>, env: Env, c: Counters, op: BinaryOp, test: int, value: int, final: int, q: nat,
    fr: Frame, rest: seq<Saved>, mem: map<Slot, MemCell>)
    returns (fr': Frame)
    requires Stands(k, t, env, fr, mem) && SlotIs(fr, c.temps + 1, I1, None)
    requires CodeAt(k.mod[fr.fn].code, fr.pc, LogicalShortcut(c, op, test))
    requires CodeAt(k.mod[fr.fn].code, q, LogicalExit(c, value, final))
    requires (op == LAnd || op == LOr) && final > c.temps
    requires ReadOperand(fr, I1, Tmp(test)) == Got(BoolV(op == LOr))
    ensures Arrives(k, t, env, c, q + 5, fr, rest, mem, 5, fr', mem)
    ensures ReadOperand(fr', I32, Tmp(final + 1)) == Got(IntV(FromBool(op == LOr)))
  {
    hide Match, TableOk, Steps, CodeAt, Keeps, ReadOperand, SlotIs;
    var fr1 := ShortcutArrives(k, t, env, c, op, test, value, final, q, fr, rest, mem);
    fr' := LogicalFinish(k, t, env, c, value, final, op == LOr, q, fr1, rest, mem);
    ArrivesThen(k, t, env, env, c, c, q + 3, q + 5, fr, rest, mem, 3, fr1, mem, 2, fr', mem);
  }

  /** From the end of the right operand on. */
  lemma RightSim(
    k: Link, t: Scopes<Symbol>, env: Env, c: Counters, value: int, final: int, b: bool,
    fr: Frame, rest: seq<Saved>, mem: map<Slot, MemCell>)
    returns (fr': Frame)
    requires Stands(k, t, env, fr, mem) && SlotIs(fr, c.temps + 1, I1, None)
    requires CodeAt(k.mod[fr.fn].code, fr.pc, LogicalExit(c, value, final)) && final > c.temps
    requires ReadOperand(fr, I1, Tmp(value)) == Got(BoolV(b))
    ensures Arrives(k, t, env, c, fr.pc + 5, fr, rest, mem, 4, fr', mem)
    ensures ReadOperand(fr', I32, Tmp(final + 1)) == Got(IntV(FromBool(b)))
  {
    hide Match, TableOk, Steps, CodeAt, Keeps, ReadOperand, SlotIs;
    var fr1 := RightArrives(k, t, env, c, value, final, b, fr, rest, mem);
    fr' := LogicalFinish(k, t, env, c, value, final, b, fr.pc, fr1, rest, mem);
    ArrivesThen(k, t, env, env, c, c, fr.pc + 3, fr.pc + 5, fr, rest, mem, 2, fr1, mem, 2, fr', mem);
  }

  lemma SlotKept(fr: Frame, fr': Frame, i: int, n: int, ty: Type, v: Option<Value>)
    requires SlotIs(fr, i, ty, v) && Keeps(fr, fr', n) && i <= n
    ensures SlotIs(fr', i, ty, v)
  {
  }

  // ----- `?:` -----

  lemma CondLies(
    code: seq<Instr>, pc: nat, c: Counters, q: Expr, a: Expr, b: Expr, x: ExprCode, y: ExprCode, z: ExprCode)
    returns (m: nat, e: nat, l: nat)
    requires CodeAt(code, pc, CondCode(c, q, a, b, x, y, z).code) && IsValue(a) && IsValue(b)
    ensures
      var xb := GenTruth(x.c, q, x.r);
      && CodeAt(code, pc, [Alloca(ResultSlot(c), I32)])
      && CodeAt(code, pc + 1, x.code + xb.code)
      && m == pc + 1 + |x.code| + |xb.code| && CodeAt(code, m, CondChoice(c, xb.r))
      && CodeAt(code, m + 2, y.code)
      && e == m + 2 + |y.code| && CodeAt(code, e, CondElse(c, OperandOf(a, y.r)))
      && CodeAt(code, e + 3, z.code)
      && l == e + 3 + |z.code| && CodeAt(code, l, CondExit(c, OperandOf(b, z.r), z.c.temps + 1))
      && l + 4 == pc + |CondCode(c, q, a, b, x, y, z).code|
      && CondCode(c, q, a, b, x, y, z).r == z.c.temps + 1
  {
    hide CodeAt, GenTruth, IsValue, GenToInt;
    ToIntIsFree(y.c, a, y.r);
    ToIntIsFree(z.c, b, z.r);
    var xb := GenTruth(x.c, q, x.r);
    m := pc + 1 + |x.code| + |xb.code|;
    e := m + 2 + |y.code|;
    l := e + 3 + |z.code|;
    var third, last := CondElse(c, OperandOf(a, y.r)), CondExit(c, OperandOf(b, z.r), z.c.temps + 1);
    var tail := third + (z.code + ([] + last));
    CodeAtSeven(code, pc, [Alloca(ResultSlot(c), I32)], x.code, xb.code, CondChoice(c, xb.r), y.code, [], tail);
    assert y.code + [] == y.code && [] + last == last;
    CodeAtAppend(code, e, third, z.code + last);
    CodeAtAppend(code, e + 3, z.code, last);
  }

  lemma ChoiceArrives(
    k: Link, t: Scopes<Symbol>, env: Env, c: Counters, c1: Counters, test: int, b: bool, o: Operand, e: nat,
    fr: Frame, rest: seq<Saved>, mem: map<Slot, MemCell>)
    returns (fr': Frame)
    requires Stands(k, t, env, fr, mem)
    requires CodeAt(k.mod[fr.fn].code, fr.pc, CondChoice(c, test))
    requires CodeAt(k.mod[fr.fn].code, e, CondElse(c, o))
    requires ReadOperand(fr, I1, Tmp(test)) == Got(BoolV(b))
    ensures fr' == fr.(pc := if b then fr.pc + 2 else e + 3)
    ensures Arrives(k, t, env, c1, fr'.pc, fr, rest, mem, 1, fr', mem)
  {
    hide Match, Steps, CodeAt;
    CodeAtLines(k.mod[fr.fn].code, fr.pc, CondChoice(c, test));
    CodeAtLines(k.mod[fr.fn].code, e, CondElse(c, o));
    var p := if b then fr.pc + 1 else e + 2;
    CondBrArrives(k, t, env, c1, test, b, CondTrue(c), CondFalse(c), p, fr, rest, mem);
    fr' := fr.(pc := p + 1);
  }

  /** The chosen value goes into the slot. */
  lemma ChosenArrives(
    k: Link, t: Scopes<Symbol>, env: Env, c: Counters, b: bool, o: Operand, w: Operand, v: int32, final: int, e: nat,
    l: nat,
    fr: Frame, rest: seq<Saved>, mem: map<Slot, MemCell>)
    returns (fr': Frame)
    requires Stands(k, t, env, fr, mem) && SlotIs(fr, c.temps + 1, I32, None)
    requires CodeAt(k.mod[fr.fn].code, e, CondElse(c, o))
    requires CodeAt(k.mod[fr.fn].code, l, CondExit(c, w, final))
    requires fr.pc == (if b then e else l)
    requires ReadOperand(fr, I32, if b then o else w) == Got(IntV(v))
    ensures Arrives(k, t, env, c, l + 3, fr, rest, mem, 2, fr', mem)
    ensures SlotIs(fr', c.temps + 1, I32, Some(IntV(v)))
  {
    hide Match, Steps, CodeAt;
    CodeAtLines(k.mod[fr.fn].code, e, CondElse(c, o));
    CodeAtLines(k.mod[fr.fn].code, l, CondExit(c, w, final));
    fr' := StoreBrArrives(k, t, env, c, I32, if b then o else w, IntV(v), c.temps + 1, CondEnd(c), l + 2, fr, rest,
                          mem);
  }

  lemma CondFinish(
    k: Link, t: Scopes<Symbol>, env: Env, c: Counters, w: Operand, v: int32, final: int, l: nat,
    fr: Frame, rest: seq<Saved>, mem: map<Slot, MemCell>)
    returns (fr': Frame)
    requires Stands(k, t, env, fr, mem) && SlotIs(fr, c.temps + 1, I32, Some(IntV(v))) && fr.pc == l + 3
    requires CodeAt(k.mod[fr.fn].code, l, CondExit(c, w, final)) && final > c.temps
    ensures Arrives(k, t, env, c, l + 4, fr, rest, mem, 1, fr', mem)
    ensures ReadOperand(fr', I32, Tmp(final)) == Got(IntV(v))
  {
    hide Match, Steps, CodeAt;
    CodeAtLines(k.mod[fr.fn].code, l, CondExit(c, w, final));
    fr' := SetTemp(fr, final, IntV(v));
    LoadTempArrives(k, t, env, c, final, I32, IntV(v), c.temps + 1, fr, rest, mem);
  }

  /** From the end of the chosen branch on. */
  lemma ChosenSim(
    k: Link, t: Scopes<Symbol>, env: Env, c: Counters, b: bool, o: Operand, w: Operand, v: int32, final: int, e: nat,
    l: nat,
    fr: Frame, rest: seq<Saved>, mem: map<Slot, MemCell>)
    returns (fr': Frame)
    requires Stands(k, t, env, fr, mem) && SlotIs(fr, c.temps + 1, I32, None) && final > c.temps
    requires CodeAt(k.mod[fr.fn].code, e, CondElse(c, o))
    requires CodeAt(k.mod[fr.fn].code, l, CondExit(c, w, final))
    requires fr.pc == (if b then e else l)
    requires ReadOperand(fr, I32, if b then o else w) == Got(IntV(v))
    ensures Arrives(k, t, env, c, l + 4, fr, rest, mem, 3, fr', mem)
    ensures ReadOperand(fr', I32, Tmp(final)) == Got(IntV(v))
  {
    hide Match, TableOk, Steps, CodeAt, Keeps, ReadOperand, SlotIs;
    var fr1 := ChosenArrives(k, t, env, c, b, o, w, v, final, e, l, fr, rest, mem);
    fr' := CondFinish(k, t, env, c, w, v, final, l, fr1, rest, mem);
    ArrivesThen(k, t, env, env, c, c, l + 3, l + 4, fr, rest, mem, 2, fr1, mem, 1, fr', mem);
  }

  /** The operands of a call, all read at the end. */
  ghost predicate ArgsSim(
    k: Link, fuel: nat, res: Results, t: Scopes<Symbol>, c: Counters, x: ArgsCode,
    fr: Frame, rest: seq<Saved>, mem: map<Slot, MemCell>, n: nat, fr': Frame, mem': map<Slot, MemCell>)
  {
    match res
    case Vals(vs, env) =>
      Arrives(k, t, env, c, fr.pc + |x.code|, fr, rest, mem, n, fr', mem') && ReadArgs(fr', x.args) == GotAll(vs)
    case WrongArgs(err) => Stopped(k.mod, fuel, Active(fr, rest, mem), Stop.Error(err), n)
    case ArgsOutOfFuel => Stopped(k.mod, fuel, Active(fr, rest, mem), Endless, n)
  }

  lemma FirstArg(fr: Frame, e: Expr, x: ExprCode, xs: ArgsCode, v: int32, vs: seq<int32>)
    requires IsValue(e) && Shows(e, x, fr, v) && ReadArgs(fr, xs.args) == GotAll(vs)
    ensures ReadArgs(fr, MoreArgs(e, x, xs).args) == GotAll([v] + vs)
  {
    hide IsValue, InFragment;
    ValueType(e);
    ValueShows(e, x, fr, v);
    assert MoreArgs(e, x, xs).args[1..] == xs.args;
  }

  lemma ValueShows(e: Expr, x: ExprCode, fr: Frame, v: int32)
    requires IsValue(e) && Shows(e, x, fr, v)
    ensures ReadOperand(fr, I32, OperandOf(e, x.r)) == Got(IntV(v))
  {
  }
}
