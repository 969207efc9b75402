/** The LLVM IR the generator prints, one datatype value per printed line, and
    a machine that runs it.  The machine is strict: it faults on a temporary
    that was never set or has another type, on a block entered by falling into
    its label, on a block that runs off its end and on an unknown label. */
module Ir {
  import opened Options
  import opened Int32
  import opened Scopes

  datatype Type = I1 | I32

  /** generate_unique_name's result, before it is formatted. */
  datatype UniqueName =
    | InFunction(fn: string, base: string, level: nat, uid: nat)
    | AtFileScope(base: string, uid: nat)

  /** Where a pointer operand points: `@name`, `%name`, `%name.addr`, `%t<n>.addr`. */
  datatype Slot =
    | Global(name: UniqueName)
    | Local(name: UniqueName)
    | ParamAddr(name: UniqueName)
    | TempAddr(temp: int)

  datatype Label = Label(prefix: string, id: nat)

  /** `%t<n>`, a literal, `true` or `false`, or an incoming parameter. */
  datatype Operand = Imm(n: int) | Tmp(t: int) | Flag(b: bool) | Incoming(param: string)

  datatype Opcode = AddI | SubI | MulI | SDivI | SRemI | AndI | OrI | XorI | ShlI | AShrI
  datatype Predicate = EqP | NeP | SltP | SleP | SgtP | SgeP

  datatype Arg = Arg(ty: Type, operand: Operand)

  datatype Instr =
    | LabelDef(l: Label)
    | Br(target: Label)
    | CondBr(test: int, ifTrue: Label, ifFalse: Label)
    | Alloca(slot: Slot, ty: Type)
    | Store(ty: Type, src: Operand, slot: Slot)
    | Load(dst: int, ty: Type, slot: Slot)
    | Arith(dst: int, op: Opcode, a: Operand, b: Operand)
    | Icmp(dst: int, pred: Predicate, a: Operand, b: Operand)
    | Zext(dst: int, from: int)
    | Sext(dst: int, from: int)
    | CallI(dst: int, callee: string, args: seq<Arg>)
    | Ret(result: Operand)

  datatype Routine = Routine(params: seq<string>, code: seq<Instr>)
  type Module = map<string, Routine>

  datatype Value = BoolV(b: bool) | IntV(n: int32)

  datatype MemCell = MemCell(ty: Type, content: Option<Value>)

  /** The first three can happen to a correct compilation of a bad program. */
  datatype Fault =
    | ArithmeticFault | UninitialisedRead | BadCallFault
    | IllTyped | UnsetTemp | UnknownSlot | BadControl

  datatype Frame = Frame(
    fn: string, pc: nat, temps: map<int, Value>, slots: map<Slot, MemCell>, incoming: map<string, int32>)

  /** A frame waiting for the callee's result. */
  datatype Saved = Saved(frame: Frame, dst: int)

  datatype State =
    | Active(top: Frame, rest: seq<Saved>, globals: map<Slot, MemCell>)
    | Halted(v: int32, globals: map<Slot, MemCell>)
    | Faulted(fault: Fault)

  function TypeOfValue(v: Value): Type { if v.BoolV? then I1 else I32 }

  datatype Read = Got(v: Value) | Bad(fault: Fault)

  function ReadOperand(fr: Frame, ty: Type, o: Operand): (r: Read)
    ensures r.Got? ==> TypeOfValue(r.v) == ty
  {
    match o
    case Imm(n) => if ty == I32 then Got(IntV(Wrap(n))) else Bad(IllTyped)
    case Flag(b) => if ty == I1 then Got(BoolV(b)) else Bad(IllTyped)
    case Tmp(t) =>
      if t !in fr.temps then Bad(UnsetTemp)
      else if TypeOfValue(fr.temps[t]) != ty then Bad(IllTyped)
      else Got(fr.temps[t])
    case Incoming(p) =>
      if p !in fr.incoming then Bad(UnsetTemp)
      else if ty != I32 then Bad(IllTyped)
      else Got(IntV(fr.incoming[p]))
  }

  datatype ReadAll = GotAll(vs: seq<int32>) | BadArg(fault: Fault)

  function ReadArgs(fr: Frame, args: seq<Arg>): (r: ReadAll)
    ensures r.GotAll? ==> |r.vs| == |args|
  {
    if args == [] then GotAll([])
    else
      match ReadOperand(fr, I32, args[0].operand)
      case Bad(f) => BadArg(f)
      case Got(v) =>
        if args[0].ty != I32 then BadArg(IllTyped)
        else
          match ReadArgs(fr, args[1..])
          case GotAll(vs) => GotAll([v.n] + vs)
          case bad => bad
  }

  function ReadSlot(fr: Frame, g: map<Slot, MemCell>, s: Slot): Option<MemCell> {
    if s.Global? then (if s in g then Some(g[s]) else None)
    else if s in fr.slots then Some(fr.slots[s]) else None
  }

  function Opcode32(op: Opcode, a: int32, b: int32): Option<int32> {
    var x: int, y: int := a, b;
    match op
    case AddI => Some(Wrap(x + y))
    case SubI => Some(Wrap(x - y))
    case MulI => Some(Wrap(x * y))
    case SDivI => if DivisionDefined(a, b) then Some(Wrap(Quotient(a, b))) else None
    case SRemI => if DivisionDefined(a, b) then Some(Wrap(Remainder(a, b))) else None
    case AndI => Some(Bitwise(AndGate, a, b))
    case OrI => Some(Bitwise(OrGate, a, b))
    case XorI => Some(Bitwise(XorGate, a, b))
    case ShlI => if ShiftDefined(b) then Some(Wrap(x * Pow2(b))) else None
    case AShrI => if ShiftDefined(b) then Some(Wrap(x / Pow2(b))) else None
  }

  function Compare(p: Predicate, a: int32, b: int32): bool {
    match p
    case EqP => a == b
    case NeP => a != b
    case SltP => a < b
    case SleP => a <= b
    case SgtP => a > b
    case SgeP => a >= b
  }

  /** The index of the first definition of a label from i on, or |code|. */
  function FindLabel(code: seq<Instr>, l: Label, i: nat): (r: nat)
    requires i <= |code|
    ensures i <= r <= |code|
    ensures r < |code| ==> code[r] == LabelDef(l)
    ensures forall j :: i <= j < r ==> code[j] != LabelDef(l)
    decreases |code| - i
  {
    if i == |code| || code[i] == LabelDef(l) then i else FindLabel(code, l, i + 1)
  }

  function Jump(code: seq<Instr>, l: Label, fr: Frame, rest: seq<Saved>, g: map<Slot, MemCell>): State {
    var i := FindLabel(code, l, 0);
    if i == |code| then Faulted(BadControl) else Active(fr.(pc := i + 1), rest, g)
  }

  function Next(fr: Frame): Frame { fr.(pc := fr.pc + 1) }

  function SetTemp(fr: Frame, t: int, v: Value): Frame {
    fr.(pc := fr.pc + 1, temps := fr.temps[t := v])
  }

  function Entry(m: Module, f: string, vs: seq<int32>): Frame
    requires f in m && |m[f].params| == |vs|
  {
    Frame(f, 0, map[], map[], Zip(m[f].params, vs))
  }

  function ReturnTo(rest: seq<Saved>, v: int32, g: map<Slot, MemCell>): State {
    if rest == [] then Halted(v, g)
    else Active(SetTemp(rest[0].frame, rest[0].dst, IntV(v)), rest[1..], g)
  }

  function Execute(
    m: Module, code: seq<Instr>, instr: Instr, fr: Frame, rest: seq<Saved>, g: map<Slot, MemCell>): State
  {
    match instr
    case LabelDef(_) => Faulted(BadControl)
    case Br(l) => Jump(code, l, fr, rest, g)
    case CondBr(t, l1, l2) =>
      (match ReadOperand(fr, I1, Tmp(t))
       case Bad(f) => Faulted(f)
       case Got(v) => Jump(code, if v.b then l1 else l2, fr, rest, g))
    case Alloca(s, ty) =>
      if s.Global? then Faulted(UnknownSlot)
      else Active(Next(fr.(slots := fr.slots[s := MemCell(ty, None)])), rest, g)
    case Store(ty, src, s) =>
      (match ReadOperand(fr, ty, src)
       case Bad(f) => Faulted(f)
       case Got(v) =>
         var cell := ReadSlot(fr, g, s);
         if cell.None? then Faulted(UnknownSlot)
         else if cell.value.ty != ty then Faulted(IllTyped)
         else if s.Global? then Active(Next(fr), rest, g[s := MemCell(ty, Some(v))])
         else Active(Next(fr.(slots := fr.slots[s := MemCell(ty, Some(v))])), rest, g))
    case Load(t, ty, s) =>
      var cell := ReadSlot(fr, g, s);
      if cell.None? then Faulted(UnknownSlot)
      else if cell.value.ty != ty then Faulted(IllTyped)
      else if cell.value.content.None? then Faulted(UninitialisedRead)
      else Active(SetTemp(fr, t, cell.value.content.value), rest, g)
    case Arith(t, op, a, b) =>
      (match ReadOperand(fr, I32, a)
       case Bad(f) => Faulted(f)
       case Got(x) =>
         match ReadOperand(fr, I32, b)
         case Bad(f) => Faulted(f)
         case Got(y) =>
           match Opcode32(op, x.n, y.n)
           case None => Faulted(ArithmeticFault)
           case Some(v) => Active(SetTemp(fr, t, IntV(v)), rest, g))
    case Icmp(t, p, a, b) =>
      (match ReadOperand(fr, I32, a)
       case Bad(f) => Faulted(f)
       case Got(x) =>
         match ReadOperand(fr, I32, b)
         case Bad(f) => Faulted(f)
         case Got(y) => Active(SetTemp(fr, t, BoolV(Compare(p, x.n, y.n))), rest, g))
    case Zext(t, from) =>
      (match ReadOperand(fr, I1, Tmp(from))
       case Bad(f) => Faulted(f)
       case Got(v) => Active(SetTemp(fr, t, IntV(if v.b then 1 else 0)), rest, g))
    case Sext(t, from) =>
      (match ReadOperand(fr, I1, Tmp(from))
       case Bad(f) => Faulted(f)
       case Got(v) => Active(SetTemp(fr, t, IntV(if v.b then -1 else 0)), rest, g))
    case CallI(t, f, args) =>
      (match ReadArgs(fr, args)
       case BadArg(b) => Faulted(b)
       case GotAll(vs) =>
         if f !in m || |m[f].params| != |vs| then Faulted(BadCallFault)
         else Active(Entry(m, f, vs), [Saved(fr, t)] + rest, g))
    case Ret(o) =>
      match ReadOperand(fr, I32, o)
      case Bad(f) => Faulted(f)
      case Got(v) => ReturnTo(rest, v.n, g)
  }

  function Step(m: Module, s: State): State {
    if !s.Active? then s
    else if s.top.fn !in m || s.top.pc >= |m[s.top.fn].code| then Faulted(BadControl)
    else Execute(m, m[s.top.fn].code, m[s.top.fn].code[s.top.pc], s.top, s.rest, s.globals)
  }

  function Steps(m: Module, s: State, n: nat): State
    decreases n
  {
    if n == 0 then s else Steps(m, Step(m, s), n - 1)
  }

  lemma {:induction false} StepsAdd(m: Module, s: State, i: nat, j: nat)
    ensures Steps(m, s, i + j) == Steps(m, Steps(m, s, i), j)
    decreases i
  {
    if i > 0 {
      StepsAdd(m, Step(m, s), i - 1, j);
    }
  }

  /** A machine that has stopped stays as it is. */
  lemma {:induction false} StoppedStays(m: Module, s: State, n: nat)
    requires !s.Active?
    ensures Steps(m, s, n) == s
    decreases n
  {
    if n > 0 {
      StoppedStays(m, s, n - 1);
    }
  }

  /** Running m steps when fewer already stop changes nothing. */
  lemma StopIsUnique(m: Module, s: State, i: nat, j: nat)
    requires !Steps(m, s, i).Active?
    ensures j >= i ==> Steps(m, s, j) == Steps(m, s, i)
    ensures !Steps(m, s, j).Active? ==> Steps(m, s, j) == Steps(m, s, i)
  {
    if i <= j {
      StepsAdd(m, s, i, j - i);
      StoppedStays(m, Steps(m, s, i), j - i);
    } else if !Steps(m, s, j).Active? {
      StepsAdd(m, s, j, i - j);
      StoppedStays(m, Steps(m, s, j), i - j);
    }
  }
}
