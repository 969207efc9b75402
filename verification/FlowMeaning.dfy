/** What the vocabulary of Dominance and References means to the machine: a line
    whose uses are there does not fault for one that is missing, a step makes
    what the line sets, and control goes where a path may go. */
module FlowMeaning {
  import opened Options
  import opened Ir
  import opened Definitions
  import opened Names
  import opened Dominance
  import opened References

  /** The frame has it, at that type. */
  predicate Holds(fr: Frame, x: Typed) {
    match x
    case TypedTemp(t, ty) => t in fr.temps && TypeOfValue(fr.temps[t]) == ty
    case TypedSlot(s, ty) => s in fr.slots && fr.slots[s].ty == ty
  }

  /** The machine has the outside names. */
  ghost predicate Provides(m: Module, fr: Frame, g: map<Slot, MemCell>, o: Outside) {
    && (forall u :: PrintLocal(SlotName(Global(u))) in o.vars ==> Global(u) in g && g[Global(u)].ty == I32)
    && (forall f, n :: (f, n) in o.fns ==> f in m && |m[f].params| == n)
    && o.params <= fr.incoming.Keys
  }

  /** What is used of the frame and of the outside is there, and branches go to
      labels of the code. */
  ghost predicate LineReady(
    m: Module, code: seq<Instr>, i: Instr, fr: Frame, g: map<Slot, MemCell>, o: Outside)
  {
    && (forall x :: x in Uses(i) ==> Holds(fr, x))
    && LineTyped(i) && LineRefers(i, o) && Provides(m, fr, g, o)
    && (forall l :: BranchesTo(i, l) ==> FindLabel(code, l, 0) < |code|)
    && !i.LabelDef? && (i.Alloca? ==> !i.slot.Global?)
  }

  lemma OperandReads(fr: Frame, o: Operand, ty: Type)
    requires forall x :: x in TempsOf(o, ty) ==> Holds(fr, x)
    requires LiteralFits(o, ty) && OperandParams(o) <= fr.incoming.Keys
    ensures ReadOperand(fr, ty, o).Got?
  {
    match o
    case Tmp(t) => assert TypedTemp(t, ty) in TempsOf(o, ty);
    case Incoming(p) => assert p in OperandParams(o);
    case _ =>
  }

  lemma {:induction false} ArgsRead(fr: Frame, args: seq<Arg>)
    requires forall x :: x in ArgTemps(args) ==> Holds(fr, x)
    requires ArgsTyped(args) && ArgParams(args) <= fr.incoming.Keys
    ensures ReadArgs(fr, args).GotAll? && |ReadArgs(fr, args).vs| == |args|
    decreases args
  {
    hide ReadOperand, Holds;
    if args != [] {
      assert args[0].ty == I32;
      OperandReads(fr, args[0].operand, I32);
      ArgsRead(fr, args[1..]);
    }
  }

  /** A line whose uses are there fails for arithmetic or an uninitialised
      variable alone. */
  lemma ReadyLineRuns(
    m: Module, code: seq<Instr>, i: Instr, fr: Frame, rest: seq<Saved>, g: map<Slot, MemCell>, o: Outside)
    requires LineReady(m, code, i, fr, g, o)
    ensures
      var s := Execute(m, code, i, fr, rest, g);
      s.Faulted? ==> s.fault in {ArithmeticFault, UninitialisedRead}
  {
    hide ReadOperand, Opcode32, PrintLocal;
    match i
    case CondBr(t, l, l') =>
      OperandReads(fr, Tmp(t), I1);
      assert BranchesTo(i, l) && BranchesTo(i, l');
    case Br(l) => assert BranchesTo(i, l);
    case Store(ty, src, s) =>
      OperandReads(fr, src, ty);
      SlotThere(fr, g, i, s, ty);
    case Load(_, ty, s) => SlotThere(fr, g, i, s, ty);
    case Arith(_, _, a, b) =>
      OperandReads(fr, a, I32);
      OperandReads(fr, b, I32);
    case Icmp(_, _, a, b) =>
      OperandReads(fr, a, I32);
      OperandReads(fr, b, I32);
    case Zext(_, t) => OperandReads(fr, Tmp(t), I1);
    case Sext(_, t) => OperandReads(fr, Tmp(t), I1);
    case CallI(_, _, args) => ArgsRead(fr, args);
    case Ret(v) => OperandReads(fr, v, I32);
    case _ =>
  }

  lemma SlotThere(fr: Frame, g: map<Slot, MemCell>, i: Instr, s: Slot, ty: Type)
    requires (forall x :: x in Uses(i) ==> Holds(fr, x)) && OwnSlot(s, ty) <= Uses(i)
    requires FileSlotFits(s, ty) && (s.Global? ==> s in g && g[s].ty == I32)
    ensures ReadSlot(fr, g, s).Some? && ReadSlot(fr, g, s).value.ty == ty
  {
    if !s.Global? {
      assert TypedSlot(s, ty) in OwnSlot(s, ty);
    }
  }

  /** Cells hold values of their types. */
  predicate CellFits(c: MemCell) { c.content.Some? ==> TypeOfValue(c.content.value) == c.ty }

  ghost predicate CellsFit(fr: Frame, g: map<Slot, MemCell>) {
    && (forall s :: s in fr.slots ==> CellFits(fr.slots[s]))
    && (forall s :: s in g ==> CellFits(g[s]))
  }

  /** A step inside a function makes what its line sets, keeps what was there
      before but for what has the same name, and keeps cells well typed. */
  lemma StepSets(
    m: Module, code: seq<Instr>, i: Instr, fr: Frame, rest: seq<Saved>, g: map<Slot, MemCell>, x: Typed)
    requires CellsFit(fr, g) && !i.CallI? && !i.Ret? && Execute(m, code, i, fr, rest, g).Active?
    ensures
      var s := Execute(m, code, i, fr, rest, g);
      && s.rest == rest && s.top.fn == fr.fn && s.top.incoming == fr.incoming && CellsFit(s.top, s.globals)
      && (x in Sets(i) ==> Holds(s.top, x))
      && (Holds(fr, x) && Defines(i) != Some(Untyped(x)) ==> Holds(s.top, x))
      && s.globals.Keys == g.Keys
  {
    hide ReadOperand, Opcode32, FindLabel;
    OperandsTyped(fr);
  }

  lemma OperandsTyped(fr: Frame)
    ensures forall ty, o :: ReadOperand(fr, ty, o).Got? ==> TypeOfValue(ReadOperand(fr, ty, o).v) == ty
  {
  }

  /** A step inside a function goes to the next line of a path, or over a label
      line to the one behind it. */
  lemma StepFollows(m: Module, code: seq<Instr>, fr: Frame, rest: seq<Saved>, g: map<Slot, MemCell>)
    requires fr.pc < |code| && !code[fr.pc].CallI? && !code[fr.pc].Ret?
    requires Execute(m, code, code[fr.pc], fr, rest, g).Active?
    ensures
      var pc := Execute(m, code, code[fr.pc], fr, rest, g).top.pc;
      || Follows(code, fr.pc, pc)
      || (pc > 0 && Follows(code, fr.pc, pc - 1) && code[pc - 1].LabelDef? && Follows(code, pc - 1, pc))
  {
    hide ReadOperand, Opcode32, ReadSlot, Compare, Jump, FindLabel;
    match code[fr.pc]
    case Br(l) => JumpLands(code, l, fr, rest, g);
    case CondBr(_, l, l') =>
      JumpLands(code, l, fr, rest, g);
      JumpLands(code, l', fr, rest, g);
    case _ =>
  }

  lemma JumpLands(code: seq<Instr>, l: Label, fr: Frame, rest: seq<Saved>, g: map<Slot, MemCell>)
    ensures
      var s := Jump(code, l, fr, rest, g);
      s.Active? ==> s.top.pc == FindLabel(code, l, 0) + 1 <= |code| && code[s.top.pc - 1] == LabelDef(l)
  {
  }
}
