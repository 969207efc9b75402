/** The printed code passes the check of Dominance, so every temporary and every
    slot is set before it is used on every path. */
module Availability {
  import opened Options
  import opened Ast
  import opened Scopes
  import opened Ir
  import opened Codegen
  import opened Linking
  import opened Blocks
  import opened Types
  import opened Dominance

  /** All is in order, and every label met so far has one of the first n
      numbers. */
  predicate Starts(s: Flow, n: nat) {
    && s.ok && Grounded(s)
    && (forall l :: l in s.at ==> l.id <= n) && (forall l :: l in s.passed ==> l.id <= n)
  }

  /** Nothing was lost on the way from s to s', and only labels numbered after n
      were met. */
  predicate Adds(s: Flow, s': Flow, n: nat) {
    && s.avail <= s'.avail && s.seen <= s'.seen
    && (forall l :: l in s.at ==> l in s'.at && s'.at[l] == s.at[l])
    && (forall l :: l in s'.at ==> l in s.at || l.id > n)
    && s.passed <= s'.passed
    && (forall l :: l in s'.passed ==> l in s.passed || l.id > n)
  }

  /** Code whose labels have the numbers after n, up to n', passes the check and
      keeps what was set. */
  predicate Flows(s: Flow, code: seq<Instr>, n: nat, n': nat) {
    n <= n' && Adds(s, Pass(code, s), n) && Starts(Pass(code, s), n')
  }

  /** The value returned for e is a literal or set, with the type. */
  predicate Ready(e: Expr, r: int, ty: Type, s: Flow) { e.Number? || TypedTemp(r, ty) in s.avail }

  /** get_expression_type is right about e. */
  predicate Predicted(e: Expr) { TypeOf(e) == if IsComparison(e) then I1 else I32 }

  /** The code of an expression passes, and its value is ready behind it with the
      type that is predicted. */
  predicate ExprFlows(s: Flow, c: Counters, e: Expr, x: ExprCode) {
    Predicted(e) && Flows(s, x.code, c.labels, x.c.labels) && Ready(e, x.r, TypeOf(e), Pass(x.code, s))
  }

  /** The same behind a cast to int. */
  predicate IntFlows(s: Flow, c: Counters, e: Expr, x: ExprCode) {
    Flows(s, x.code, c.labels, x.c.labels) && Ready(e, x.r, I32, Pass(x.code, s))
  }

  /** The slots of the local variables in scope are set. */
  ghost predicate Visible(t: Scopes<Symbol>, a: set<Typed>) {
    forall x :: Find(t, x).Some? ==> OwnSlot(SlotOf(Find(t, x).value), I32) <= a
  }

  lemma VisibleMore(t: Scopes<Symbol>, a: set<Typed>, b: set<Typed>)
    requires Visible(t, a) && a <= b
    ensures Visible(t, b)
  {
  }

  lemma VisibleAt(t: Scopes<Symbol>, a: set<Typed>, x: string)
    requires Visible(t, a) && Find(t, x).Some?
    ensures OwnSlot(SlotOf(Find(t, x).value), I32) <= a
  {
  }

  lemma VisiblePushed(t: Scopes<Symbol>, a: set<Typed>)
    requires Visible(t, a)
    ensures Visible(Push(t), a)
  {
    forall x
      ensures Find(Push(t), x) == Find(t, x)
    {
    }
  }

  lemma VisibleBound(t: Scopes<Symbol>, a: set<Typed>, x: string, sym: Symbol)
    requires Visible(t, a) && OwnSlot(SlotOf(sym), I32) <= a
    ensures Visible(Bind(t, x, sym), a)
  {
    forall y
      ensures Find(Bind(t, x, sym), y) == if y == x then Some(sym) else Find(t, y)
    {
    }
  }

  lemma AddsThen(s: Flow, s1: Flow, s2: Flow, n: nat, n1: nat)
    requires Adds(s, s1, n) && Adds(s1, s2, n1) && n <= n1
    ensures Adds(s, s2, n)
  {
  }

  lemma FlowsThen(s: Flow, a: seq<Instr>, b: seq<Instr>, n: nat, n1: nat, n2: nat)
    requires Flows(s, a, n, n1) && Flows(Pass(a, s), b, n1, n2)
    ensures Flows(s, a + b, n, n2) && Pass(a + b, s) == Pass(b, Pass(a, s))
  {
    hide Pass, Adds;
    PassAppend(a, b, s);
    AddsThen(s, Pass(a, s), Pass(b, Pass(a, s)), n, n1);
  }

  lemma FlowsMeans(s: Flow, code: seq<Instr>, n: nat, n': nat)
    requires Flows(s, code, n, n')
    ensures Starts(Pass(code, s), n') && s.avail <= Pass(code, s).avail && n <= n'
    ensures Adds(s, Pass(code, s), n)
  {
  }

  lemma FlowsIntro(s: Flow, code: seq<Instr>, n: nat, n': nat)
    requires n <= n' && Adds(s, Pass(code, s), n) && Starts(Pass(code, s), n')
    ensures Flows(s, code, n, n')
  {
  }

  lemma NoFlow(s: Flow, n: nat)
    requires Starts(s, n)
    ensures Flows(s, [], n, n) && Pass([], s) == s
  {
  }

  /** A line that neither branches nor is a label. */
  lemma PlainFlows(s: Flow, i: Instr, n: nat)
    requires Starts(s, n) && Uses(i) <= s.avail && LineTyped(i) && !IsTerminator(i) && !i.LabelDef?
    ensures Flows(s, [i], n, n) && Starts(Pass([i], s), n) && Pass([i], s).avail == s.avail + Sets(i)
  {
    PassOne(i, s);
  }

  lemma ReturnFlows(s: Flow, o: Operand, n: nat)
    requires Starts(s, n) && TempsOf(o, I32) <= s.avail && LiteralFits(o, I32)
    ensures Flows(s, [Ret(o)], n, n)
  {
    PassOne(Ret(o), s);
  }

  // ----- Expressions -----

  lemma OperandReady(e: Expr, r: int, s: Flow)
    requires Ready(e, r, I32, s)
    ensures TempsOf(OperandOf(e, r), I32) <= s.avail && LiteralFits(OperandOf(e, r), I32)
  {
  }

  lemma ToIntFlows(s: Flow, c: Counters, e: Expr, r: int)
    requires Starts(s, c.labels) && Predicted(e) && Ready(e, r, TypeOf(e), s)
    ensures IntFlows(s, c, e, GenToInt(c, e, r))
  {
    hide Pass, Starts, Flows;
    NoFlow(s, c.labels);
    if !e.Number? && TypeOf(e) == I1 {
      PlainFlows(s, Sext(c.temps + 1, r), c.labels);
    }
  }

  lemma PromoteFlows(s: Flow, c: Counters, e: Expr, r: int)
    requires Starts(s, c.labels) && Predicted(e) && Ready(e, r, TypeOf(e), s)
    ensures IntFlows(s, c, e, GenPromote(c, e, r))
  {
    hide Pass, Starts, Flows;
    ToIntFlows(s, c, e, r);
    if IsComparison(e) {
      PlainFlows(s, Zext(c.temps + 1, r), c.labels);
    }
  }

  lemma TruthFlows(s: Flow, c: Counters, e: Expr, r: int)
    requires Starts(s, c.labels) && Predicted(e) && Ready(e, r, TypeOf(e), s)
    ensures
      var x := GenTruth(c, e, r);
      Flows(s, x.code, c.labels, x.c.labels) && TypedTemp(x.r, I1) in Pass(x.code, s).avail
  {
    hide Pass, Starts, Flows;
    NoFlow(s, c.labels);
    if !IsComparison(e) {
      OperandReady(e, r, s);
      PlainFlows(s, Icmp(c.temps + 1, NeP, OperandOf(e, r), Imm(0)), c.labels);
    }
  }

  /** Two values and then the line that combines them. */
  lemma OperatorFlows(s: Flow, c: Counters, op: BinaryOp, l: Expr, r: Expr, a: ExprCode, b: ExprCode)
    requires ExprFlows(s, c, l, a) && ExprFlows(Pass(a.code, s), a.c, r, b)
    ensures
      var x := OperatorCode(op, l, r, a, b);
      var ty := if IsComparisonOp(op) then I1 else I32;
      Flows(s, x.code, c.labels, x.c.labels) && TypedTemp(x.r, ty) in Pass(x.code, s).avail
  {
    hide Pass, GenPromote, Starts, Flows, Adds;
    var s1 := Pass(a.code, s);
    var s2 := Pass(b.code, s1);
    var c1 := b.c.(temps := b.c.temps + 1);
    var px := GenPromote(c1, l, a.r);
    var s3 := Pass(px.code, s2);
    var py := GenPromote(px.c, r, b.r);
    var s4 := Pass(py.code, s3);
    var last := OperatorInstr(op, c1.temps, OperandOf(l, px.r), OperandOf(r, py.r));
    FlowsMeans(s, a.code, c.labels, a.c.labels);
    FlowsMeans(s1, b.code, a.c.labels, b.c.labels);
    PromoteFlows(s2, c1, l, a.r);
    FlowsMeans(s2, px.code, c1.labels, px.c.labels);
    PromoteFlows(s3, px.c, r, b.r);
    FlowsMeans(s3, py.code, px.c.labels, py.c.labels);
    OperandReady(l, px.r, s4);
    OperandReady(r, py.r, s4);
    PlainFlows(s4, last, py.c.labels);
    FlowsThen(s3, py.code, [last], px.c.labels, py.c.labels, py.c.labels);
    FlowsThen(s2, px.code, py.code + [last], c1.labels, px.c.labels, py.c.labels);
    FlowsThen(s1, b.code, px.code + (py.code + [last]), a.c.labels, b.c.labels, py.c.labels);
    FlowsThen(s, a.code, b.code + (px.code + (py.code + [last])), c.labels, a.c.labels, py.c.labels);
  }

  lemma AssignFlows(s: Flow, c: Counters, sym: Symbol, e: Expr, v: ExprCode)
    requires ExprFlows(s, c, e, v) && OwnSlot(SlotOf(sym), I32) <= s.avail
    ensures
      var x := AssignCode(Some(sym), e, v);
      Flows(s, x.code, c.labels, x.c.labels) && Ready(e, x.r, I32, Pass(x.code, s))
  {
    hide Pass, GenToInt, Starts, Flows, Adds, OwnSlot;
    var s1 := Pass(v.code, s);
    var w := GenToInt(v.c, e, v.r);
    var s2 := Pass(w.code, s1);
    var store := Store(I32, OperandOf(e, w.r), SlotOf(sym));
    FlowsMeans(s, v.code, c.labels, v.c.labels);
    ToIntFlows(s1, v.c, e, v.r);
    FlowsMeans(s1, w.code, v.c.labels, w.c.labels);
    OperandReady(e, w.r, s2);
    PlainFlows(s2, store, w.c.labels);
    FlowsThen(s1, w.code, [store], v.c.labels, w.c.labels, w.c.labels);
    FlowsThen(s, v.code, w.code + [store], c.labels, v.c.labels, w.c.labels);
  }

  lemma UnaryFlows(s: Flow, c: Counters, op: UnaryOp, e: Expr, v: ExprCode)
    requires ExprFlows(s, c, e, v) && !IsComparison(e) && op != Not && !IsStep(op)
    ensures
      var x := UnaryCode(op, e, v);
      Flows(s, x.code, c.labels, x.c.labels) && TypedTemp(x.r, I32) in Pass(x.code, s).avail
  {
    hide Pass, Starts, Flows, Adds;
    var s1 := Pass(v.code, s);
    var i := UnaryInstr(op, v.c.temps + 1, OperandOf(e, v.r));
    FlowsMeans(s, v.code, c.labels, v.c.labels);
    OperandReady(e, v.r, s1);
    PlainFlows(s1, i, v.c.labels);
    FlowsThen(s, v.code, [i], c.labels, v.c.labels, v.c.labels);
  }

  lemma StepFlows(s: Flow, c: Counters, op: UnaryOp, sym: Symbol)
    requires Starts(s, c.labels) && OwnSlot(SlotOf(sym), I32) <= s.avail
    ensures
      var x := StepCode(c, op, Some(sym));
      Flows(s, x.code, c.labels, x.c.labels) && TypedTemp(x.r, I32) in Pass(x.code, s).avail
  {
    hide Pass, Starts, Flows, Adds, OwnSlot;
    var n, slot := c.labels, SlotOf(sym);
    var first, third := Load(c.temps + 1, I32, slot), Store(I32, Tmp(c.temps + 2), slot);
    var second :=
      Arith(c.temps + 2, if op == PreInc || op == PostInc then AddI else SubI, Tmp(c.temps + 1), Imm(1));
    var s1 := Pass([first], s);
    var s2 := Pass([second], s1);
    PlainFlows(s, first, n);
    PlainFlows(s1, second, n);
    PlainFlows(s2, third, n);
    FlowsThen(s1, [second], [third], n, n, n);
    FlowsThen(s, [first], [second] + [third], n, n, n);
    assert [first] + ([second] + [third]) == [first, second, third];
  }

  lemma LoadFlows(s: Flow, c: Counters, sym: Symbol)
    requires Starts(s, c.labels) && OwnSlot(SlotOf(sym), I32) <= s.avail
    ensures
      var x := LoadCode(c, Some(sym));
      Flows(s, x.code, c.labels, x.c.labels) && TypedTemp(x.r, I32) in Pass(x.code, s).avail
  {
    hide Pass, Starts, Flows, OwnSlot;
    PlainFlows(s, Load(c.temps + 1, I32, SlotOf(sym)), c.labels);
  }

  lemma CallFlows(s: Flow, c: Counters, f: string, a: ArgsCode)
    requires Flows(s, a.code, c.labels, a.c.labels) && ArgTemps(a.args) <= Pass(a.code, s).avail
    requires ArgsTyped(a.args)
    ensures
      var x := CallCode(f, a);
      Flows(s, x.code, c.labels, x.c.labels) && TypedTemp(x.r, I32) in Pass(x.code, s).avail
  {
    hide Pass, Starts, Flows, ArgTemps, Adds;
    var n, i := a.c.labels, CallI(a.c.temps + 1, f, a.args);
    FlowsMeans(s, a.code, c.labels, n);
    PlainFlows(Pass(a.code, s), i, n);
    FlowsThen(s, a.code, [i], c.labels, n, n);
  }

  // ----- Branches inside expressions -----

  lemma PassThree(i: Instr, j: Instr, k: Instr, rest: seq<Instr>, s: Flow)
    ensures Pass([i, j, k] + rest, s) == Pass(rest, Through(k, Through(j, Through(i, s))))
  {
    hide Through;
    assert [i, j, k] + rest == [i, j] + ([k] + rest);
    PassAppend([i, j], [k] + rest, s);
    PassTwo(i, j, s);
    PassAppend([k], rest, Through(j, Through(i, s)));
    PassOne(k, Through(j, Through(i, s)));
  }

  /** A label that was not met yet. */
  predicate New(s: Flow, l: Label) { l !in s.at && l !in s.passed }

  /** The slot for the value of a branching expression. */
  function WithSlot(s: Flow, slot: Slot, ty: Type): Flow {
    s.(avail := s.avail + {TypedSlot(slot, ty)}, seen := s.seen + {TypedSlot(slot, ty)})
  }

  lemma AllocaPass(s: Flow, slot: Slot, ty: Type)
    requires s.ok
    ensures Pass([Alloca(slot, ty)], s) == WithSlot(s, slot, ty)
  {
    PassOne(Alloca(slot, ty), s);
  }

  lemma WithSlotAdds(s: Flow, slot: Slot, ty: Type, n: nat)
    requires Starts(s, n)
    ensures Starts(WithSlot(s, slot, ty), n) && Adds(s, WithSlot(s, slot, ty), n)
  {
  }

  /** The state in which the right operand of `&&` or `||` is generated. */
  function AfterShortcut(s: Flow, c: Counters): Flow {
    s.(at := s.at[LogicalLeft(c) := s.avail][LogicalRight(c) := s.avail][LogicalEnd(c) := s.avail],
       passed := s.passed + {LogicalLeft(c), LogicalRight(c)})
  }

  /** The left block and the start of the right one. */
  lemma ShortcutPass(s: Flow, c: Counters, op: BinaryOp, test: int)
    requires s.ok && TypedTemp(test, I1) in s.avail && TypedSlot(ResultSlot(c), I1) in s.avail
    requires New(s, LogicalLeft(c)) && New(s, LogicalRight(c)) && New(s, LogicalEnd(c))
    ensures Pass(LogicalShortcut(c, op, test), s) == AfterShortcut(s, c)
  {
    var l, r, e := LogicalLeft(c), LogicalRight(c), LogicalEnd(c);
    var i := if op == LAnd then CondBr(test, r, l) else CondBr(test, l, r);
    var store := Store(I1, Flag(op == LOr), ResultSlot(c));
    var s1 := s.(at := s.at[l := s.avail][r := s.avail]);
    var s2 := s1.(passed := s.passed + {l});
    assert s.at[r := s.avail][l := s.avail] == s1.at;
    assert Through(i, s) == s1;
    assert s1.at[l := s.avail] == s1.at;
    assert Through(LabelDef(l), s1) == s2 && Through(store, s2) == s2;
    var s3 := s2.(at := s2.at[e := s.avail]);
    assert Through(Br(e), s2) == s3 && s3.at[r := s.avail] == s3.at;
    PassThree(i, LabelDef(l), store, [Br(e), LabelDef(r)], s);
    PassTwo(Br(e), LabelDef(r), s2);
    assert LogicalShortcut(c, op, test) == [i, LabelDef(l), store] + [Br(e), LabelDef(r)];
  }

  lemma LogicalExitPass(s: Flow, c: Counters, value: int, final: int)
    requires s.ok && TypedTemp(value, I1) in s.avail
    requires LogicalEnd(c) in s.at && s.at[LogicalEnd(c)] <= s.avail && LogicalEnd(c) !in s.passed
    requires TypedSlot(ResultSlot(c), I1) in s.at[LogicalEnd(c)]
    ensures
      var more := {TypedTemp(final, I1), TypedTemp(final + 1, I32)};
      Pass(LogicalExit(c, value, final), s)
      == s.(avail := s.at[LogicalEnd(c)] + more, seen := s.seen + more, passed := s.passed + {LogicalEnd(c)})
  {
    var e := LogicalEnd(c);
    var store := Store(I1, Tmp(value), ResultSlot(c));
    var load, zext := Load(final, I1, ResultSlot(c)), Zext(final + 1, final);
    assert s.at[e] * s.avail == s.at[e] && s.at[e := s.at[e]] == s.at;
    assert Through(store, s) == s && Through(Br(e), s) == s;
    var s1 := s.(avail := s.at[e], passed := s.passed + {e});
    assert Through(LabelDef(e), s) == s1;
    PassThree(store, Br(e), LabelDef(e), [load, zext], s);
    PassTwo(load, zext, s1);
    assert LogicalExit(c, value, final) == [store, Br(e), LabelDef(e)] + [load, zext];
    var one, two := {TypedTemp(final, I1)}, {TypedTemp(final + 1, I32)};
    assert s1.avail + one + two == s1.avail + (one + two) && s1.seen + one + two == s1.seen + (one + two);
    assert one + two == {TypedTemp(final, I1), TypedTemp(final + 1, I32)};
  }

  /** The labels that a node reserves are new behind code with later ones. */
  lemma StillNew(s: Flow, s': Flow, l: Label, n: nat)
    requires Adds(s, s', n) && New(s, l) && l.id <= n
    ensures New(s', l)
  {
  }

  lemma Reserved(s: Flow, l: Label, n: nat)
    requires Starts(s, n) && l.id > n
    ensures New(s, l)
  {
  }

  lemma MoreLabels(s: Flow, n: nat, n': nat)
    requires Starts(s, n) && n <= n'
    ensures Starts(s, n')
  {
  }

  /** The slot, the first operand and its test. */
  lemma TestedFlows(s: Flow, c: Counters, ty: Type, e: Expr, a: ExprCode)
    requires Starts(s, c.labels) && ExprFlows(WithSlot(s, ResultSlot(c), ty), Reserve(c), e, a)
    ensures
      var x := GenTruth(a.c, e, a.r);
      var s' := Pass(a.code + x.code, WithSlot(s, ResultSlot(c), ty));
      && Adds(s, s', c.labels) && Adds(WithSlot(s, ResultSlot(c), ty), s', c.labels + 3) && Starts(s', x.c.labels)
      && TypedTemp(x.r, I1) in s'.avail && TypedSlot(ResultSlot(c), ty) in s'.avail && c.labels + 3 <= x.c.labels
      && Starts(WithSlot(s, ResultSlot(c), ty), c.labels)
  {
    hide Pass, Starts, GenTruth;
    var s0 := WithSlot(s, ResultSlot(c), ty);
    var x := GenTruth(a.c, e, a.r);
    WithSlotAdds(s, ResultSlot(c), ty, c.labels);
    FlowsMeans(s0, a.code, c.labels + 3, a.c.labels);
    TruthFlows(Pass(a.code, s0), a.c, e, a.r);
    FlowsThen(s0, a.code, x.code, c.labels + 3, a.c.labels, x.c.labels);
    FlowsMeans(s0, a.code + x.code, c.labels + 3, x.c.labels);
    AddsThen(s, s0, Pass(a.code + x.code, s0), c.labels, c.labels + 3);
  }

  lemma ShortcutAdds(s: Flow, s0: Flow, s2: Flow, c: Counters, n: nat)
    requires Starts(s0, c.labels) && Adds(s0, s2, c.labels + 3) && Starts(s2, n) && c.labels + 3 <= n
    requires Adds(s, s2, c.labels)
    ensures New(s2, LogicalLeft(c)) && New(s2, LogicalRight(c)) && New(s2, LogicalEnd(c))
    ensures Adds(s, AfterShortcut(s2, c), c.labels) && Starts(AfterShortcut(s2, c), n)
  {
    Reserved(s0, LogicalLeft(c), c.labels);
    Reserved(s0, LogicalRight(c), c.labels);
    Reserved(s0, LogicalEnd(c), c.labels);
    StillNew(s0, s2, LogicalLeft(c), c.labels + 3);
    StillNew(s0, s2, LogicalRight(c), c.labels + 3);
    StillNew(s0, s2, LogicalEnd(c), c.labels + 3);
  }

  lemma LogicalEndAdds(
    s: Flow, s3: Flow, s5: Flow, s6: Flow, c: Counters, n: nat, n': nat, more: set<Typed>)
    requires Adds(s, s3, c.labels) && Starts(s3, n) && Adds(s3, s5, n) && c.labels + 3 <= n <= n' && Starts(s5, n')
    requires LogicalEnd(c) in s3.at && s3.at[LogicalEnd(c)] == s3.avail && LogicalEnd(c) !in s3.passed
    requires s6 == s5.(avail := s3.avail + more, seen := s5.seen + more, passed := s5.passed + {LogicalEnd(c)})
    ensures Adds(s, s6, c.labels) && Starts(s6, n')
    ensures LogicalEnd(c) in s5.at && s5.at[LogicalEnd(c)] == s3.avail <= s5.avail && LogicalEnd(c) !in s5.passed
  {
  }

  /** Where the right operand starts. */
  function RightStart(s: Flow, c: Counters, l: Expr, a: ExprCode): Flow {
    AfterShortcut(Pass(a.code + GenTruth(a.c, l, a.r).code, WithSlot(s, ResultSlot(c), I1)), c)
  }

  /** What holds where the right operand starts. */
  predicate AtRight(s: Flow, s3: Flow, c: Counters, n: nat) {
    && Adds(s, s3, c.labels) && Starts(s3, n) && c.labels + 3 <= n && s.avail <= s3.avail
    && TypedSlot(ResultSlot(c), I1) in s3.avail
    && LogicalEnd(c) in s3.at && s3.at[LogicalEnd(c)] == s3.avail && LogicalEnd(c) !in s3.passed
  }

  lemma LeftFlows(s: Flow, c: Counters, op: BinaryOp, l: Expr, a: ExprCode)
    requires Starts(s, c.labels) && ExprFlows(WithSlot(s, ResultSlot(c), I1), Reserve(c), l, a)
    ensures
      var x := GenTruth(a.c, l, a.r);
      var s3 := RightStart(s, c, l, a);
      && Pass(LogicalShortcut(c, op, x.r), Pass(a.code + x.code, WithSlot(s, ResultSlot(c), I1))) == s3
      && AtRight(s, s3, c, x.c.labels)
  {
    hide Pass, Starts, Adds, GenTruth, LogicalShortcut, ExprFlows;
    var x := GenTruth(a.c, l, a.r);
    var s0 := WithSlot(s, ResultSlot(c), I1);
    var s2 := Pass(a.code + x.code, s0);
    TestedFlows(s, c, I1, l, a);
    ShortcutAdds(s, s0, s2, c, x.c.labels);
    StartsOk(s2, x.c.labels);
    ShortcutPass(s2, c, op, x.r);
    AddsAvail(s, AfterShortcut(s2, c), c.labels);
    EndNotPassed(s2, c);
  }

  lemma RightFlows(s: Flow, s3: Flow, c: Counters, c1: Counters, r: Expr, b: ExprCode)
    requires AtRight(s, s3, c, c1.labels) && ExprFlows(s3, c1, r, b)
    ensures
      var y := GenTruth(b.c, r, b.r);
      var final := y.c.temps + 1;
      var s6 := Pass(LogicalExit(c, y.r, final), Pass(b.code + y.code, s3));
      && Adds(s, s6, c.labels) && Starts(s6, y.c.labels) && c.labels <= y.c.labels
      && TypedTemp(final + 1, I32) in s6.avail
  {
    hide Pass, Starts, Adds, Flows, GenTruth, LogicalExit, TypeOf;
    var y := GenTruth(b.c, r, b.r);
    var final := y.c.temps + 1;
    FlowsMeans(s3, b.code, c1.labels, b.c.labels);
    TruthFlows(Pass(b.code, s3), b.c, r, b.r);
    FlowsThen(s3, b.code, y.code, c1.labels, b.c.labels, y.c.labels);
    var s5 := Pass(b.code + y.code, s3);
    FlowsMeans(s3, b.code + y.code, c1.labels, y.c.labels);
    StartsOk(s5, y.c.labels);
    var more := {TypedTemp(final, I1), TypedTemp(final + 1, I32)};
    LogicalEndAdds(s, s3, s5,
                   s5.(avail := s3.avail + more, seen := s5.seen + more, passed := s5.passed + {LogicalEnd(c)}),
                   c, c1.labels, y.c.labels, more);
    LogicalExitPass(s5, c, y.r, final);
  }

  lemma LogicalFlows(s: Flow, c: Counters, op: BinaryOp, l: Expr, r: Expr, a: ExprCode, b: ExprCode)
    requires Starts(s, c.labels) && ExprFlows(WithSlot(s, ResultSlot(c), I1), Reserve(c), l, a)
    requires
      var s3 := RightStart(s, c, l, a);
      var c1 := GenTruth(a.c, l, a.r).c;
      Starts(s3, c1.labels) && s.avail <= s3.avail ==> ExprFlows(s3, c1, r, b)
    ensures
      var y := LogicalCode(c, op, l, r, a, b);
      Flows(s, y.code, c.labels, y.c.labels) && TypedTemp(y.r, I32) in Pass(y.code, s).avail
  {
    hide Pass, Starts, Adds, Flows, ExprFlows, GenTruth, LogicalShortcut, LogicalExit, RightStart;
    var x, y := GenTruth(a.c, l, a.r), GenTruth(b.c, r, b.r);
    var slot := [Alloca(ResultSlot(c), I1)];
    StartsOk(s, c.labels);
    AllocaPass(s, ResultSlot(c), I1);
    LeftFlows(s, c, op, l, a);
    RightFlows(s, RightStart(s, c, l, a), c, x.c, r, b);
    LogicalPass(s, slot, a.code, x.code, LogicalShortcut(c, op, x.r), b.code, y.code,
                LogicalExit(c, y.r, y.c.temps + 1));
    FlowsIntro(s, LogicalCode(c, op, l, r, a, b).code, c.labels, y.c.labels);
  }

  lemma AddsAvail(s: Flow, s': Flow, n: nat)
    requires Adds(s, s', n)
    ensures s.avail <= s'.avail
  {
  }

  lemma StartsOk(s: Flow, n: nat)
    requires Starts(s, n)
    ensures s.ok
  {
  }

  lemma EndNotPassed(s: Flow, c: Counters)
    requires New(s, LogicalEnd(c))
    ensures
      var s3, e := AfterShortcut(s, c), LogicalEnd(c);
      e in s3.at && s3.at[e] == s3.avail && e !in s3.passed
  {
  }

  lemma LogicalPass(
    s: Flow, slot: seq<Instr>, a: seq<Instr>, x: seq<Instr>, middle: seq<Instr>, b: seq<Instr>, y: seq<Instr>,
    last: seq<Instr>)
    ensures
      Pass(slot + (a + (x + (middle + (b + (y + last))))), s)
      == Pass(last, Pass(b + y, Pass(middle, Pass(a + x, Pass(slot, s)))))
  {
    hide Pass;
    var tail := b + (y + last);
    assert slot + (a + (x + (middle + tail))) == slot + ((a + x) + (middle + tail));
    PassAppend(slot, (a + x) + (middle + tail), s);
    PassAppend(a + x, middle + tail, Pass(slot, s));
    PassAppend(middle, tail, Pass(a + x, Pass(slot, s)));
    assert tail == (b + y) + last;
    PassAppend(b + y, last, Pass(middle, Pass(a + x, Pass(slot, s))));
  }

  // ----- The conditional operator -----

  function AfterChoice(s: Flow, c: Counters): Flow {
    s.(at := s.at[CondTrue(c) := s.avail][CondFalse(c) := s.avail], passed := s.passed + {CondTrue(c)})
  }

  lemma ChoicePass(s: Flow, c: Counters, test: int)
    requires s.ok && TypedTemp(test, I1) in s.avail && New(s, CondTrue(c)) && New(s, CondFalse(c))
    ensures Pass(CondChoice(c, test), s) == AfterChoice(s, c)
  {
    var s1 := s.(at := s.at[CondTrue(c) := s.avail][CondFalse(c) := s.avail]);
    PassTwo(CondBr(test, CondTrue(c), CondFalse(c)), LabelDef(CondTrue(c)), s);
    assert s1.at[CondTrue(c) := s.avail] == s1.at;
  }

  function AfterElse(s: Flow, c: Counters): Flow
    requires CondFalse(c) in s.at
  {
    s.(avail := s.at[CondFalse(c)], at := s.at[CondEnd(c) := s.avail], passed := s.passed + {CondFalse(c)})
  }

  lemma ElsePass(s: Flow, c: Counters, v: Operand)
    requires s.ok && TempsOf(v, I32) <= s.avail && LiteralFits(v, I32) && TypedSlot(ResultSlot(c), I32) in s.avail
    requires CondFalse(c) in s.at && CondFalse(c) !in s.passed && New(s, CondEnd(c))
    ensures Pass(CondElse(c, v), s) == AfterElse(s, c)
  {
    var f := CondFalse(c);
    var store, br, l := Store(I32, v, ResultSlot(c)), Br(CondEnd(c)), LabelDef(f);
    assert Through(store, s) == s;
    var s1 := s.(at := s.at[CondEnd(c) := s.avail]);
    assert Through(br, s) == s1 && s1.at[f := s1.at[f]] == s1.at;
    PassThree(store, br, l, [], s);
    assert CondElse(c, v) == [store, br, l] + [];
  }

  lemma CondExitPass(s: Flow, c: Counters, v: Operand, final: int)
    requires s.ok && TempsOf(v, I32) <= s.avail && LiteralFits(v, I32) && CondEnd(c) in s.at && CondEnd(c) !in s.passed
    requires TypedSlot(ResultSlot(c), I32) in s.avail && TypedSlot(ResultSlot(c), I32) in s.at[CondEnd(c)]
    ensures
      var both := s.at[CondEnd(c)] * s.avail;
      Pass(CondExit(c, v, final), s)
      == s.(avail := both + {TypedTemp(final, I32)}, seen := s.seen + {TypedTemp(final, I32)},
            at := s.at[CondEnd(c) := both], passed := s.passed + {CondEnd(c)})
  {
    var e := CondEnd(c);
    var store, load := Store(I32, v, ResultSlot(c)), Load(final, I32, ResultSlot(c));
    assert Through(store, s) == s;
    PassThree(store, Br(e), LabelDef(e), [load], s);
    var both := s.at[e] * s.avail;
    var s1 := s.(avail := both, at := s.at[e := both], passed := s.passed + {e});
    assert s1.at[e := both] == s1.at;
    assert Through(LabelDef(e), Through(Br(e), s)) == s1;
    PassOne(load, s1);
    assert CondExit(c, v, final) == [store, Br(e), LabelDef(e)] + [load];
  }

  lemma ChoiceAdds(s: Flow, s0: Flow, s2: Flow, c: Counters, n: nat)
    requires Starts(s0, c.labels) && Adds(s0, s2, c.labels + 3) && Starts(s2, n) && c.labels + 3 <= n
    requires Adds(s, s2, c.labels)
    ensures New(s2, CondTrue(c)) && New(s2, CondFalse(c))
    ensures
      var s3 := AfterChoice(s2, c);
      && Adds(s, s3, c.labels) && Starts(s3, n)
      && New(s3, CondEnd(c)) && CondFalse(c) in s3.at && s3.at[CondFalse(c)] == s3.avail && CondFalse(c) !in s3.passed
  {
    Reserved(s0, CondTrue(c), c.labels);
    Reserved(s0, CondFalse(c), c.labels);
    Reserved(s0, CondEnd(c), c.labels);
    StillNew(s0, s2, CondTrue(c), c.labels + 3);
    StillNew(s0, s2, CondFalse(c), c.labels + 3);
    StillNew(s0, s2, CondEnd(c), c.labels + 3);
  }

  lemma ElseAdds(s: Flow, s3: Flow, s5: Flow, c: Counters, n: nat, n': nat)
    requires Adds(s, s3, c.labels) && Starts(s3, n) && Adds(s3, s5, n) && c.labels + 3 <= n <= n' && Starts(s5, n')
    requires New(s3, CondEnd(c)) && CondFalse(c) in s3.at && s3.at[CondFalse(c)] == s3.avail
    requires CondFalse(c) !in s3.passed
    ensures New(s5, CondEnd(c)) && CondFalse(c) in s5.at && CondFalse(c) !in s5.passed && s3.avail <= s5.avail
    ensures
      var s6 := AfterElse(s5, c);
      && Adds(s, s6, c.labels) && Starts(s6, n') && s6.avail == s3.avail
      && CondEnd(c) in s6.at && s3.avail <= s6.at[CondEnd(c)] && CondEnd(c) !in s6.passed
  {
    StillNew(s3, s5, CondEnd(c), n);
  }

  lemma CondEndAdds(s: Flow, s6: Flow, s8: Flow, s9: Flow, c: Counters, n: nat, n': nat, more: set<Typed>)
    requires Adds(s, s6, c.labels) && Starts(s6, n) && Adds(s6, s8, n) && c.labels + 3 <= n <= n' && Starts(s8, n')
    requires Starts(s, c.labels)
    requires CondEnd(c) in s6.at && s6.avail <= s6.at[CondEnd(c)] && CondEnd(c) !in s6.passed
    requires CondEnd(c) in s8.at
    requires
      var both := s8.at[CondEnd(c)] * s8.avail;
      s9 == s8.(avail := both + more, seen := s8.seen + more,
                at := s8.at[CondEnd(c) := both], passed := s8.passed + {CondEnd(c)})
    ensures Adds(s, s9, c.labels) && Starts(s9, n') && CondEnd(c) !in s8.passed
    ensures s6.avail <= s8.avail && s6.avail <= s8.at[CondEnd(c)]
  {
    Reserved(s, CondEnd(c), c.labels);
  }

  /** An operand, and its cast, that starts behind a label. */
  lemma ArmFlows(s: Flow, c: Counters, e: Expr, x: ExprCode)
    requires ExprFlows(s, c, e, x)
    ensures
      var w := GenToInt(x.c, e, x.r);
      var s' := Pass(x.code + w.code, s);
      && Adds(s, s', c.labels) && Starts(s', w.c.labels) && c.labels <= w.c.labels
      && TempsOf(OperandOf(e, w.r), I32) <= s'.avail && LiteralFits(OperandOf(e, w.r), I32)
  {
    hide Pass, Starts, Adds, GenToInt;
    var w := GenToInt(x.c, e, x.r);
    FlowsMeans(s, x.code, c.labels, x.c.labels);
    ToIntFlows(Pass(x.code, s), x.c, e, x.r);
    FlowsThen(s, x.code, w.code, c.labels, x.c.labels, w.c.labels);
    FlowsMeans(s, x.code + w.code, c.labels, w.c.labels);
    OperandReady(e, w.r, Pass(x.code + w.code, s));
  }

  /** Where the second and the third operand start. */
  function ThenStart(s: Flow, c: Counters, q: Expr, a: ExprCode): Flow {
    AfterChoice(Pass(a.code + GenTruth(a.c, q, a.r).code, WithSlot(s, ResultSlot(c), I32)), c)
  }

  function ThenEnd(s3: Flow, e: Expr, b: ExprCode): Flow {
    Pass(b.code + GenToInt(b.c, e, b.r).code, s3)
  }

  lemma CondFlows(
    s: Flow, c: Counters, q: Expr, e: Expr, f: Expr, a: ExprCode, b: ExprCode, d: ExprCode)
    requires Starts(s, c.labels) && ExprFlows(WithSlot(s, ResultSlot(c), I32), Reserve(c), q, a)
    requires
      var s3 := ThenStart(s, c, q, a);
      var c1 := GenTruth(a.c, q, a.r).c;
      Starts(s3, c1.labels) && s.avail <= s3.avail ==> ExprFlows(s3, c1, e, b)
    requires
      var s5 := ThenEnd(ThenStart(s, c, q, a), e, b);
      var c2 := GenToInt(b.c, e, b.r).c;
      CondFalse(c) in s5.at && Starts(AfterElse(s5, c), c2.labels) && s.avail <= AfterElse(s5, c).avail
      ==> ExprFlows(AfterElse(s5, c), c2, f, d)
    ensures
      var y := CondCode(c, q, e, f, a, b, d);
      Flows(s, y.code, c.labels, y.c.labels) && TypedTemp(y.r, I32) in Pass(y.code, s).avail
  {
    hide Pass, Starts, Adds, GenTruth, GenToInt, CondChoice, CondElse, CondExit;
    var x, w, z := GenTruth(a.c, q, a.r), GenToInt(b.c, e, b.r), GenToInt(d.c, f, d.r);
    var final := z.c.temps + 1;
    var slot := TypedSlot(ResultSlot(c), I32);
    var s0 := WithSlot(s, ResultSlot(c), I32);
    var s2 := Pass(a.code + x.code, s0);
    StartsOk(s, c.labels);
    AllocaPass(s, ResultSlot(c), I32);
    TestedFlows(s, c, I32, q, a);
    ChoiceAdds(s, s0, s2, c, x.c.labels);
    StartsOk(s2, x.c.labels);
    ChoicePass(s2, c, x.r);
    var s3 := AfterChoice(s2, c);
    AddsAvail(s, s3, c.labels);
    ArmFlows(s3, x.c, e, b);
    var s5 := Pass(b.code + w.code, s3);
    ElseAdds(s, s3, s5, c, x.c.labels, w.c.labels);
    StartsOk(s5, w.c.labels);
    assert slot in s3.avail && slot in s5.avail;
    ElsePass(s5, c, OperandOf(e, w.r));
    var s6 := AfterElse(s5, c);
    AddsAvail(s, s6, c.labels);
    ArmFlows(s6, w.c, f, d);
    var s8 := Pass(d.code + z.code, s6);
    StartsOk(s8, z.c.labels);
    Carried(s6, s8, CondEnd(c), w.c.labels);
    var both, more := s8.at[CondEnd(c)] * s8.avail, {TypedTemp(final, I32)};
    CondEndAdds(s, s6, s8,
                s8.(avail := both + more, seen := s8.seen + more,
                    at := s8.at[CondEnd(c) := both], passed := s8.passed + {CondEnd(c)}),
                c, w.c.labels, z.c.labels, more);
    CondExitPass(s8, c, OperandOf(f, z.r), final);
    CondPass(s, [Alloca(ResultSlot(c), I32)], a.code, x.code, CondChoice(c, x.r), b.code, w.code,
             CondElse(c, OperandOf(e, w.r)), d.code, z.code, CondExit(c, OperandOf(f, z.r), final));
  }

  lemma Carried(s: Flow, s': Flow, l: Label, n: nat)
    requires Adds(s, s', n) && l in s.at
    ensures l in s'.at
  {
  }

  lemma CondPass(
    s: Flow, slot: seq<Instr>, a: seq<Instr>, x: seq<Instr>, choice: seq<Instr>, b: seq<Instr>, w: seq<Instr>,
    middle: seq<Instr>, d: seq<Instr>, z: seq<Instr>, last: seq<Instr>)
    ensures
      Pass(slot + (a + (x + (choice + (b + (w + (middle + (d + (z + last)))))))), s)
      == Pass(last, Pass(d + z, Pass(middle, Pass(b + w, Pass(choice, Pass(a + x, Pass(slot, s)))))))
  {
    hide Pass;
    var tail := middle + (d + (z + last));
    assert b + (w + tail) == (b + w) + tail;
    LogicalPass(s, slot, a, x, choice, b, w, tail);
    var s1 := Pass(b + w, Pass(choice, Pass(a + x, Pass(slot, s))));
    assert d + (z + last) == (d + z) + last;
    PassAppend(middle, (d + z) + last, s1);
    PassAppend(d + z, last, Pass(middle, s1));
  }

  // ----- All expressions -----

  lemma {:induction false} ExprPasses(t: Scopes<Symbol>, s: Flow, c: Counters, e: Expr)
    requires Starts(s, c.labels) && Visible(t, s.avail) && InFragment(e) && Resolved(t, e)
    ensures ExprFlows(s, c, e, GenExpr(t, c, e))
    decreases e, 1
  {
    hide Pass, Starts, Flows, Visible, LogicalCode, OperatorCode, CondCode, AssignCode, StepCode, LoadCode, GenTruth,
         GenToInt, OwnSlot, TypeOf;
    PredictedType(e);
    match e
    case Number(_) => NoFlow(s, c.labels);
    case Var(x) =>
      VisibleAt(t, s.avail, x);
      LoadFlows(s, c, Find(t, x).value);
    case Binary(op, l, r) => BinaryPasses(t, s, c, e);
    case Assign(x, rhs) =>
      ExprPasses(t, s, c, rhs);
      VisibleAt(t, s.avail, x);
      AssignFlows(s, c, Find(t, x).value, rhs, GenExpr(t, c, rhs));
    case Unary(op, e1) =>
      if IsStep(op) {
        VisibleAt(t, s.avail, e1.name);
        StepFlows(s, c, op, Find(t, e1.name).value);
      } else {
        ExprPasses(t, s, c, e1);
        UnaryFlows(s, c, op, e1, GenExpr(t, c, e1));
      }
    case Cond(_, _, _) => ConditionalPasses(t, s, c, e);
    case Call(f, args) =>
      ArgsPass(t, s, c, args);
      CallFlows(s, c, f, GenArgs(t, c, args));
  }

  lemma {:induction false} BinaryPasses(t: Scopes<Symbol>, s: Flow, c: Counters, e: Expr)
    requires e.Binary? && Starts(s, c.labels) && Visible(t, s.avail) && InFragment(e) && Resolved(t, e)
    ensures ExprFlows(s, c, e, GenExpr(t, c, e))
    decreases e, 0
  {
    hide Pass, Starts, Flows, Visible, Adds, LogicalCode, OperatorCode, GenTruth, AfterShortcut;
    PredictedType(e);
    var op, l, r := e.op, e.left, e.right;
    if op == LAnd || op == LOr {
      var s0 := WithSlot(s, ResultSlot(c), I1);
      var a := GenExpr(t, Reserve(c), l);
      var x := GenTruth(a.c, l, a.r);
      WithSlotAdds(s, ResultSlot(c), I1, c.labels);
      MoreLabels(s0, c.labels, Reserve(c).labels);
      VisibleMore(t, s.avail, s0.avail);
      ExprPasses(t, s0, Reserve(c), l);
      var s3 := RightStart(s, c, l, a);
      if Starts(s3, x.c.labels) && s.avail <= s3.avail {
        VisibleMore(t, s.avail, s3.avail);
        ExprPasses(t, s3, x.c, r);
      }
      LogicalFlows(s, c, op, l, r, a, GenExpr(t, x.c, r));
    } else {
      var a := GenExpr(t, c, l);
      ExprPasses(t, s, c, l);
      FlowsMeans(s, a.code, c.labels, a.c.labels);
      VisibleMore(t, s.avail, Pass(a.code, s).avail);
      ExprPasses(t, Pass(a.code, s), a.c, r);
      OperatorFlows(s, c, op, l, r, a, GenExpr(t, a.c, r));
    }
  }

  lemma {:induction false} ConditionalPasses(t: Scopes<Symbol>, s: Flow, c: Counters, e: Expr)
    requires e.Cond? && Starts(s, c.labels) && Visible(t, s.avail) && InFragment(e) && Resolved(t, e)
    ensures ExprFlows(s, c, e, GenExpr(t, c, e))
    decreases e, 0
  {
    hide Pass, Starts, Flows, Visible, Adds, CondCode, GenTruth, GenToInt, AfterChoice;
    PredictedType(e);
    var q, y, z := e.cond, e.thenExpr, e.elseExpr;
    var s0 := WithSlot(s, ResultSlot(c), I32);
    var a := GenExpr(t, Reserve(c), q);
    var x := GenTruth(a.c, q, a.r);
    var b := GenExpr(t, x.c, y);
    var w := GenToInt(b.c, y, b.r);
    WithSlotAdds(s, ResultSlot(c), I32, c.labels);
    MoreLabels(s0, c.labels, Reserve(c).labels);
    VisibleMore(t, s.avail, s0.avail);
    ExprPasses(t, s0, Reserve(c), q);
    var s3 := ThenStart(s, c, q, a);
    if Starts(s3, x.c.labels) && s.avail <= s3.avail {
      VisibleMore(t, s.avail, s3.avail);
      ExprPasses(t, s3, x.c, y);
    }
    var s5 := ThenEnd(s3, y, b);
    if CondFalse(c) in s5.at && Starts(AfterElse(s5, c), w.c.labels) && s.avail <= AfterElse(s5, c).avail {
      VisibleMore(t, s.avail, AfterElse(s5, c).avail);
      ExprPasses(t, AfterElse(s5, c), w.c, z);
    }
    CondFlows(s, c, q, y, z, a, b, GenExpr(t, w.c, z));
  }

  lemma {:induction false} ArgsPass(t: Scopes<Symbol>, s: Flow, c: Counters, es: seq<Expr>)
    requires Starts(s, c.labels) && Visible(t, s.avail) && AllValues(es) && ArgsResolved(t, es)
    ensures
      var a := GenArgs(t, c, es);
      Flows(s, a.code, c.labels, a.c.labels) && ArgTemps(a.args) <= Pass(a.code, s).avail && ArgsTyped(a.args)
    decreases es, 0
  {
    hide Pass, Starts, Flows, Visible, Adds;
    if es == [] {
      NoFlow(s, c.labels);
    } else {
      var x := GenExpr(t, c, es[0]);
      var s1 := Pass(x.code, s);
      ExprPasses(t, s, c, es[0]);
      FlowsMeans(s, x.code, c.labels, x.c.labels);
      VisibleMore(t, s.avail, s1.avail);
      ArgsPass(t, s1, x.c, es[1..]);
      var xs := GenArgs(t, x.c, es[1..]);
      FlowsMeans(s1, xs.code, x.c.labels, xs.c.labels);
      FlowsThen(s, x.code, xs.code, c.labels, x.c.labels, xs.c.labels);
      OperandReady(es[0], x.r, s1);
      FirstArg(Arg(TypeOf(es[0]), OperandOf(es[0], x.r)), xs.args);
    }
  }

  lemma FirstArg(a: Arg, args: seq<Arg>)
    requires a.ty == I32 && LiteralFits(a.operand, I32) && ArgsTyped(args)
    ensures ArgsTyped([a] + args)
    ensures ArgTemps([a] + args) == TempsOf(a.operand, I32) + ArgTemps(args)
  {
    assert ([a] + args)[1..] == args;
  }
}
