/** Every label, temporary and slot is defined at most once, however the source
    nests and shadows: the counters only grow and every definition takes a
    number no other definition takes. */
module Definitions {
  import opened Options
  import opened Ast
  import opened Scopes
  import opened Ir
  import opened Codegen

  datatype Item = LabelItem(l: Label) | TempItem(t: int) | SlotItem(s: Slot)

  function Defines(i: Instr): Option<Item> {
    match i
    case LabelDef(l) => Some(LabelItem(l))
    case Alloca(s, _) => Some(SlotItem(s))
    case Load(t, _, _) => Some(TempItem(t))
    case Arith(t, _, _, _) => Some(TempItem(t))
    case Icmp(t, _, _, _) => Some(TempItem(t))
    case Zext(t, _) => Some(TempItem(t))
    case Sext(t, _) => Some(TempItem(t))
    case CallI(t, _, _) => Some(TempItem(t))
    case _ => None
  }

  function Hit(i: Instr, x: Item): nat { if Defines(i) == Some(x) then 1 else 0 }

  /** How often a piece of code defines an item. */
  function Count(code: seq<Instr>, x: Item): nat
    decreases code
  {
    if code == [] then 0 else Hit(code[0], x) + Count(code[1..], x)
  }

  lemma {:induction false} CountAppend(a: seq<Instr>, b: seq<Instr>, x: Item)
    ensures Count(a + b, x) == Count(a, x) + Count(b, x)
    decreases a
  {
    if a == [] {
      assert a + b == b;
    } else {
      CountAppend(a[1..], b, x);
      assert (a + b)[1..] == a[1..] + b;
    }
  }

  lemma CountAppend3(a: seq<Instr>, b: seq<Instr>, c: seq<Instr>, x: Item)
    ensures Count(a + (b + c), x) == Count(a, x) + Count(b, x) + Count(c, x)
  {
    CountAppend(a, b + c, x);
    CountAppend(b, c, x);
  }

  lemma CountAppend5(a: seq<Instr>, b: seq<Instr>, c: seq<Instr>, d: seq<Instr>, e: seq<Instr>, x: Item)
    ensures Count(a + (b + (c + (d + e))), x) == Count(a, x) + Count(b, x) + Count(c, x) + Count(d, x) + Count(e, x)
  {
    CountAppend3(a, b, c + (d + e), x);
    CountAppend3(c, d, e, x);
  }

  function HitAt(s: seq<Instr>, i: nat, x: Item): nat { if i < |s| then Hit(s[i], x) else 0 }

  lemma CountShort(s: seq<Instr>, x: Item)
    requires |s| <= 5
    ensures Count(s, x) == HitAt(s, 0, x) + HitAt(s, 1, x) + HitAt(s, 2, x) + HitAt(s, 3, x) + HitAt(s, 4, x)
  {
    if |s| > 0 {
      var s1 := s[1..];
      if |s| > 1 {
        var s2 := s1[1..];
        if |s| > 2 {
          var s3 := s2[1..];
          if |s| > 3 {
            var s4 := s3[1..];
            assert |s| > 4 ==> s4[1..] == [];
          }
        }
      }
    }
  }

  lemma {:induction false} CountPositive(code: seq<Instr>, i: nat, x: Item)
    requires i < |code| && Defines(code[i]) == Some(x)
    ensures Count(code, x) >= 1
    decreases code
  {
    if i > 0 {
      CountPositive(code[1..], i - 1, x);
    }
  }

  lemma TwoDefinitions(code: seq<Instr>, i: nat, j: nat, x: Item)
    requires i < j < |code| && Defines(code[i]) == Some(x) == Defines(code[j])
    ensures Count(code, x) >= 2
  {
    assert code == code[..j] + code[j..];
    CountAppend(code[..j], code[j..], x);
    CountPositive(code[..j], i, x);
    CountPositive(code[j..], 0, x);
  }

  /** If a label is defined once, jumps to it land there. */
  lemma LabelFound(code: seq<Instr>, l: Label, i: nat)
    requires i < |code| && code[i] == LabelDef(l)
    requires Count(code, LabelItem(l)) <= 1
    ensures FindLabel(code, l, 0) == i
  {
    var j := FindLabel(code, l, 0);
    if j < i {
      TwoDefinitions(code, j, i, LabelItem(l));
    }
  }

  // ----- The ranges of the counters -----

  predicate Grows(c: Counters, c': Counters) {
    c.labels <= c'.labels && c.temps <= c'.temps
  }

  /** The item's number was handed out between the two states. */
  predicate Fresh(x: Item, c: Counters, u: nat, c': Counters, u': nat) {
    match x
    case LabelItem(l) => c.labels < l.id <= c'.labels
    case TempItem(t) => c.temps < t <= c'.temps
    case SlotItem(TempAddr(t)) => c.temps < t <= c'.temps
    case SlotItem(s) => u < s.name.uid <= u'
  }

  /** Every definition in the code took a number between the two states, and no
      two took the same. */
  predicate DefinesOnce(code: seq<Instr>, x: Item, c: Counters, u: nat, c': Counters, u': nat) {
    && Grows(c, c') && u <= u'
    && Count(code, x) <= 1
    && (Count(code, x) > 0 ==> Fresh(x, c, u, c', u'))
  }

  predicate ExprOnce(c: Counters, g: ExprCode, x: Item) {
    DefinesOnce(g.code, x, c, 0, g.c, 0)
  }

  // ----- Expressions -----

  lemma SmallOnce(c: Counters, e: Expr, r: int, x: Item)
    ensures ExprOnce(c, GenToInt(c, e, r), x)
    ensures ExprOnce(c, GenTruth(c, e, r), x)
    ensures ExprOnce(c, GenPromote(c, e, r), x)
  {
    CountShort(GenToInt(c, e, r).code, x);
    CountShort(GenTruth(c, e, r).code, x);
    CountShort(GenPromote(c, e, r).code, x);
  }

  lemma AssignOnce(c: Counters, sym: Option<Symbol>, e: Expr, v: ExprCode, x: Item)
    requires ExprOnce(c, v, x)
    ensures ExprOnce(c, AssignCode(sym, e, v), x)
  {
    if sym.Some? {
      var w := GenToInt(v.c, e, v.r);
      SmallOnce(v.c, e, v.r, x);
      var store := [Store(I32, OperandOf(e, w.r), SlotOf(sym.value))];
      CountShort(store, x);
      CountAppend3(v.code, w.code, store, x);
    }
  }

  lemma UnaryOnce(c: Counters, op: UnaryOp, e: Expr, v: ExprCode, x: Item)
    requires ExprOnce(c, v, x)
    ensures ExprOnce(c, UnaryCode(op, e, v), x)
  {
    var last := [UnaryInstr(op, v.c.temps + 1, OperandOf(e, v.r))];
    CountShort(last, x);
    CountAppend(v.code, last, x);
  }

  lemma CallOnce(c: Counters, f: string, a: ArgsCode, x: Item)
    requires DefinesOnce(a.code, x, c, 0, a.c, 0)
    ensures ExprOnce(c, CallCode(f, a), x)
  {
    var last := [CallI(a.c.temps + 1, f, a.args)];
    CountShort(last, x);
    CountAppend(a.code, last, x);
  }

  lemma OperatorCount(op: BinaryOp, l: Expr, r: Expr, a: ExprCode, b: ExprCode, x: Item)
    ensures
      var c1 := b.c.(temps := b.c.temps + 1);
      var pa := GenPromote(c1, l, a.r);
      var pb := GenPromote(pa.c, r, b.r);
      Count(OperatorCode(op, l, r, a, b).code, x)
      == Count(a.code, x) + Count(b.code, x) + Count(pa.code, x) + Count(pb.code, x)
         + (if x == TempItem(b.c.temps + 1) then 1 else 0)
  {
    hide Count;
    var temp := b.c.temps + 1;
    var pa := GenPromote(b.c.(temps := temp), l, a.r);
    var pb := GenPromote(pa.c, r, b.r);
    var last := [OperatorInstr(op, temp, OperandOf(l, pa.r), OperandOf(r, pb.r))];
    CountShort(last, x);
    CountAppend5(a.code, b.code, pa.code, pb.code, last, x);
  }

  lemma OperatorOnce(c: Counters, op: BinaryOp, l: Expr, r: Expr, a: ExprCode, b: ExprCode, x: Item)
    requires ExprOnce(c, a, x) && ExprOnce(a.c, b, x)
    ensures ExprOnce(c, OperatorCode(op, l, r, a, b), x)
  {
    hide Count, GenPromote;
    var c1 := b.c.(temps := b.c.temps + 1);
    var pa := GenPromote(c1, l, a.r);
    SmallOnce(c1, l, a.r, x);
    SmallOnce(pa.c, r, b.r, x);
    OperatorCount(op, l, r, a, b, x);
  }

  lemma LogicalLines(c: Counters, op: BinaryOp, test: int, value: int, final: int, x: Item)
    ensures Count([Alloca(ResultSlot(c), I1)], x) == (if x == SlotItem(ResultSlot(c)) then 1 else 0)
    ensures Count(LogicalShortcut(c, op, test), x)
            == (if x == LabelItem(LogicalLeft(c)) || x == LabelItem(LogicalRight(c)) then 1 else 0)
    ensures Count(LogicalExit(c, value, final), x)
            == (if x == LabelItem(LogicalEnd(c)) || x == TempItem(final) || x == TempItem(final + 1) then 1 else 0)
  {
    CountShort([Alloca(ResultSlot(c), I1)], x);
    CountShort(LogicalShortcut(c, op, test), x);
    CountShort(LogicalExit(c, value, final), x);
  }

  lemma LogicalCount(c: Counters, op: BinaryOp, l: Expr, r: Expr, a: ExprCode, b: ExprCode, x: Item)
    ensures
      var bb := GenTruth(b.c, r, b.r);
      var final := bb.c.temps + 1;
      Count(LogicalCode(c, op, l, r, a, b).code, x)
      == Count(a.code, x) + Count(GenTruth(a.c, l, a.r).code, x) + Count(b.code, x) + Count(bb.code, x)
         + (if x in {LabelItem(LogicalLeft(c)), LabelItem(LogicalRight(c)), LabelItem(LogicalEnd(c)),
                     SlotItem(ResultSlot(c)), TempItem(final), TempItem(final + 1)} then 1 else 0)
  {
    hide Count, LogicalShortcut, LogicalExit;
    var ab := GenTruth(a.c, l, a.r);
    var bb := GenTruth(b.c, r, b.r);
    var final := bb.c.temps + 1;
    var middle, last := LogicalShortcut(c, op, ab.r), LogicalExit(c, bb.r, final);
    LogicalLines(c, op, ab.r, bb.r, final, x);
    CountAppend3([Alloca(ResultSlot(c), I1)], a.code, ab.code + (middle + (b.code + (bb.code + last))), x);
    CountAppend5(ab.code, middle, b.code, bb.code, last, x);
  }

  lemma LogicalOnce(c: Counters, op: BinaryOp, l: Expr, r: Expr, a: ExprCode, b: ExprCode, x: Item)
    requires ExprOnce(Reserve(c), a, x) && ExprOnce(GenTruth(a.c, l, a.r).c, b, x)
    ensures ExprOnce(c, LogicalCode(c, op, l, r, a, b), x)
  {
    hide Count;
    SmallOnce(a.c, l, a.r, x);
    SmallOnce(b.c, r, b.r, x);
    LogicalCount(c, op, l, r, a, b, x);
  }

  lemma CondLines(c: Counters, test: int, v: Operand, w: Operand, final: int, x: Item)
    ensures Count([Alloca(ResultSlot(c), I32)], x) == (if x == SlotItem(ResultSlot(c)) then 1 else 0)
    ensures Count(CondChoice(c, test), x) == (if x == LabelItem(CondTrue(c)) then 1 else 0)
    ensures Count(CondElse(c, v), x) == (if x == LabelItem(CondFalse(c)) then 1 else 0)
    ensures Count(CondExit(c, w, final), x) == (if x == LabelItem(CondEnd(c)) || x == TempItem(final) then 1 else 0)
  {
    CountShort([Alloca(ResultSlot(c), I32)], x);
    CountShort(CondChoice(c, test), x);
    CountShort(CondElse(c, v), x);
    CountShort(CondExit(c, w, final), x);
  }

  lemma CondCount(c: Counters, q: Expr, s: Expr, t: Expr, a: ExprCode, b: ExprCode, d: ExprCode, x: Item)
    ensures
      var di := GenToInt(d.c, t, d.r);
      Count(CondCode(c, q, s, t, a, b, d).code, x)
      == Count(a.code, x) + Count(GenTruth(a.c, q, a.r).code, x) + Count(b.code, x)
         + Count(GenToInt(b.c, s, b.r).code, x) + Count(d.code, x) + Count(di.code, x)
         + (if x in {LabelItem(CondTrue(c)), LabelItem(CondFalse(c)), LabelItem(CondEnd(c)),
                     SlotItem(ResultSlot(c)), TempItem(di.c.temps + 1)} then 1 else 0)
  {
    hide Count, CondChoice, CondElse, CondExit;
    var ab := GenTruth(a.c, q, a.r);
    var bi := GenToInt(b.c, s, b.r);
    var di := GenToInt(d.c, t, d.r);
    var second, third := CondChoice(c, ab.r), CondElse(c, OperandOf(s, bi.r));
    var last := CondExit(c, OperandOf(t, di.r), di.c.temps + 1);
    CondLines(c, ab.r, OperandOf(s, bi.r), OperandOf(t, di.r), di.c.temps + 1, x);
    var tail := bi.code + (third + (d.code + (di.code + last)));
    CountAppend5([Alloca(ResultSlot(c), I32)], a.code, ab.code, second, b.code + tail, x);
    CountAppend(b.code, tail, x);
    CountAppend5(bi.code, third, d.code, di.code, last, x);
  }

  lemma CondOnce(c: Counters, q: Expr, s: Expr, t: Expr, a: ExprCode, b: ExprCode, d: ExprCode, x: Item)
    requires ExprOnce(Reserve(c), a, x)
    requires ExprOnce(GenTruth(a.c, q, a.r).c, b, x)
    requires ExprOnce(GenToInt(b.c, s, b.r).c, d, x)
    ensures ExprOnce(c, CondCode(c, q, s, t, a, b, d), x)
  {
    hide Count;
    SmallOnce(a.c, q, a.r, x);
    SmallOnce(b.c, s, b.r, x);
    SmallOnce(d.c, t, d.r, x);
    CondCount(c, q, s, t, a, b, d, x);
  }

  lemma {:induction false} ExprDefinesOnce(t: Scopes<Symbol>, c: Counters, e: Expr, x: Item)
    ensures ExprOnce(c, GenExpr(t, c, e), x)
    decreases e, 1
  {
    match e
    case Number(_) =>
    case Var(y) => CountShort(LoadCode(c, Find(t, y)).code, x);
    case Binary(op, l, r) =>
      if op == LAnd || op == LOr {
        var a := GenExpr(t, Reserve(c), l);
        var c1 := GenTruth(a.c, l, a.r).c;
        ExprDefinesOnce(t, Reserve(c), l, x);
        ExprDefinesOnce(t, c1, r, x);
        LogicalOnce(c, op, l, r, a, GenExpr(t, c1, r), x);
      } else {
        var a := GenExpr(t, c, l);
        ExprDefinesOnce(t, c, l, x);
        ExprDefinesOnce(t, a.c, r, x);
        OperatorOnce(c, op, l, r, a, GenExpr(t, a.c, r), x);
      }
    case Assign(y, rhs) =>
      ExprDefinesOnce(t, c, rhs, x);
      AssignOnce(c, Find(t, y), rhs, GenExpr(t, c, rhs), x);
    case Unary(op, e1) =>
      if IsStep(op) {
        CountShort(GenExpr(t, c, e).code, x);
      } else {
        ExprDefinesOnce(t, c, e1, x);
        UnaryOnce(c, op, e1, GenExpr(t, c, e1), x);
      }
    case Cond(q, s, f) =>
      var a := GenExpr(t, Reserve(c), q);
      var c1 := GenTruth(a.c, q, a.r).c;
      var b := GenExpr(t, c1, s);
      var c2 := GenToInt(b.c, s, b.r).c;
      ExprDefinesOnce(t, Reserve(c), q, x);
      ExprDefinesOnce(t, c1, s, x);
      ExprDefinesOnce(t, c2, f, x);
      CondOnce(c, q, s, f, a, b, GenExpr(t, c2, f), x);
    case Call(f, args) =>
      ArgsDefineOnce(t, c, args, x);
      CallOnce(c, f, GenArgs(t, c, args), x);
  }

  lemma {:induction false} ArgsDefineOnce(t: Scopes<Symbol>, c: Counters, es: seq<Expr>, x: Item)
    ensures var g := GenArgs(t, c, es); DefinesOnce(g.code, x, c, 0, g.c, 0)
    decreases es, 0
  {
    if es != [] {
      var g := GenExpr(t, c, es[0]);
      ExprDefinesOnce(t, c, es[0], x);
      ArgsDefineOnce(t, g.c, es[1..], x);
      CountAppend(g.code, GenArgs(t, g.c, es[1..]).code, x);
    }
  }
}
