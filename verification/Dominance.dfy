/** Every use of a temporary or of a slot is dominated by its definition: on
    every path through the printed code, taken or not, the definition comes
    first.  One pass over the lines finds this out. */
module Dominance {
  import opened Ir
  import opened Options
  import opened Definitions
  import opened Blocks

  /** A temporary or a slot, with the type of what it holds. */
  datatype Typed = TypedTemp(t: int, ty: Type) | TypedSlot(s: Slot, ty: Type)

  function TempsOf(o: Operand, ty: Type): set<Typed> { if o.Tmp? then {TypedTemp(o.t, ty)} else {} }

  function ArgTemps(args: seq<Arg>): set<Typed> {
    if args == [] then {} else TempsOf(args[0].operand, I32) + ArgTemps(args[1..])
  }

  /** A slot at file scope is no value of the function. */
  function OwnSlot(s: Slot, ty: Type): set<Typed> { if s.Global? then {} else {TypedSlot(s, ty)} }

  /** The temporaries and slots that a line uses, with the types it takes them
      to have. */
  function Uses(i: Instr): set<Typed> {
    match i
    case CondBr(t, _, _) => {TypedTemp(t, I1)}
    case Store(ty, o, s) => TempsOf(o, ty) + OwnSlot(s, ty)
    case Load(_, ty, s) => OwnSlot(s, ty)
    case Arith(_, _, a, b) => TempsOf(a, I32) + TempsOf(b, I32)
    case Icmp(_, _, a, b) => TempsOf(a, I32) + TempsOf(b, I32)
    case Zext(_, t) => {TypedTemp(t, I1)}
    case Sext(_, t) => {TypedTemp(t, I1)}
    case CallI(_, _, args) => ArgTemps(args)
    case Ret(o) => TempsOf(o, I32)
    case _ => {}
  }

  /** What a line sets. */
  function Sets(i: Instr): (r: set<Typed>)
    ensures forall x :: x in r ==> Defines(i) == Some(Untyped(x))
  {
    match i
    case Alloca(s, ty) => {TypedSlot(s, ty)}
    case Load(t, ty, _) => {TypedTemp(t, ty)}
    case Arith(t, _, _, _) => {TypedTemp(t, I32)}
    case Icmp(t, _, _, _) => {TypedTemp(t, I1)}
    case Zext(t, _) => {TypedTemp(t, I32)}
    case Sext(t, _) => {TypedTemp(t, I32)}
    case CallI(t, _, _) => {TypedTemp(t, I32)}
    case _ => {}
  }

  function Untyped(x: Typed): Item { if x.TypedTemp? then TempItem(x.t) else SlotItem(x.s) }

  /** A literal or incoming argument of the type. */
  predicate LiteralFits(o: Operand, ty: Type) {
    match o
    case Tmp(_) => true
    case Flag(_) => ty == I1
    case _ => ty == I32
  }

  predicate FileSlotFits(s: Slot, ty: Type) { s.Global? ==> ty == I32 }

  predicate ArgsTyped(args: seq<Arg>) {
    forall k :: 0 <= k < |args| ==> args[k].ty == I32 && LiteralFits(args[k].operand, I32)
  }

  /** The types of what a line uses from elsewhere: literals, arguments, slots at
      file scope, parameters of a callee. */
  predicate LineTyped(i: Instr) {
    match i
    case Store(ty, o, s) => LiteralFits(o, ty) && FileSlotFits(s, ty)
    case Load(_, ty, s) => FileSlotFits(s, ty)
    case Arith(_, _, a, b) => LiteralFits(a, I32) && LiteralFits(b, I32)
    case Icmp(_, _, a, b) => LiteralFits(a, I32) && LiteralFits(b, I32)
    case CallI(_, _, args) => ArgsTyped(args)
    case Ret(o) => LiteralFits(o, I32)
    case _ => true
  }

  // ----- Paths -----

  /** The lines that control may reach from line i. */
  predicate Follows(code: seq<Instr>, i: nat, j: nat) {
    i < |code| &&
    match code[i]
    case Br(l) => j == FindLabel(code, l, 0)
    case CondBr(_, l, l') => j == FindLabel(code, l, 0) || j == FindLabel(code, l', 0)
    case Ret(_) => false
    case _ => j == i + 1
  }

  predicate IsPath(code: seq<Instr>, path: seq<nat>) {
    && path != [] && path[0] == 0
    && forall k :: 0 <= k < |path| - 1 ==> Follows(code, path[k], path[k + 1])
  }

  /** What is set on the way to the end of a path. */
  function SetOn(code: seq<Instr>, path: seq<nat>): set<Typed>
    requires forall k :: 0 <= k < |path| - 1 ==> path[k] < |code|
  {
    if |path| <= 1 then {} else SetOn(code, path[..|path| - 1]) + Sets(code[path[|path| - 2]])
  }

  // ----- One pass over the code -----

  /** What is set for sure, everything set in some line so far, what was set at
      every branch so far to a label or, once it was passed, behind it, the labels
      passed, and whether all was in order. */
  datatype Flow = Flow(
    ok: bool, avail: set<Typed>, seen: set<Typed>, at: map<Label, set<Typed>>, passed: set<Label>)

  function Aim(s: Flow, l: Label): Flow {
    if l in s.passed then s.(ok := s.ok && l in s.at && s.at[l] <= s.avail)
    else s.(at := s.at[l := if l in s.at then s.at[l] * s.avail else s.avail])
  }

  /** No branch so far reaches a label that is not in `at`. */
  function Land(s: Flow, l: Label): Flow {
    var a := if l in s.at then s.at[l] else s.seen;
    s.(avail := a, at := s.at[l := a], passed := s.passed + {l})
  }

  function Through(i: Instr, s: Flow): Flow {
    var s1 := s.(ok := s.ok && LineTyped(i) && Uses(i) <= s.avail);
    match i
    case LabelDef(l) => Land(s, l)
    case Br(l) => Aim(s1, l)
    case CondBr(_, l, l') => Aim(Aim(s1, l), l')
    case _ => s1.(avail := s.avail + Sets(i), seen := s.seen + Sets(i))
  }

  function Pass(code: seq<Instr>, s: Flow): Flow
    decreases code
  {
    if code == [] then s else Pass(code[1..], Through(code[0], s))
  }

  lemma {:induction false} PassAppend(a: seq<Instr>, b: seq<Instr>, s: Flow)
    ensures Pass(a + b, s) == Pass(b, Pass(a, s))
    decreases a
  {
    if a == [] {
      assert a + b == b;
    } else {
      assert (a + b)[1..] == a[1..] + b;
      PassAppend(a[1..], b, Through(a[0], s));
    }
  }

  lemma PassOne(i: Instr, s: Flow)
    ensures Pass([i], s) == Through(i, s)
  {
    assert [i][1..] == [];
  }

  lemma PassTwo(i: Instr, j: Instr, s: Flow)
    ensures Pass([i, j], s) == Through(j, Through(i, s))
  {
    assert [i, j] == [i] + [j];
    PassAppend([i], [j], s);
    PassOne(i, s);
    PassOne(j, Through(i, s));
  }

  lemma {:induction false} PassKeepsFault(code: seq<Instr>, s: Flow)
    requires !s.ok
    ensures !Pass(code, s).ok
    decreases code
  {
    if code != [] {
      PassKeepsFault(code[1..], Through(code[0], s));
    }
  }

  // ----- What the pass proves -----

  function Start(): Flow { Flow(true, {}, {}, map[], {}) }

  function Before(code: seq<Instr>, i: nat): Flow
    requires i <= |code|
  {
    Pass(code[..i], Start())
  }

  lemma BeforeNext(code: seq<Instr>, i: nat)
    requires i < |code|
    ensures Before(code, i + 1) == Through(code[i], Before(code, i))
  {
    assert code[..i + 1] == code[..i] + [code[i]];
    PassAppend(code[..i], [code[i]], Start());
    PassOne(code[i], Before(code, i));
  }

  lemma {:induction false} OkBefore(code: seq<Instr>, i: nat)
    requires i <= |code| && Pass(code, Start()).ok
    ensures Before(code, i).ok
  {
    assert code == code[..i] + code[i..];
    PassAppend(code[..i], code[i..], Start());
    if !Before(code, i).ok {
      PassKeepsFault(code[i..], Before(code, i));
    }
  }

  /** What is known at a label only shrinks, and not any more behind it. */
  lemma {:induction false} LabelShrinks(code: seq<Instr>, i: nat, j: nat, l: Label)
    requires i <= j <= |code| && l in Before(code, i).at
    ensures l in Before(code, j).at && Before(code, j).at[l] <= Before(code, i).at[l]
    ensures l in Before(code, i).passed ==>
              l in Before(code, j).passed && Before(code, j).at[l] == Before(code, i).at[l]
    decreases j
  {
    if i < j {
      LabelShrinks(code, i, j - 1, l);
      BeforeNext(code, j - 1);
      hide Before, Pass;
      AtShrinks(code[j - 1], Before(code, j - 1), l);
    }
  }

  lemma AtShrinks(i: Instr, s: Flow, l: Label)
    requires l in s.at
    ensures l in Through(i, s).at && Through(i, s).at[l] <= s.at[l]
    ensures l in s.passed ==> l in Through(i, s).passed && Through(i, s).at[l] == s.at[l]
  {
    hide Uses, LineTyped;
  }

  predicate BranchesTo(i: Instr, l: Label) {
    match i
    case Br(l1) => l == l1
    case CondBr(_, l1, l2) => l == l1 || l == l2
    case _ => false
  }

  lemma AimRecords(i: Instr, s: Flow, l: Label)
    requires BranchesTo(i, l) && Through(i, s).ok
    ensures l in Through(i, s).at && Through(i, s).at[l] <= s.avail
    ensures l in s.passed ==> l in s.at && s.at[l] <= s.avail
  {
    hide Uses, LineTyped;
  }

  lemma Landed(i: Instr, s: Flow, l: Label)
    requires i == LabelDef(l)
    ensures
      var s' := Through(i, s);
      l in s'.passed && l in s'.at && s'.at[l] == s'.avail && (l in s.at ==> s'.avail == s.at[l])
  {
  }

  /** Whoever branches to a label has set what is known behind it. */
  lemma BranchBrings(code: seq<Instr>, i: nat, l: Label)
    requires Pass(code, Start()).ok && i < |code| && BranchesTo(code[i], l)
    requires FindLabel(code, l, 0) < |code|
    ensures Before(code, FindLabel(code, l, 0) + 1).avail <= Before(code, i).avail
  {
    hide Before, Pass, Uses, LineTyped;
    var j := FindLabel(code, l, 0);
    BeforeNext(code, j);
    BeforeNext(code, i);
    OkBefore(code, i + 1);
    AimRecords(code[i], Before(code, i), l);
    Landed(code[j], Before(code, j), l);
    if j < i {
      LabelShrinks(code, j + 1, i, l);
    } else {
      LabelShrinks(code, i + 1, j, l);
    }
  }

  lemma LineSets(code: seq<Instr>, i: nat)
    requires i < |code| && !IsTerminator(code[i]) && !code[i].LabelDef?
    ensures Before(code, i + 1).avail == Before(code, i).avail + Sets(code[i])
  {
    BeforeNext(code, i);
  }

  /** No label is reached by falling into it. */
  predicate NoFallIn(code: seq<Instr>) {
    forall i :: 0 < i < |code| && code[i].LabelDef? ==> IsTerminator(code[i - 1])
  }

  /** What holds when control is about to run a line: at a label that it was
      branched to, what is known behind it was set. */
  function Known(code: seq<Instr>, i: nat): set<Typed>
    requires i <= |code|
  {
    if i < |code| && code[i].LabelDef? then Before(code, i + 1).avail else Before(code, i).avail
  }

  lemma StepKeeps(code: seq<Instr>, i: nat, j: nat)
    requires Pass(code, Start()).ok && NoFallIn(code) && Follows(code, i, j) && j < |code|
    ensures Known(code, j) <= Known(code, i) + Sets(code[i])
  {
    hide Before, Pass, Uses, LineTyped;
    match code[i]
    case Br(l) => BranchBrings(code, i, l);
    case CondBr(_, l, l') => BranchBrings(code, i, if j == FindLabel(code, l, 0) then l else l');
    case LabelDef(_) =>
    case _ => LineSets(code, i);
  }

  lemma {:induction false} PathSets(code: seq<Instr>, path: seq<nat>)
    requires Pass(code, Start()).ok && NoFallIn(code) && IsPath(code, path) && path[|path| - 1] < |code|
    requires code != [] && !code[0].LabelDef?
    ensures forall k :: 0 <= k < |path| ==> path[k] < |code|
    ensures Known(code, path[|path| - 1]) <= SetOn(code, path)
    decreases path
  {
    hide Pass, Known, Sets;
    var n := |path| - 1;
    if n == 0 {
      NothingKnown(code);
    } else {
      var front := path[..n];
      assert Follows(code, path[n - 1], path[n]);
      forall k | 0 <= k < |front| - 1
        ensures Follows(code, front[k], front[k + 1])
      {
        assert Follows(code, path[k], path[k + 1]);
      }
      PathSets(code, front);
      StepKeeps(code, path[n - 1], path[n]);
    }
  }

  lemma NothingKnown(code: seq<Instr>)
    requires code != [] && !code[0].LabelDef?
    ensures Known(code, 0) == {}
  {
    assert code[..0] == [];
  }

  lemma UsesKnown(code: seq<Instr>, i: nat)
    requires Pass(code, Start()).ok && i < |code|
    ensures Uses(code[i]) <= Known(code, i)
    ensures Uses(code[i]) <= Before(code, i).avail
    ensures LineTyped(code[i])
  {
    hide Pass;
    OkBefore(code, i + 1);
    BeforeNext(code, i);
    hide Before;
    UsesAvailable(code[i], Before(code, i));
  }

  lemma UsesAvailable(i: Instr, s: Flow)
    requires Through(i, s).ok
    ensures i.LabelDef? ==> Uses(i) == {}
    ensures Uses(i) <= s.avail && LineTyped(i)
  {
  }

  lemma {:induction false} SetSomewhere(code: seq<Instr>, path: seq<nat>, x: Typed) returns (k: nat)
    requires forall k :: 0 <= k < |path| ==> path[k] < |code|
    requires x in SetOn(code, path)
    ensures k < |path| - 1 && x in Sets(code[path[k]])
    decreases path
  {
    var n := |path| - 1;
    if x in SetOn(code, path[..n]) {
      k := SetSomewhere(code, path[..n], x);
    } else {
      k := n - 1;
    }
  }

  // ----- Every use has a definition -----

  /** All that is known was set in some line. */
  predicate Grounded(s: Flow) { s.avail <= s.seen && forall l :: l in s.at ==> s.at[l] <= s.seen }

  lemma StaysGrounded(i: Instr, s: Flow)
    requires Grounded(s)
    ensures Grounded(Through(i, s)) && Through(i, s).seen == s.seen + Sets(i)
  {
    hide Uses, LineTyped;
  }

  lemma {:induction false} SeenBefore(code: seq<Instr>, i: nat)
    requires i <= |code|
    ensures Grounded(Before(code, i))
    ensures forall x :: x in Before(code, i).seen ==> exists k :: 0 <= k < i && x in Sets(code[k])
    decreases i
  {
    hide Grounded, Through, Pass;
    if i == 0 {
      NothingSeen(code);
    } else {
      SeenBefore(code, i - 1);
      BeforeNext(code, i - 1);
      StaysGrounded(code[i - 1], Before(code, i - 1));
    }
  }

  lemma NothingSeen(code: seq<Instr>)
    ensures Before(code, 0).seen == {} && Grounded(Before(code, 0))
  {
    assert code[..0] == [];
  }

  /** Whatever a line uses, an earlier line defines, in a reachable block or
      not. */
  lemma UsedAreDefined(code: seq<Instr>, i: nat, x: Typed)
    requires Pass(code, Start()).ok && i < |code| && x in Uses(code[i])
    ensures exists k :: 0 <= k < i && x in Sets(code[k])
  {
    hide Before, Pass, Uses, LineTyped;
    UsesKnown(code, i);
    SeenBefore(code, i);
  }
}
