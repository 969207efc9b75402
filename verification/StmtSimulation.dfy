/** What holds before and after the code of a statement, and the steps between
    the parts of one. */
module StmtSimulation {
  import opened Options
  import opened Int32
  import opened Ast
  import opened Scopes
  import opened Source
  import opened Ir
  import opened Codegen
  import opened Definitions
  import opened Relation
  import opened Linking
  import opened ExprSimulation
  import opened Statements

  /** The frame is at position pc and memory shows the C variables.  No
      temporary is alive between statements. */
  ghost predicate Reaches(
    k: Link, t: Scopes<Symbol>, env: Env, pc: nat,
    fr: Frame, rest: seq<Saved>, mem: map<Slot, MemCell>, n: nat, fr': Frame, mem': map<Slot, MemCell>)
  {
    && Goes(k.mod, Active(fr, rest, mem), n, Active(fr', rest, mem'))
    && fr'.fn == fr.fn && fr'.incoming == fr.incoming && fr'.pc == pc
    && Match(env, t, fr'.slots, mem', k.fs)
  }

  /** A label a jump may go to is somewhere in the code. */
  ghost predicate Placed(code: seq<Instr>, l: Option<Label>) {
    l.Some? && FindLabel(code, l.value, 0) < |code|
  }

  ghost predicate StmtReady(
    k: Link, g: Context, inLoop: bool, env: Env, fr: Frame, mem: map<Slot, MemCell>, part: seq<Instr>)
  {
    && TableFits(g.table) && g.table.scopes.Inner?
    && fr.fn in k.mod && UniqueLabels(k.mod[fr.fn].code)
    && Match(env, g.table.scopes, fr.slots, mem, k.fs)
    && CodeAt(k.mod[fr.fn].code, fr.pc, part)
    && (inLoop ==> Placed(k.mod[fr.fn].code, g.breakLabel) && Placed(k.mod[fr.fn].code, g.continueLabel))
  }

  /** A statement that ends by jumping, returning or not at all: `break` gets to
      the end label of the innermost loop, `continue` to its continue label,
      `return v` returns v. */
  ghost predicate JumpSim(
    k: Link, fuel: nat, o: Outcome, t: Scopes<Symbol>, brk: Option<Label>, cont: Option<Label>,
    fr: Frame, rest: seq<Saved>, mem: map<Slot, MemCell>, n: nat, fr': Frame, mem': map<Slot, MemCell>)
  {
    match o
    case Normal(_) => true
    case Broke(env) =>
      fr.fn in k.mod && brk.Some?
        && Reaches(k, t, env, After(k.mod[fr.fn].code, brk.value), fr, rest, mem, n, fr', mem')
    case Continued(env) =>
      fr.fn in k.mod && cont.Some?
        && Reaches(k, t, env, After(k.mod[fr.fn].code, cont.value), fr, rest, mem, n, fr', mem')
    case Returned(v, env) =>
      Goes(k.mod, Active(fr, rest, mem), n, ReturnTo(rest, v, mem')) && GlobalsMatch(Globals(env), mem', k.fs)
    case Crashed(err) => Stopped(k.mod, fuel, Active(fr, rest, mem), Stop.Error(err), n)
    case Running => Stopped(k.mod, fuel, Active(fr, rest, mem), Endless, n)
  }

  /** A statement that completes gets to the end of its code, and only code
      that the generator does not take for closed completes. */
  ghost predicate StmtSim(
    k: Link, fuel: nat, o: Outcome, g: Context, x: StmtCode,
    fr: Frame, rest: seq<Saved>, mem: map<Slot, MemCell>, n: nat, fr': Frame, mem': map<Slot, MemCell>)
  {
    if o.Normal? then
      !x.g.inReturnBlock && Reaches(k, x.g.table.scopes, o.env, fr.pc + |x.code|, fr, rest, mem, n, fr', mem')
    else JumpSim(k, fuel, o, g.table.scopes, g.breakLabel, g.continueLabel, fr, rest, mem, n, fr', mem')
  }

  lemma ArrivesReaches(
    k: Link, t: Scopes<Symbol>, env: Env, c: Counters, pc: nat,
    fr: Frame, rest: seq<Saved>, mem: map<Slot, MemCell>, n: nat, fr': Frame, mem': map<Slot, MemCell>)
    requires Arrives(k, t, env, c, pc, fr, rest, mem, n, fr', mem')
    ensures Reaches(k, t, env, pc, fr, rest, mem, n, fr', mem')
  {
  }

  lemma ReachesThen(
    k: Link, t1: Scopes<Symbol>, env1: Env, pc1: nat, t2: Scopes<Symbol>, env2: Env, pc2: nat,
    fr: Frame, rest: seq<Saved>, mem: map<Slot, MemCell>, i: nat, fr1: Frame, mem1: map<Slot, MemCell>,
    j: nat, fr2: Frame, mem2: map<Slot, MemCell>)
    requires Reaches(k, t1, env1, pc1, fr, rest, mem, i, fr1, mem1)
    requires Reaches(k, t2, env2, pc2, fr1, rest, mem1, j, fr2, mem2)
    ensures Reaches(k, t2, env2, pc2, fr, rest, mem, i + j, fr2, mem2)
  {
    Then(k.mod, Active(fr, rest, mem), i, Active(fr1, rest, mem1), j, Active(fr2, rest, mem2));
  }

  /** A run up to some point and a jump from there. */
  lemma ReachesJump(
    k: Link, fuel: nat, o: Outcome, t: Scopes<Symbol>, brk: Option<Label>, cont: Option<Label>,
    t1: Scopes<Symbol>, env1: Env, pc1: nat,
    fr: Frame, rest: seq<Saved>, mem: map<Slot, MemCell>, i: nat, fr1: Frame, mem1: map<Slot, MemCell>,
    j: nat, fr2: Frame, mem2: map<Slot, MemCell>)
    requires Reaches(k, t1, env1, pc1, fr, rest, mem, i, fr1, mem1)
    requires JumpSim(k, fuel, o, t, brk, cont, fr1, rest, mem1, j, fr2, mem2)
    ensures JumpSim(k, fuel, o, t, brk, cont, fr, rest, mem, i + j, fr2, mem2)
  {
    hide Match, Steps, After, GlobalsMatch, Goes, Stopped;
    match o
    case Normal(_) =>
    case Broke(env) =>
      ReachesThen(k, t1, env1, pc1, t, env, After(k.mod[fr.fn].code, brk.value), fr, rest, mem, i, fr1, mem1, j, fr2,
                  mem2);
    case Continued(env) =>
      ReachesThen(k, t1, env1, pc1, t, env, After(k.mod[fr.fn].code, cont.value), fr, rest, mem, i, fr1, mem1, j, fr2,
                  mem2);
    case Returned(v, env) => Then(k.mod, Active(fr, rest, mem), i, Active(fr1, rest, mem1), j, ReturnTo(rest, v, mem2));
    case Crashed(err) =>
      ThenStopped(k.mod, fuel, Active(fr, rest, mem), i, Active(fr1, rest, mem1), Stop.Error(err), j);
    case Running => ThenStopped(k.mod, fuel, Active(fr, rest, mem), i, Active(fr1, rest, mem1), Endless, j);
  }

  /** Less fuel in the source buys one step of the machine. */
  lemma LoopJump(
    k: Link, fuel: nat, o: Outcome, t: Scopes<Symbol>, brk: Option<Label>, cont: Option<Label>,
    t1: Scopes<Symbol>, env1: Env, pc1: nat,
    fr: Frame, rest: seq<Saved>, mem: map<Slot, MemCell>, i: nat, fr1: Frame, mem1: map<Slot, MemCell>,
    j: nat, fr2: Frame, mem2: map<Slot, MemCell>)
    requires fuel > 0 && i > 0
    requires Reaches(k, t1, env1, pc1, fr, rest, mem, i, fr1, mem1)
    requires JumpSim(k, fuel - 1, o, t, brk, cont, fr1, rest, mem1, j, fr2, mem2)
    ensures JumpSim(k, fuel, o, t, brk, cont, fr, rest, mem, i + j, fr2, mem2)
  {
    hide Match, Steps, After, GlobalsMatch, FindLabel;
    ReachesJump(k, fuel - 1, o, t, brk, cont, t1, env1, pc1, fr, rest, mem, i, fr1, mem1, j, fr2, mem2);
  }

  /** An expression that stops stops the statement around it. */
  lemma ExprAborts(
    k: Link, fuel: nat, r: Result, t: Scopes<Symbol>, brk: Option<Label>, cont: Option<Label>,
    fr: Frame, rest: seq<Saved>, mem: map<Slot, MemCell>, n: nat, fr': Frame, mem': map<Slot, MemCell>)
    requires !r.Val?
    requires r.Wrong? ==> Stopped(k.mod, fuel, Active(fr, rest, mem), Stop.Error(r.error), n)
    requires r.OutOfFuel? ==> Stopped(k.mod, fuel, Active(fr, rest, mem), Endless, n)
    ensures JumpSim(k, fuel, Aborted(r), t, brk, cont, fr, rest, mem, n, fr', mem')
  {
  }

  lemma ZeroFuel(
    k: Link, t: Scopes<Symbol>, env: Env, pc: nat, t': Scopes<Symbol>, brk: Option<Label>, cont: Option<Label>,
    fr: Frame, rest: seq<Saved>, mem: map<Slot, MemCell>, n: nat, fr': Frame, mem': map<Slot, MemCell>)
    requires Reaches(k, t, env, pc, fr, rest, mem, n, fr', mem')
    ensures JumpSim(k, 0, Running, t', brk, cont, fr, rest, mem, n, fr', mem')
  {
  }

  // ----- Steps -----

  /** A branch to the label at position p. */
  lemma BrReaches(
    k: Link, t: Scopes<Symbol>, env: Env, l: Label, p: nat, fr: Frame, rest: seq<Saved>, mem: map<Slot, MemCell>)
    requires fr.fn in k.mod && UniqueLabels(k.mod[fr.fn].code) && Match(env, t, fr.slots, mem, k.fs)
    requires At(k, fr, fr.pc, Br(l)) && At(k, fr, p, LabelDef(l))
    ensures Reaches(k, t, env, p + 1, fr, rest, mem, 1, fr.(pc := p + 1), mem)
  {
    Executes(k, fr, rest, mem, Br(l));
    JumpLands(k.mod[fr.fn].code, l, p, fr, rest, mem);
  }

  lemma CondBrReaches(
    k: Link, t: Scopes<Symbol>, env: Env, r: int, b: bool, l1: Label, l2: Label, p: nat,
    fr: Frame, rest: seq<Saved>, mem: map<Slot, MemCell>)
    requires fr.fn in k.mod && UniqueLabels(k.mod[fr.fn].code) && Match(env, t, fr.slots, mem, k.fs)
    requires At(k, fr, fr.pc, CondBr(r, l1, l2)) && At(k, fr, p, LabelDef(if b then l1 else l2))
    requires ReadOperand(fr, I1, Tmp(r)) == Got(BoolV(b))
    ensures Reaches(k, t, env, p + 1, fr, rest, mem, 1, fr.(pc := p + 1), mem)
  {
    Executes(k, fr, rest, mem, CondBr(r, l1, l2));
    JumpLands(k.mod[fr.fn].code, if b then l1 else l2, p, fr, rest, mem);
  }

  /** A branch to a label that is somewhere in the code. */
  lemma JumpReaches(
    k: Link, t: Scopes<Symbol>, env: Env, l: Label, fr: Frame, rest: seq<Saved>, mem: map<Slot, MemCell>)
    requires fr.fn in k.mod && Match(env, t, fr.slots, mem, k.fs)
    requires At(k, fr, fr.pc, Br(l)) && Placed(k.mod[fr.fn].code, Some(l))
    ensures Reaches(k, t, env, After(k.mod[fr.fn].code, l), fr, rest, mem, 1, fr.(pc := After(k.mod[fr.fn].code, l)),
                    mem)
  {
    Executes(k, fr, rest, mem, Br(l));
  }

  lemma LabelPlaced(code: seq<Instr>, l: Label, p: nat)
    requires UniqueLabels(code) && p < |code| && code[p] == LabelDef(l)
    ensures Placed(code, Some(l)) && After(code, l) == p + 1
  {
    LabelFound(code, l, p);
  }

  /** The slot of a declared variable. */
  lemma DeclareReaches(
    k: Link, g: Context, x: string, env: Env, fr: Frame, rest: seq<Saved>, mem: map<Slot, MemCell>)
    returns (fr': Frame)
    requires TableFits(g.table) && g.table.scopes.Inner? && x !in g.table.scopes.vars
    requires fr.fn in k.mod && Match(env, g.table.scopes, fr.slots, mem, k.fs)
    requires At(k, fr, fr.pc, Alloca(SlotOf(NewSymbol(g.table, x, VariableSymbol, false)), I32))
    ensures Reaches(k, AddSymbol(g.table, x, VariableSymbol, false).scopes, Bind(env, x, Unset), fr.pc + 1,
                    fr, rest, mem, 1, fr', mem)
  {
    var sym := NewSymbol(g.table, x, VariableSymbol, false);
    Executes(k, fr, rest, mem, Alloca(SlotOf(sym), I32));
    fr' := Next(fr.(slots := fr.slots[SlotOf(sym) := Image(Unset)]));
    DeclareMatches(env, g.table.scopes, fr.slots, mem, k.fs, x, sym, Unset);
  }

  lemma RetReturns(k: Link, o: Operand, v: int32, fr: Frame, rest: seq<Saved>, mem: map<Slot, MemCell>)
    requires At(k, fr, fr.pc, Ret(o)) && ReadOperand(fr, I32, o) == Got(IntV(v))
    ensures Goes(k.mod, Active(fr, rest, mem), 1, ReturnTo(rest, v, mem))
  {
    Executes(k, fr, rest, mem, Ret(o));
  }

  // ----- Scopes -----

  lemma JumpOut(
    k: Link, fuel: nat, o: Outcome, t: Scopes<Symbol>, brk: Option<Label>, cont: Option<Label>,
    fr: Frame, rest: seq<Saved>, mem: map<Slot, MemCell>, n: nat, fr': Frame, mem': map<Slot, MemCell>)
    requires t.Inner? && JumpSim(k, fuel, o, t, brk, cont, fr, rest, mem, n, fr', mem')
    ensures JumpSim(k, fuel, Popped(o), t.outer, brk, cont, fr, rest, mem, n, fr', mem')
  {
  }

  // ----- Where the parts of a statement lie -----

  lemma CodeAtBracket(code: seq<Instr>, pc: nat, a: seq<Instr>, b: seq<Instr>, c: seq<Instr>, d: seq<Instr>)
    requires CodeAt(code, pc, a + (b + (c + d)))
    ensures CodeAt(code, pc, a) && CodeAt(code, pc + |a|, b + c) && CodeAt(code, pc + |a| + |b| + |c|, d)
  {
    hide CodeAt;
    CodeAtAppend(code, pc, a, b + (c + d));
    CodeAtAppend(code, pc + |a|, b, c + d);
    CodeAtAppend(code, pc + |a| + |b|, c, d);
    CodeAtJoin(code, pc + |a|, b, c);
  }

  lemma CodeAtThree(code: seq<Instr>, pc: nat, a: seq<Instr>, b: seq<Instr>, c: seq<Instr>)
    requires CodeAt(code, pc, a + (b + c))
    ensures CodeAt(code, pc, a) && CodeAt(code, pc + |a|, b) && CodeAt(code, pc + |a| + |b|, c)
  {
    hide CodeAt;
    CodeAtAppend(code, pc, a, b + c);
    CodeAtAppend(code, pc + |a|, b, c);
  }

  lemma IfLies(code: seq<Instr>, pc: nat, g: Context, x: ExprCode, a: StmtCode)
    returns (m: nat, q: nat)
    requires CodeAt(code, pc, IfCode(g, x, a).code)
    ensures CodeAt(code, pc, x.code)
    ensures m == pc + |x.code| && CodeAt(code, m, [CondBr(x.r, IfThen(g), IfEnd(g)), LabelDef(IfThen(g))])
    ensures CodeAt(code, m + 2, a.code + Closing(a.g.inReturnBlock, IfEnd(g)))
    ensures q == m + 2 + |a.code| + |Closing(a.g.inReturnBlock, IfEnd(g))| && CodeAt(code, q, [LabelDef(IfEnd(g))])
    ensures q + 1 == pc + |IfCode(g, x, a).code|
  {
    hide CodeAt, Closing;
    var choice, closing, last := [CondBr(x.r, IfThen(g), IfEnd(g)), LabelDef(IfThen(g))],
        Closing(a.g.inReturnBlock, IfEnd(g)), [LabelDef(IfEnd(g))];
    m := pc + |x.code|;
    q := m + 2 + |a.code| + |closing|;
    CodeAtAppend(code, pc, x.code, choice + (a.code + (closing + last)));
    CodeAtBracket(code, m, choice, a.code, closing, last);
  }

  lemma IfElseLies(code: seq<Instr>, pc: nat, g: Context, x: ExprCode, a: StmtCode, b: StmtCode)
    returns (m: nat, e: nat, q: nat)
    requires CodeAt(code, pc, IfElseCode(g, x, a, b).code)
    ensures CodeAt(code, pc, x.code)
    ensures m == pc + |x.code| && CodeAt(code, m, [CondBr(x.r, IfThen(g), IfElse(g)), LabelDef(IfThen(g))])
    ensures CodeAt(code, m + 2, a.code + Closing(a.g.inReturnBlock, IfEnd(g)))
    ensures e == m + 2 + |a.code| + |Closing(a.g.inReturnBlock, IfEnd(g))| && CodeAt(code, e, [LabelDef(IfElse(g))])
    ensures CodeAt(code, e + 1, b.code + Closing(b.g.inReturnBlock, IfEnd(g)))
    ensures q == e + 1 + |b.code| + |Closing(b.g.inReturnBlock, IfEnd(g))|
    ensures !(a.g.inReturnBlock && b.g.inReturnBlock) ==>
              CodeAt(code, q, [LabelDef(IfEnd(g))]) && q + 1 == pc + |IfElseCode(g, x, a, b).code|
  {
    hide CodeAt, Closing;
    var ends := a.g.inReturnBlock && b.g.inReturnBlock;
    var choice, last := [CondBr(x.r, IfThen(g), IfElse(g)), LabelDef(IfThen(g))],
        if ends then [] else [LabelDef(IfEnd(g))];
    var c1, c2 := Closing(a.g.inReturnBlock, IfEnd(g)), Closing(b.g.inReturnBlock, IfEnd(g));
    m := pc + |x.code|;
    e := m + 2 + |a.code| + |c1|;
    q := e + 1 + |b.code| + |c2|;
    var tail := [LabelDef(IfElse(g))] + (b.code + (c2 + last));
    CodeAtAppend(code, pc, x.code, choice + (a.code + (c1 + tail)));
    CodeAtBracket(code, m, choice, a.code, c1, tail);
    CodeAtBracket(code, e, [LabelDef(IfElse(g))], b.code, c2, last);
  }

  lemma WhileLies(code: seq<Instr>, pc: nat, g: Context, x: ExprCode, b: StmtCode)
    returns (m: nat, q: nat)
    requires CodeAt(code, pc, WhileCode(g, x, b).code)
    ensures CodeAt(code, pc, [Br(WhileCond(g)), LabelDef(WhileCond(g))]) && CodeAt(code, pc + 2, x.code)
    ensures m == pc + 2 + |x.code| && CodeAt(code, m, [CondBr(x.r, WhileBody(g), WhileEnd(g)), LabelDef(WhileBody(g))])
    ensures CodeAt(code, m + 2, b.code + Closing(b.g.inReturnBlock, WhileCond(g)))
    ensures q == m + 2 + |b.code| + |Closing(b.g.inReturnBlock, WhileCond(g))|
            && CodeAt(code, q, [LabelDef(WhileEnd(g))])
    ensures q + 1 == pc + |WhileCode(g, x, b).code|
  {
    hide CodeAt, Closing;
    var first, choice := [Br(WhileCond(g)), LabelDef(WhileCond(g))],
        [CondBr(x.r, WhileBody(g), WhileEnd(g)), LabelDef(WhileBody(g))];
    var closing, last := Closing(b.g.inReturnBlock, WhileCond(g)), [LabelDef(WhileEnd(g))];
    m := pc + 2 + |x.code|;
    q := m + 2 + |b.code| + |closing|;
    CodeAtThree(code, pc, first, x.code, choice + (b.code + (closing + last)));
    CodeAtBracket(code, m, choice, b.code, closing, last);
  }

  lemma DoLies(code: seq<Instr>, pc: nat, g: Context, b: StmtCode, x: ExprCode)
    returns (m: nat, q: nat)
    requires CodeAt(code, pc, DoCode(g, b, x).code)
    ensures CodeAt(code, pc, [Br(DoBody(g)), LabelDef(DoBody(g))])
    ensures CodeAt(code, pc + 2, b.code + Closing(b.g.inReturnBlock, DoCond(g)))
    ensures m == pc + 2 + |b.code| + |Closing(b.g.inReturnBlock, DoCond(g))| && CodeAt(code, m, [LabelDef(DoCond(g))])
    ensures CodeAt(code, m + 1, x.code)
    ensures q == m + 1 + |x.code| && CodeAt(code, q, [CondBr(x.r, DoBody(g), DoEnd(g)), LabelDef(DoEnd(g))])
    ensures q + 2 == pc + |DoCode(g, b, x).code|
  {
    hide CodeAt, Closing;
    var first, closing := [Br(DoBody(g)), LabelDef(DoBody(g))], Closing(b.g.inReturnBlock, DoCond(g));
    var last := [CondBr(x.r, DoBody(g), DoEnd(g)), LabelDef(DoEnd(g))];
    m := pc + 2 + |b.code| + |closing|;
    q := m + 1 + |x.code|;
    var tail := [LabelDef(DoCond(g))] + (x.code + last);
    CodeAtBracket(code, pc, first, b.code, closing, tail);
    CodeAtThree(code, m, [LabelDef(DoCond(g))], x.code, last);
  }

  lemma ForLies(code: seq<Instr>, pc: nat, g: Context, i: StmtCode, x: ExprCode, b: StmtCode, y: ExprCode)
    returns (h: nat, m: nat, u: nat, q: nat)
    requires CodeAt(code, pc, ForCode(g, i, x, b, y).code)
    ensures CodeAt(code, pc, i.code)
    ensures h == pc + |i.code| && CodeAt(code, h, [Br(ForCond(g)), LabelDef(ForCond(g))]) && CodeAt(code, h + 2, x.code)
    ensures m == h + 2 + |x.code| && CodeAt(code, m, [LabelDef(ForBody(g))])
    ensures CodeAt(code, m + 1, b.code + Closing(b.g.inReturnBlock, ForUpdate(g)))
    ensures u == m + 1 + |b.code| + |Closing(b.g.inReturnBlock, ForUpdate(g))|
            && CodeAt(code, u, [LabelDef(ForUpdate(g))])
    ensures CodeAt(code, u + 1, y.code)
    ensures q == u + 1 + |y.code| && CodeAt(code, q, [Br(ForCond(g)), LabelDef(ForEnd(g))])
    ensures q + 2 == pc + |ForCode(g, i, x, b, y).code|
  {
    hide CodeAt, Closing;
    var first, closing := [Br(ForCond(g)), LabelDef(ForCond(g))], Closing(b.g.inReturnBlock, ForUpdate(g));
    var last := [Br(ForCond(g)), LabelDef(ForEnd(g))];
    var tail := [LabelDef(ForUpdate(g))] + (y.code + last);
    var rest := [LabelDef(ForBody(g))] + (b.code + (closing + tail));
    h, m, u, q := ForParts(code, pc, i.code, first, x.code, [LabelDef(ForBody(g))], b.code, closing,
                           [LabelDef(ForUpdate(g))], y.code, last);
  }

  lemma ForParts(
    code: seq<Instr>, pc: nat, i: seq<Instr>, first: seq<Instr>, x: seq<Instr>, body: seq<Instr>, b: seq<Instr>,
    closing: seq<Instr>, update: seq<Instr>, y: seq<Instr>, last: seq<Instr>)
    returns (h: nat, m: nat, u: nat, q: nat)
    requires CodeAt(code, pc, i + (first + (x + (body + (b + (closing + (update + (y + last))))))))
    ensures CodeAt(code, pc, i)
    ensures h == pc + |i| && CodeAt(code, h, first) && CodeAt(code, h + |first|, x)
    ensures m == h + |first| + |x| && CodeAt(code, m, body) && CodeAt(code, m + |body|, b + closing)
    ensures u == m + |body| + |b| + |closing| && CodeAt(code, u, update) && CodeAt(code, u + |update|, y)
    ensures q == u + |update| + |y| && CodeAt(code, q, last)
  {
    hide CodeAt;
    h := pc + |i|;
    m := h + |first| + |x|;
    u := m + |body| + |b| + |closing|;
    q := u + |update| + |y|;
    var tail := update + (y + last);
    CodeAtAppend(code, pc, i, first + (x + (body + (b + (closing + tail)))));
    CodeAtThree(code, h, first, x, body + (b + (closing + tail)));
    CodeAtBracket(code, m, body, b, closing, tail);
    CodeAtThree(code, u, update, y, last);
  }

  // ----- Bodies -----

  /** A body, and the branch that closes its block if the body did not. */
  lemma ClosedReaches(
    k: Link, fuel: nat, o: Outcome, g: Context, x: StmtCode, l: Label, p: nat,
    fr: Frame, rest: seq<Saved>, mem: map<Slot, MemCell>, i: nat, fr1: Frame, mem1: map<Slot, MemCell>)
    returns (n: nat, fr': Frame, mem': map<Slot, MemCell>)
    requires StmtSim(k, fuel, o, g, x, fr, rest, mem, i, fr1, mem1)
    requires fr.fn in k.mod && UniqueLabels(k.mod[fr.fn].code) && (!x.g.inReturnBlock ==> At(k, fr, p, LabelDef(l)))
    requires CodeAt(k.mod[fr.fn].code, fr.pc, x.code + Closing(x.g.inReturnBlock, l))
    ensures
      if o.Normal? then !x.g.inReturnBlock && Reaches(k, x.g.table.scopes, o.env, p + 1, fr, rest, mem, n, fr', mem')
      else JumpSim(k, fuel, o, g.table.scopes, g.breakLabel, g.continueLabel, fr, rest, mem, n, fr', mem')
  {
    hide Match, Steps, CodeAt, FindLabel;
    n, fr', mem' := i, fr1, mem1;
    if o.Normal? {
      CodeAtAppend(k.mod[fr.fn].code, fr.pc, x.code, [Br(l)]);
      CodeAtLines(k.mod[fr.fn].code, fr1.pc, [Br(l)]);
      BrReaches(k, x.g.table.scopes, o.env, l, p, fr1, rest, mem1);
      fr' := fr1.(pc := p + 1);
      ReachesThen(k, x.g.table.scopes, o.env, fr1.pc, x.g.table.scopes, o.env, p + 1, fr, rest, mem, i, fr1, mem1, 1,
                  fr', mem1);
      n := i + 1;
    }
  }

  lemma PushMatches(
    env: Env, t: Scopes<Symbol>, slots: map<Slot, MemCell>, mem: map<Slot, MemCell>, fs: map<string, Symbol>)
    requires Match(env, t, slots, mem, fs)
    ensures Match(Push(env), Push(t), slots, mem, fs)
  {
  }

  /** A scope's variables are forgotten at its end. */
  lemma ReachesOut(
    k: Link, t: Scopes<Symbol>, env: Env, pc: nat,
    fr: Frame, rest: seq<Saved>, mem: map<Slot, MemCell>, n: nat, fr': Frame, mem': map<Slot, MemCell>)
    requires t.Inner? && Reaches(k, t, env, pc, fr, rest, mem, n, fr', mem')
    ensures Reaches(k, t.outer, Pop(env), pc, fr, rest, mem, n, fr', mem')
  {
  }

  /** A part of a statement starts where an earlier part ends. */
  lemma Resumes(
    k: Link, g: Context, g1: Context, inLoop: bool, inLoop1: bool, env: Env, env1: Env, pc: nat,
    fr: Frame, rest: seq<Saved>, mem: map<Slot, MemCell>, part: seq<Instr>,
    n: nat, fr1: Frame, mem1: map<Slot, MemCell>, part1: seq<Instr>)
    requires StmtReady(k, g, inLoop, env, fr, mem, part)
    requires Reaches(k, g.table.scopes, env1, pc, fr, rest, mem, n, fr1, mem1)
    requires CodeAt(k.mod[fr.fn].code, pc, part1)
    requires g1.table.scopes == g.table.scopes && g1.table.uid >= g.table.uid
    requires inLoop1 ==> Placed(k.mod[fr.fn].code, g1.breakLabel) && Placed(k.mod[fr.fn].code, g1.continueLabel)
    ensures StmtReady(k, g1, inLoop1, env1, fr1, mem1, part1)
  {
  }

  lemma LoopPlaced(k: Link, g: Context, inLoop: bool, env: Env, fr: Frame, mem: map<Slot, MemCell>, part: seq<Instr>)
    requires StmtReady(k, g, inLoop, env, fr, mem, part)
    ensures inLoop ==> Placed(k.mod[fr.fn].code, g.breakLabel) && Placed(k.mod[fr.fn].code, g.continueLabel)
    ensures fr.fn in k.mod && UniqueLabels(k.mod[fr.fn].code) && CodeAt(k.mod[fr.fn].code, fr.pc, part)
    ensures Ready(k, g.table.scopes, env, fr, mem, part)
  {
  }

  /** The assignment of a literal. */
  lemma LiteralStored(
    k: Link, t: Scopes<Symbol>, env: Env, c: Counters, e: Expr, x: ExprCode, fr: Frame, rest: seq<Saved>,
    mem: map<Slot, MemCell>)
    returns (fr': Frame, mem': map<Slot, MemCell>)
    requires e.Assign? && e.rhs.Number? && IsVariable(t, e.name) && x == GenExpr(t, c, e) && GlobalsOk(k.fs)
    requires Ready(k, t, env, fr, mem, x.code)
    ensures Find(env, e.name).Some?
    ensures Reaches(k, t, Update(env, e.name, Held(e.rhs.value)), fr.pc + |x.code|, fr, rest, mem, 1, fr', mem')
  {
    hide Match, TableOk, Steps;
    var store := [Store(I32, Imm(e.rhs.value), SlotOf(Find(t, e.name).value))];
    assert x.code == store;
    fr', mem' := StoreArrives(k, t, env, c, e.name, Imm(e.rhs.value), e.rhs.value, fr, rest, mem);
  }

  // ----- Loops -----

  /** How a loop goes on after its body: at cp after completion or `continue`,
      at q after `break`. */
  ghost predicate BodySim(
    k: Link, fuel: nat, o: Outcome, g: Context, cp: nat, q: nat,
    fr: Frame, rest: seq<Saved>, mem: map<Slot, MemCell>, n: nat, fr': Frame, mem': map<Slot, MemCell>)
  {
    match o
    case Normal(env) => Reaches(k, g.table.scopes, env, cp, fr, rest, mem, n, fr', mem')
    case Continued(env) => Reaches(k, g.table.scopes, env, cp, fr, rest, mem, n, fr', mem')
    case Broke(env) => Reaches(k, g.table.scopes, env, q, fr, rest, mem, n, fr', mem')
    case _ => JumpSim(k, fuel, o, g.table.scopes, g.breakLabel, g.continueLabel, fr, rest, mem, n, fr', mem')
  }

  /** Inside the body `break` and `continue` mean this loop. */
  lemma BodyEnds(
    k: Link, fuel: nat, o: Outcome, g: Context, brk: Label, cont: Label, cp: nat, q: nat,
    fr: Frame, rest: seq<Saved>, mem: map<Slot, MemCell>, n: nat, fr': Frame, mem': map<Slot, MemCell>)
    requires fr.fn in k.mod && UniqueLabels(k.mod[fr.fn].code)
    requires At(k, fr, cp, LabelDef(cont)) && At(k, fr, q, LabelDef(brk))
    requires if o.Normal? then Reaches(k, g.table.scopes, o.env, cp + 1, fr, rest, mem, n, fr', mem')
             else JumpSim(k, fuel, o, g.table.scopes, Some(brk), Some(cont), fr, rest, mem, n, fr', mem')
    ensures BodySim(k, fuel, o, g, cp + 1, q + 1, fr, rest, mem, n, fr', mem')
  {
    hide Match, Steps, FindLabel, UniqueLabels;
    LabelPlaced(k.mod[fr.fn].code, brk, q);
    LabelPlaced(k.mod[fr.fn].code, cont, cp);
  }

  /** A run up to the body and the body. */
  lemma ReachesBody(
    k: Link, fuel: nat, o: Outcome, g: Context, cp: nat, q: nat, t1: Scopes<Symbol>, env1: Env, pc1: nat,
    fr: Frame, rest: seq<Saved>, mem: map<Slot, MemCell>, i: nat, fr1: Frame, mem1: map<Slot, MemCell>,
    j: nat, fr2: Frame, mem2: map<Slot, MemCell>)
    requires Reaches(k, t1, env1, pc1, fr, rest, mem, i, fr1, mem1)
    requires BodySim(k, fuel, o, g, cp, q, fr1, rest, mem1, j, fr2, mem2)
    ensures BodySim(k, fuel, o, g, cp, q, fr, rest, mem, i + j, fr2, mem2)
  {
    hide Match, Steps, After, GlobalsMatch, Goes, Stopped, Reaches, JumpSim;
    match o
    case Normal(env) =>
      ReachesThen(k, t1, env1, pc1, g.table.scopes, env, cp, fr, rest, mem, i, fr1, mem1, j, fr2, mem2);
    case Continued(env) =>
      ReachesThen(k, t1, env1, pc1, g.table.scopes, env, cp, fr, rest, mem, i, fr1, mem1, j, fr2, mem2);
    case Broke(env) => ReachesThen(k, t1, env1, pc1, g.table.scopes, env, q, fr, rest, mem, i, fr1, mem1, j, fr2, mem2);
    case _ =>
      ReachesJump(k, fuel, o, g.table.scopes, g.breakLabel, g.continueLabel, t1, env1, pc1, fr, rest, mem, i, fr1,
                  mem1, j, fr2, mem2);
  }

  /** The rest of a loop, after at least one step of the machine. */
  ghost predicate LoopSim(
    k: Link, fuel: nat, o: Outcome, g: Context, q: nat,
    fr: Frame, rest: seq<Saved>, mem: map<Slot, MemCell>, n: nat, fr': Frame, mem': map<Slot, MemCell>)
  {
    if o.Normal? then Reaches(k, g.table.scopes, o.env, q, fr, rest, mem, n, fr', mem')
    else JumpSim(k, fuel, o, g.table.scopes, g.breakLabel, g.continueLabel, fr, rest, mem, n, fr', mem')
  }

  lemma LoopsOn(
    k: Link, fuel: nat, o: Outcome, g: Context, q: nat, env1: Env, pc1: nat,
    fr: Frame, rest: seq<Saved>, mem: map<Slot, MemCell>, i: nat, fr1: Frame, mem1: map<Slot, MemCell>,
    j: nat, fr2: Frame, mem2: map<Slot, MemCell>)
    requires fuel > 0 && i > 0
    requires Reaches(k, g.table.scopes, env1, pc1, fr, rest, mem, i, fr1, mem1)
    requires LoopSim(k, fuel - 1, o, g, q, fr1, rest, mem1, j, fr2, mem2)
    ensures LoopSim(k, fuel, o, g, q, fr, rest, mem, i + j, fr2, mem2)
  {
    hide Match, Steps, After, GlobalsMatch, Goes, Stopped, Reaches, JumpSim;
    if o.Normal? {
      ReachesThen(k, g.table.scopes, env1, pc1, g.table.scopes, o.env, q, fr, rest, mem, i, fr1, mem1, j, fr2, mem2);
    } else {
      LoopJump(k, fuel, o, g.table.scopes, g.breakLabel, g.continueLabel, g.table.scopes, env1, pc1,
               fr, rest, mem, i, fr1, mem1, j, fr2, mem2);
    }
  }
}
