/** The code of statements and functions passes the check of Dominance. */
module StmtAvailability {
  import opened Options
  import opened Ast
  import opened Scopes
  import opened Ir
  import opened Codegen
  import opened Linking
  import opened Statements
  import opened Blocks
  import opened Functions
  import opened Programs
  import opened Dominance
  import opened Availability

  // ----- What a statement may do to the labels around it -----

  /** The labels numbered up to n are as they were. */
  predicate Local(s: Flow, s': Flow, n: nat) {
    && s.seen <= s'.seen
    && s.passed <= s'.passed && (forall l :: l in s'.passed ==> l in s.passed || l.id > n)
    && (forall l :: l in s.at ==> l in s'.at)
    && (forall l :: l in s'.at && l.id <= n ==> l in s.at && s'.at[l] == s.at[l])
  }

  /** A label numbered up to n was at most branched to, where everything set in s
      is set, and a passed one is as it was. */
  predicate Outer(s: Flow, s': Flow, n: nat) {
    && s.seen <= s'.seen
    && s.passed <= s'.passed && (forall l :: l in s'.passed ==> l in s.passed || l.id > n)
    && (forall l :: l in s.at ==> l in s'.at)
    && (forall l :: l in s.passed && l in s.at ==> s'.at[l] == s.at[l])
    && (forall l :: l in s'.at && l.id <= n && l !in s.passed ==>
          (if l in s.at then s.at[l] * s.avail else s.avail) <= s'.at[l])
  }

  lemma AddsLocal(s: Flow, s': Flow, n: nat)
    requires Adds(s, s', n)
    ensures Local(s, s', n)
  {
  }

  lemma LocalOuter(s: Flow, s': Flow, n: nat)
    requires Local(s, s', n) && Starts(s, n)
    ensures Outer(s, s', n)
  {
  }

  lemma LocalThen(s: Flow, s1: Flow, s2: Flow, n: nat, n1: nat)
    requires Local(s, s1, n) && Local(s1, s2, n1) && n <= n1
    ensures Local(s, s2, n)
  {
  }

  /** What happens behind a state in which at least as much is set. */
  lemma OuterThen(s: Flow, s1: Flow, s2: Flow, n: nat, n1: nat)
    requires Starts(s, n) && Outer(s, s1, n) && Outer(s1, s2, n1) && n <= n1 && s.avail <= s1.avail
    ensures Outer(s, s2, n)
  {
  }

  lemma OuterLocal(s: Flow, s1: Flow, s2: Flow, n: nat, n1: nat)
    requires Outer(s, s1, n) && Local(s1, s2, n1) && n <= n1 && Starts(s, n)
    ensures Outer(s, s2, n)
  {
  }

  /** If control goes on behind the code, everything set before it is set. */
  predicate Keeps(s: Flow, s': Flow, n: nat, n': nat, closed: bool) {
    n <= n' && Starts(s', n') && Outer(s, s', n) && (closed || s.avail <= s'.avail)
  }

  lemma KeepsMeans(s: Flow, s': Flow, n: nat, n': nat, closed: bool)
    requires Keeps(s, s', n, n', closed)
    ensures n <= n' && Starts(s', n') && Outer(s, s', n) && (closed || s.avail <= s'.avail)
  {
  }

  lemma FlowsKeep(s: Flow, code: seq<Instr>, n: nat, n': nat)
    requires Flows(s, code, n, n') && Starts(s, n)
    ensures Keeps(s, Pass(code, s), n, n', false)
    ensures Local(s, Pass(code, s), n)
  {
    hide Pass, Starts, Outer, Local, Adds;
    FlowsMeans(s, code, n, n');
    AddsLocal(s, Pass(code, s), n);
    LocalOuter(s, Pass(code, s), n);
  }

  /** The loop labels can be branched to: a passed one knows no more than what is
      set. */
  predicate Reachable(s: Flow, l: Option<Label>, n: nat) {
    l.Some? ==> l.value.id <= n && (l.value in s.passed ==> l.value in s.at && s.at[l.value] <= s.avail)
  }

  predicate Jumps(s: Flow, g: Context) {
    Reachable(s, g.breakLabel, g.c.labels) && Reachable(s, g.continueLabel, g.c.labels)
  }

  lemma StillReachable(s: Flow, s': Flow, l: Option<Label>, n: nat, n': nat)
    requires Reachable(s, l, n) && Outer(s, s', n) && s.avail <= s'.avail && n <= n'
    ensures Reachable(s', l, n')
  {
  }

  lemma JumpsKept(s: Flow, s': Flow, g: Context, g': Context)
    requires Jumps(s, g) && Outer(s, s', g.c.labels) && s.avail <= s'.avail && g.c.labels <= g'.c.labels
    requires g'.breakLabel == g.breakLabel && g'.continueLabel == g.continueLabel
    ensures Jumps(s', g')
  {
    hide Reachable, Outer;
    StillReachable(s, s', g.breakLabel, g.c.labels, g'.c.labels);
    StillReachable(s, s', g.continueLabel, g.c.labels, g'.c.labels);
  }

  // ----- Labels and branches of statements -----

  /** A branch to a loop label. */
  lemma JumpKeeps(s: Flow, l: Label, n: nat)
    requires Starts(s, n) && Reachable(s, Some(l), n)
    ensures Starts(Pass([Br(l)], s), n) && Outer(s, Pass([Br(l)], s), n)
  {
    PassOne(Br(l), s);
  }

  /** Into a new block: a branch to its label and the label. */
  lemma EnterBlock(s: Flow, l: Label, n: nat, n': nat)
    requires Starts(s, n') && New(s, l) && n < l.id <= n'
    ensures
      var s' := Pass([Br(l), LabelDef(l)], s);
      && s' == s.(at := s.at[l := s.avail], passed := s.passed + {l})
      && Starts(s', n') && Local(s, s', n)
  {
    var s1 := s.(at := s.at[l := s.avail]);
    PassTwo(Br(l), LabelDef(l), s);
    assert Through(Br(l), s) == s1 && s1.at[l := s.avail] == s1.at;
  }

  function AfterFork(s: Flow, l: Label, l': Label): Flow {
    s.(at := s.at[l := s.avail][l' := s.avail], passed := s.passed + {l})
  }

  /** A test between two new labels, and the block of the first. */
  lemma ForkPass(s: Flow, t: int, l: Label, l': Label, n: nat, n': nat)
    requires Starts(s, n') && TypedTemp(t, I1) in s.avail && New(s, l) && New(s, l') && l != l'
    requires n < l.id <= n' && n < l'.id <= n'
    ensures Pass([CondBr(t, l, l'), LabelDef(l)], s) == AfterFork(s, l, l')
    ensures Starts(AfterFork(s, l, l'), n') && Local(s, AfterFork(s, l, l'), n)
  {
    var s1 := s.(at := s.at[l := s.avail][l' := s.avail]);
    PassTwo(CondBr(t, l, l'), LabelDef(l), s);
    assert Through(CondBr(t, l, l'), s) == s1 && s1.at[l := s.avail] == s1.at;
  }

  /** At every branch to l so far at least lo was set. */
  predicate AtLeast(s: Flow, l: Label, lo: set<Typed>) {
    l !in s.passed && (l in s.at ==> lo <= s.at[l])
  }

  lemma StillAtLeast(s: Flow, s': Flow, l: Label, lo: set<Typed>, n: nat)
    requires Outer(s, s', n) && l.id <= n && AtLeast(s, l, lo) && lo <= s.avail
    ensures AtLeast(s', l, lo)
  {
  }

  lemma LocalAtLeast(s: Flow, s': Flow, l: Label, lo: set<Typed>, n: nat)
    requires Local(s, s', n) && l.id <= n && AtLeast(s, l, lo)
    ensures AtLeast(s', l, lo)
  {
  }

  /** A branch to l, seen from another label l'. */
  lemma AimKeeps(s: Flow, l: Label, l': Label, lo: set<Typed>, m: nat, n: nat)
    requires Starts(s, n) && m < l.id && Reachable(s, Some(l), n) && AtLeast(s, l', lo) && (l != l' || lo <= s.avail)
    ensures
      var s' := Through(Br(l), s);
      && Starts(s', n) && Local(s, s', m) && s'.avail == s.avail && s'.seen == s.seen && s'.passed == s.passed
      && AtLeast(s', l', lo)
      && (forall k :: k != l ==> (k in s'.at <==> k in s.at) && (k in s.at ==> s'.at[k] == s.at[k]))
      && (l in s.passed && l in s.at ==> l in s'.at && s'.at[l] == s.at[l])
      && (AtLeast(s, l, lo) && lo <= s.avail ==> AtLeast(s', l, lo))
  {
  }

  lemma LandKeeps(s: Flow, l: Label, lo: set<Typed>, m: nat, n: nat)
    requires Starts(s, n) && m < l.id <= n && AtLeast(s, l, lo) && lo <= s.seen
    ensures
      var s' := Through(LabelDef(l), s);
      && Starts(s', n) && Local(s, s', m) && lo <= s'.avail && s'.seen == s.seen && s'.passed == s.passed + {l}
      && (forall k :: k != l ==> (k in s'.at <==> k in s.at) && (k in s.at ==> s'.at[k] == s.at[k]))
  {
  }

  /** The end of a block, which may have closed itself, and the label of the
      next. */
  lemma CloseThenLand(s: Flow, closed: bool, l: Label, l': Label, lo: set<Typed>, m: nat, n: nat)
    requires Starts(s, n) && m < l.id <= n && m < l'.id <= n && AtLeast(s, l', lo) && lo <= s.seen
    requires closed || Reachable(s, Some(l), n)
    requires closed || l != l' || lo <= s.avail
    ensures
      var s' := Pass(Closing(closed, l) + [LabelDef(l')], s);
      && Starts(s', n) && Local(s, s', m) && lo <= s'.avail && s.seen == s'.seen
      && s'.passed == s.passed + {l'}
      && (forall k :: k != l && k != l' ==> (k in s'.at <==> k in s.at) && (k in s.at ==> s'.at[k] == s.at[k]))
      && (l in s.passed && l in s.at && l != l' ==> l in s'.at && s'.at[l] == s.at[l])
      && (l !in s.passed && l != l' && AtLeast(s, l, lo) && (closed || lo <= s.avail) ==> AtLeast(s', l, lo))
  {
    hide Pass, Through, Starts, Local, Reachable;
    if closed {
      assert Closing(closed, l) + [LabelDef(l')] == [LabelDef(l')];
      PassOne(LabelDef(l'), s);
      LandKeeps(s, l', lo, m, n);
    } else {
      assert Closing(closed, l) + [LabelDef(l')] == [Br(l), LabelDef(l')];
      PassTwo(Br(l), LabelDef(l'), s);
      AimKeeps(s, l, l', lo, m, n);
      LandKeeps(Through(Br(l), s), l', lo, m, n);
      LocalThen(s, Through(Br(l), s), Through(LabelDef(l'), Through(Br(l), s)), m, m);
    }
  }

  /** A test that goes back to a passed label or on behind a new one. */
  lemma BackFork(s: Flow, t: int, l: Label, l': Label, lo: set<Typed>, m: nat, n: nat)
    requires Starts(s, n) && TypedTemp(t, I1) in s.avail && m < l.id <= n && m < l'.id <= n && l != l'
    requires l in s.passed && l in s.at && s.at[l] <= s.avail && AtLeast(s, l', lo) && lo <= s.avail
    ensures
      var s' := Pass([CondBr(t, l, l'), LabelDef(l')], s);
      Starts(s', n) && Local(s, s', m) && lo <= s'.avail
  {
    PassTwo(CondBr(t, l, l'), LabelDef(l'), s);
  }

  lemma PassAppend3(a: seq<Instr>, b: seq<Instr>, c: seq<Instr>, s: Flow)
    ensures Pass(a + (b + c), s) == Pass(c, Pass(b, Pass(a, s)))
  {
    PassAppend(a, b + c, s);
    PassAppend(b, c, Pass(a, s));
  }

  // ----- Expressions in statements -----

  lemma TestPasses(t: Scopes<Symbol>, s: Flow, c: Counters, e: Expr)
    requires Starts(s, c.labels) && Visible(t, s.avail) && InFragment(e) && Resolved(t, e)
    ensures
      var x := GenTest(t, c, e);
      Flows(s, x.code, c.labels, x.c.labels) && TypedTemp(x.r, I1) in Pass(x.code, s).avail
  {
    hide Pass, Starts, Flows, Visible, Adds, GenExpr, GenTruth;
    var x := GenExpr(t, c, e);
    var xb := GenTruth(x.c, e, x.r);
    ExprPasses(t, s, c, e);
    FlowsMeans(s, x.code, c.labels, x.c.labels);
    TruthFlows(Pass(x.code, s), x.c, e, x.r);
    FlowsThen(s, x.code, xb.code, c.labels, x.c.labels, xb.c.labels);
  }

  lemma EffectPasses(t: Scopes<Symbol>, s: Flow, c: Counters, e: Expr)
    requires Starts(s, c.labels) && Visible(t, s.avail) && Discardable(e) && Resolved(t, e)
    ensures
      var x := GenExpr(t, c, e);
      Flows(s, x.code, c.labels, x.c.labels)
  {
    hide Pass, Starts, Flows, Visible, OwnSlot;
    if InFragment(e) {
      ExprPasses(t, s, c, e);
    } else {
      NoFlow(s, c.labels);
      VisibleAt(t, s.avail, e.name);
      AssignFlows(s, c, Find(t, e.name).value, e.rhs, GenExpr(t, c, e.rhs));
    }
  }

  lemma UpdatePasses(t: Scopes<Symbol>, s: Flow, c: Counters, e: Option<Expr>)
    requires Starts(s, c.labels) && Visible(t, s.avail) && OptionResolved(t, e) && (e.Some? ==> Discardable(e.value))
    ensures Flows(s, GenUpdate(t, c, e).code, c.labels, GenUpdate(t, c, e).c.labels)
  {
    hide Starts, GenExpr, Visible, Flows;
    if e.Some? {
      EffectPasses(t, s, c, e.value);
    } else {
      NoFlow(s, c.labels);
    }
  }

  lemma ReturnPasses(s: Flow, g: Context, e: Expr)
    requires Starts(s, g.c.labels) && Visible(g.table.scopes, s.avail) && InFragment(e) && Resolved(g.table.scopes, e)
    ensures
      var x := ReturnCode(g, e, GenExpr(g.table.scopes, g.c, e));
      Flows(s, x.code, g.c.labels, x.g.c.labels)
  {
    hide Pass, Starts, Flows, Visible, Adds, GenExpr, GenToInt;
    var x := GenExpr(g.table.scopes, g.c, e);
    var w := GenToInt(x.c, e, x.r);
    var last := [Ret(OperandOf(e, w.r))];
    ExprPasses(g.table.scopes, s, g.c, e);
    FlowsMeans(s, x.code, g.c.labels, x.c.labels);
    ToIntFlows(Pass(x.code, s), x.c, e, x.r);
    FlowsMeans(Pass(x.code, s), w.code, x.c.labels, w.c.labels);
    OperandReady(e, w.r, Pass(w.code, Pass(x.code, s)));
    ReturnFlows(Pass(w.code, Pass(x.code, s)), OperandOf(e, w.r), w.c.labels);
    FlowsThen(Pass(x.code, s), w.code, last, x.c.labels, w.c.labels, w.c.labels);
    FlowsThen(s, x.code, w.code + last, g.c.labels, x.c.labels, w.c.labels);
  }

  lemma DeclPasses(s: Flow, g: Context, d: Stmt)
    requires d.Decl? && !g.inReturnBlock && Starts(s, g.c.labels) && Visible(g.table.scopes, s.avail)
    requires StmtInFragment(d, false) && StmtResolved(g, d)
    ensures
      var x := GenDecl(g, d.name, d.init);
      && Flows(s, x.code, g.c.labels, x.g.c.labels) && !x.g.inReturnBlock
      && Visible(x.g.table.scopes, Pass(x.code, s).avail)
  {
    hide Pass, Starts, Flows, Visible, Adds, GenExpr, GenToInt;
    var n := g.c.labels;
    var sym := NewSymbol(g.table, d.name, VariableSymbol, false);
    var slot := SlotOf(sym);
    var g1 := g.(table := AddSymbol(g.table, d.name, VariableSymbol, false));
    var s1 := Pass([Alloca(slot, I32)], s);
    PlainFlows(s, Alloca(slot, I32), n);
    VisibleMore(g.table.scopes, s.avail, s1.avail);
    VisibleBound(g.table.scopes, s1.avail, d.name, sym);
    if d.init.Some? {
      var e := d.init.value;
      var v := GenExpr(g1.table.scopes, g1.c, e);
      var w := GenToInt(v.c, e, v.r);
      var store := Store(I32, OperandOf(e, w.r), slot);
      var s2 := Pass(v.code, s1);
      var s3 := Pass(w.code, s2);
      ExprPasses(g1.table.scopes, s1, g.c, e);
      FlowsMeans(s1, v.code, n, v.c.labels);
      ToIntFlows(s2, v.c, e, v.r);
      FlowsMeans(s2, w.code, v.c.labels, w.c.labels);
      OperandReady(e, w.r, s3);
      PlainFlows(s3, store, w.c.labels);
      FlowsThen(s2, w.code, [store], v.c.labels, w.c.labels, w.c.labels);
      FlowsThen(s1, v.code, w.code + [store], n, v.c.labels, w.c.labels);
      FlowsMeans(s1, v.code + (w.code + [store]), n, w.c.labels);
      FlowsThen(s, [Alloca(slot, I32)], v.code + (w.code + [store]), n, n, w.c.labels);
      VisibleMore(g1.table.scopes, s1.avail, Pass(v.code + (w.code + [store]), s1).avail);
    }
  }

  // ----- Statements -----

  /** What a statement needs so that its code passes. */
  ghost predicate CanPass(f: Flow, g: Context, s: Stmt, inLoop: bool) {
    && Starts(f, g.c.labels) && Visible(g.table.scopes, f.avail) && Jumps(f, g)
    && StmtInFragment(s, inLoop) && StmtResolved(g, s)
  }

  /** The code passes, and control keeps what was set if it goes on. */
  predicate CodeKeeps(f: Flow, g: Context, x: StmtCode) {
    Keeps(f, Pass(x.code, f), g.c.labels, x.g.c.labels, x.g.inReturnBlock)
  }

  ghost predicate StmtFlows(f: Flow, g: Context, x: StmtCode) {
    CodeKeeps(f, g, x) && (x.g.inReturnBlock || Visible(x.g.table.scopes, Pass(x.code, f).avail))
  }

  lemma NothingKept(f: Flow, g: Context)
    requires Starts(f, g.c.labels)
    ensures CodeKeeps(f, g, StmtCode(g, []))
  {
  }

  lemma LocalLess(s: Flow, s': Flow, m: nat, n: nat)
    requires Local(s, s', n) && m <= n
    ensures Local(s, s', m)
  {
  }

  lemma StillSeen(s: Flow, s': Flow, lo: set<Typed>, n: nat, m: nat)
    requires Starts(s, m) && Outer(s, s', n) && lo <= s.avail
    ensures lo <= s'.seen
  {
  }

  lemma FreshReachable(s: Flow, l: Label, lo: set<Typed>, n: nat)
    requires AtLeast(s, l, lo) && l.id <= n
    ensures Reachable(s, Some(l), n)
  {
  }

  lemma NewAtLeast(s: Flow, l: Label, lo: set<Typed>)
    requires New(s, l)
    ensures AtLeast(s, l, lo)
  {
  }

  lemma ForkAtLeast(s: Flow, l: Label, l': Label, k: Label, lo: set<Typed>)
    requires New(s, l) && New(s, l') && New(s, k) && l != l' && k != l && lo <= s.avail
    ensures AtLeast(AfterFork(s, l, l'), k, lo)
  {
  }

  /** A test and a fork on its value, between labels that were reserved first. */
  lemma TestFork(
    f: Flow, n: nat, m: nat, x: ExprCode, l: Label, l': Label, k: Label)
    requires Starts(f, n) && n <= m && Flows(f, x.code, m, x.c.labels) && TypedTemp(x.r, I1) in Pass(x.code, f).avail
    requires n < l.id <= m && n < l'.id <= m && n < k.id <= m && l != l' && k != l
    ensures
      var s := AfterFork(Pass(x.code, f), l, l');
      && Pass([CondBr(x.r, l, l'), LabelDef(l)], Pass(x.code, f)) == s
      && Starts(s, x.c.labels) && Local(f, s, n) && f.avail <= s.avail && m <= x.c.labels
      && AtLeast(s, k, f.avail) && AtLeast(s, l', f.avail) && (k != l' ==> New(s, k))
  {
    hide Pass, Starts, Local, Adds;
    var s1 := Pass(x.code, f);
    FlowsMeans(f, x.code, m, x.c.labels);
    Reserved(f, l, n);
    Reserved(f, l', n);
    Reserved(f, k, n);
    StillNew(f, s1, l, m);
    StillNew(f, s1, l', m);
    StillNew(f, s1, k, m);
    ForkPass(s1, x.r, l, l', n, x.c.labels);
    AddsLocal(f, s1, m);
    LocalLess(f, s1, n, m);
    LocalThen(f, s1, AfterFork(s1, l, l'), n, n);
    ForkAtLeast(s1, l, l', k, f.avail);
    ForkAtLeast(s1, l, l', l', f.avail);
  }

  lemma {:induction false} StmtPasses(f: Flow, g: Context, s: Stmt, inLoop: bool)
    requires CanPass(f, g, s, inLoop)
    ensures StmtFlows(f, g, GenStmt(g, s))
    decreases s, 5
  {
    hide Starts, Flows, Keeps, Outer, Local, Visible, Jumps, Pass, GenExpr, GenTest, GenDecl, Resolved, ReturnCode;
    if g.inReturnBlock {
      NothingKept(f, g);
    } else {
      match s {
        case Decl(_, _) =>
          DeclPasses(f, g, s);
          FlowsKeep(f, GenStmt(g, s).code, g.c.labels, GenStmt(g, s).g.c.labels);
        case _ =>
          OtherPasses(f, g, s, inLoop);
          StaysVisible(f, g, s);
      }
    }
  }

  lemma StaysVisible(f: Flow, g: Context, s: Stmt)
    requires !s.Decl? && Visible(g.table.scopes, f.avail) && CodeKeeps(f, g, GenStmt(g, s))
    ensures StmtFlows(f, g, GenStmt(g, s))
  {
    hide GenStmt, Pass, Visible, Outer;
    StmtRestores(g, s);
    if !GenStmt(g, s).g.inReturnBlock {
      VisibleMore(g.table.scopes, f.avail, Pass(GenStmt(g, s).code, f).avail);
    }
  }

  lemma {:induction false} OtherPasses(f: Flow, g: Context, s: Stmt, inLoop: bool)
    requires !s.Decl? && !g.inReturnBlock && CanPass(f, g, s, inLoop)
    ensures CodeKeeps(f, g, GenStmt(g, s))
    decreases s, 4
  {
    hide Starts, Flows, Keeps, Outer, Local, Visible, Pass, GenExpr, GenTest, Resolved, ReturnCode, Reachable;
    NothingKept(f, g);
    match s
    case Block(ss) =>
      VisiblePushed(g.table.scopes, f.avail);
      StmtsPass(f, InNewScope(g), ss, inLoop);
    case ExprStmt(e) =>
      EffectPasses(g.table.scopes, f, g.c, e);
      FlowsKeep(f, GenExpr(g.table.scopes, g.c, e).code, g.c.labels, GenExpr(g.table.scopes, g.c, e).c.labels);
    case If(_, _, _) => IfPasses(f, g, s, inLoop);
    case While(_, _) => WhilePasses(f, g, s, inLoop);
    case DoWhile(_, _) => DoPasses(f, g, s, inLoop);
    case For(_, _, _, _) => ForPasses(f, g, s, inLoop);
    case Return(e) =>
      ReturnPasses(f, g, e);
      FlowsKeep(f, ReturnCode(g, e, GenExpr(g.table.scopes, g.c, e)).code, g.c.labels,
                ReturnCode(g, e, GenExpr(g.table.scopes, g.c, e)).g.c.labels);
      ReturnCloses(f, g, e);
    case Break => BreakPasses(f, g, g.breakLabel);
    case Continue => BreakPasses(f, g, g.continueLabel);
    case Empty =>
  }

  lemma ReturnCloses(f: Flow, g: Context, e: Expr)
    requires
      var x := ReturnCode(g, e, GenExpr(g.table.scopes, g.c, e));
      Keeps(f, Pass(x.code, f), g.c.labels, x.g.c.labels, false)
    ensures CodeKeeps(f, g, ReturnCode(g, e, GenExpr(g.table.scopes, g.c, e)))
  {
    hide Pass, GenExpr, GenToInt, Outer, Starts;
  }

  lemma BreakPasses(f: Flow, g: Context, l: Option<Label>)
    requires Starts(f, g.c.labels) && Reachable(f, l, g.c.labels)
    ensures CodeKeeps(f, g, GenJump(g, l))
  {
    hide Pass, Starts, Outer, Reachable;
    if l.None? {
      NothingKept(f, g);
    } else {
      JumpKeeps(f, l.value, g.c.labels);
    }
  }

  lemma {:induction false} ScopedPasses(f: Flow, g: Context, s: Stmt, inLoop: bool)
    requires Starts(f, g.c.labels) && Visible(g.table.scopes, f.avail) && Jumps(f, g)
    requires StmtInFragment(s, inLoop) && ScopedResolved(g, s)
    ensures CodeKeeps(f, g, GenScoped(g, s))
    decreases s, 6
  {
    hide Starts, Pass, GenStmt, StmtResolved, StmtInFragment, Visible, Reachable, Keeps;
    VisiblePushed(g.table.scopes, f.avail);
    StmtPasses(f, InNewScope(g), s, inLoop);
  }

  /** An arm that starts behind lines on new labels only. */
  lemma {:induction false} ArmPasses(f: Flow, n: nat, g0: Context, f2: Flow, g: Context, s: Stmt, inLoop: bool)
    requires Starts(f, n) && Outer(f, f2, n) && f.avail <= f2.avail && n == g0.c.labels <= g.c.labels
    requires Jumps(f, g0) && g.breakLabel == g0.breakLabel && g.continueLabel == g0.continueLabel
    requires g.table.scopes == g0.table.scopes && Visible(g0.table.scopes, f.avail)
    requires Starts(f2, g.c.labels) && StmtInFragment(s, inLoop) && ScopedResolved(g, s)
    ensures
      var x := GenScoped(g, s);
      var f3 := Pass(x.code, f2);
      && CodeKeeps(f2, g, x) && Outer(f, f3, n) && f.avail <= f3.seen && Starts(f3, x.g.c.labels)
      && g.c.labels <= x.g.c.labels && (x.g.inReturnBlock || f.avail <= f3.avail)
    decreases s, 7
  {
    hide Starts, Pass, GenScoped, ScopedResolved, StmtInFragment, Visible, Jumps, Outer, Keeps;
    var x := GenScoped(g, s);
    var f3 := Pass(x.code, f2);
    JumpsKept(f, f2, g0, g);
    VisibleMore(g0.table.scopes, f.avail, f2.avail);
    ScopedPasses(f2, g, s, inLoop);
    KeepsMeans(f2, f3, g.c.labels, x.g.c.labels, x.g.inReturnBlock);
    OuterThen(f, f2, f3, n, g.c.labels);
    StillSeen(f2, f3, f.avail, g.c.labels, g.c.labels);
  }

  lemma {:induction false} IfPasses(f: Flow, g: Context, s: Stmt, inLoop: bool)
    requires s.If? && !g.inReturnBlock && CanPass(f, g, s, inLoop)
    ensures CodeKeeps(f, g, GenStmt(g, s))
    decreases s, 3
  {
    if s.elseStmt.None? {
      OneArmPasses(f, g, s, inLoop);
    } else {
      TwoArmsPass(f, g, s, inLoop);
    }
  }

  lemma {:induction false} OneArmPasses(f: Flow, g: Context, s: Stmt, inLoop: bool)
    requires s.If? && s.elseStmt.None? && !g.inReturnBlock && CanPass(f, g, s, inLoop)
    ensures CodeKeeps(f, g, GenStmt(g, s))
    decreases s, 2
  {
    hide Starts, Pass, Flows, Visible, Jumps, Outer, Local, Keeps, AtLeast, Reachable, AfterFork, GenTest, GenScoped,
         Resolved, ScopedResolved, Closing;
    var n := g.c.labels;
    var x := GenTest(g.table.scopes, TakeLabels(g, 3).c, s.cond);
    var g1 := g.(c := x.c);
    var a := GenScoped(g1, s.thenStmt);
    MoreLabels(f, n, n + 3);
    TestPasses(g.table.scopes, f, TakeLabels(g, 3).c, s.cond);
    TestFork(f, n, n + 3, x, IfThen(g), IfEnd(g), IfEnd(g));
    var fork := [CondBr(x.r, IfThen(g), IfEnd(g)), LabelDef(IfThen(g))];
    var f2 := AfterFork(Pass(x.code, f), IfThen(g), IfEnd(g));
    LocalOuter(f, f2, n);
    ArmPasses(f, n, g, f2, g1, s.thenStmt, inLoop);
    var f3 := Pass(a.code, f2);
    KeepsMeans(f2, f3, x.c.labels, a.g.c.labels, a.g.inReturnBlock);
    StillAtLeast(f2, f3, IfEnd(g), f.avail, x.c.labels);
    FreshReachable(f3, IfEnd(g), f.avail, a.g.c.labels);
    CloseThenLand(f3, a.g.inReturnBlock, IfEnd(g), IfEnd(g), f.avail, n, a.g.c.labels);
    var last := Closing(a.g.inReturnBlock, IfEnd(g)) + [LabelDef(IfEnd(g))];
    OuterLocal(f, f3, Pass(last, f3), n, n);
    PassAppend3(x.code, fork, a.code + last, f);
    PassAppend(a.code, last, f2);
    KeepsIntro(f, Pass(last, f3), n, a.g.c.labels, false);
  }

  lemma KeepsIntro(s: Flow, s': Flow, n: nat, n': nat, closed: bool)
    requires n <= n' && Starts(s', n') && Outer(s, s', n) && (closed || s.avail <= s'.avail)
    ensures Keeps(s, s', n, n', closed)
  {
  }

  lemma {:induction false} TwoArmsPass(f: Flow, g: Context, s: Stmt, inLoop: bool)
    requires s.If? && s.elseStmt.Some? && !g.inReturnBlock && CanPass(f, g, s, inLoop)
    ensures CodeKeeps(f, g, GenStmt(g, s))
    decreases s, 2
  {
    hide Starts, Pass, Flows, Visible, Jumps, Outer, Local, Keeps, AtLeast, Reachable, AfterFork, GenTest, GenScoped,
         Resolved, ScopedResolved, Closing;
    var n := g.c.labels;
    var x := GenTest(g.table.scopes, TakeLabels(g, 3).c, s.cond);
    var g1 := g.(c := x.c);
    var a := GenScoped(g1, s.thenStmt);
    MoreLabels(f, n, n + 3);
    TestPasses(g.table.scopes, f, TakeLabels(g, 3).c, s.cond);
    TestFork(f, n, n + 3, x, IfThen(g), IfElse(g), IfEnd(g));
    var fork := [CondBr(x.r, IfThen(g), IfElse(g)), LabelDef(IfThen(g))];
    var f2 := AfterFork(Pass(x.code, f), IfThen(g), IfElse(g));
    LocalOuter(f, f2, n);
    ArmPasses(f, n, g, f2, g1, s.thenStmt, inLoop);
    ScopedRestores(g1, s.thenStmt);
    var f3 := Pass(a.code, f2);
    KeepsMeans(f2, f3, x.c.labels, a.g.c.labels, a.g.inReturnBlock);
    StillAtLeast(f2, f3, IfEnd(g), f.avail, x.c.labels);
    StillAtLeast(f2, f3, IfElse(g), f.avail, x.c.labels);
    FreshReachable(f3, IfEnd(g), f.avail, a.g.c.labels);
    AtLeastOpen(f3, IfEnd(g), f.avail);
    CloseThenLand(f3, a.g.inReturnBlock, IfEnd(g), IfElse(g), f.avail, n, a.g.c.labels);
    var closing := Closing(a.g.inReturnBlock, IfEnd(g));
    var middle := closing + [LabelDef(IfElse(g))];
    var f4 := Pass(middle, f3);
    OuterLocal(f, f3, f4, n, n);
    var g2 := AfterThen(a);
    var b := GenScoped(g2, s.elseStmt.value);
    ArmPasses(f, n, g, f4, g2, s.elseStmt.value, inLoop);
    var f5 := Pass(b.code, f4);
    KeepsMeans(f4, f5, g2.c.labels, b.g.c.labels, b.g.inReturnBlock);
    StillAtLeast(f4, f5, IfEnd(g), f.avail, g2.c.labels);
    var ends := a.g.inReturnBlock && b.g.inReturnBlock;
    var last := Closing(b.g.inReturnBlock, IfEnd(g)) + (if ends then [] else [LabelDef(IfEnd(g))]);
    LastOfArms(f, f5, g, n, b.g.c.labels, b.g.inReturnBlock, ends);
    PassAppend3(x.code, fork, a.code + (middle + (b.code + last)), f);
    PassAppend3(a.code, middle, b.code + last, f2);
    PassAppend(b.code, last, f4);
    IfElseLayout(g, x, a, b, fork, closing, middle, last);
  }

  lemma AtLeastOpen(s: Flow, l: Label, lo: set<Typed>)
    requires AtLeast(s, l, lo)
    ensures l !in s.passed
  {
  }

  /** The join of two arms, left out when both have closed their blocks. */
  lemma LastOfArms(f: Flow, f5: Flow, g: Context, n: nat, n': nat, closed: bool, ends: bool)
    requires n <= n' && Starts(f, n) && Starts(f5, n') && Outer(f, f5, n)
    requires AtLeast(f5, IfEnd(g), f.avail) && f.avail <= f5.seen
    requires n < IfEnd(g).id <= n' && (closed || f.avail <= f5.avail) && (ends ==> closed)
    ensures
      var last := Closing(closed, IfEnd(g)) + (if ends then [] else [LabelDef(IfEnd(g))]);
      Keeps(f, Pass(last, f5), n, n', ends)
  {
    hide Starts, Pass, Outer, Local, AtLeast, Reachable, Keeps;
    if ends {
      PassNothing(f5);
      assert Closing(closed, IfEnd(g)) + [] == [];
      KeepsIntro(f, f5, n, n', true);
    } else {
      FreshReachable(f5, IfEnd(g), f.avail, n');
      CloseThenLand(f5, closed, IfEnd(g), IfEnd(g), f.avail, n, n');
      var f6 := Pass(Closing(closed, IfEnd(g)) + [LabelDef(IfEnd(g))], f5);
      OuterLocal(f, f5, f6, n, n);
      KeepsIntro(f, f6, n, n', false);
    }
  }

  lemma PassNothing(s: Flow)
    ensures Pass([], s) == s
  {
  }

  lemma IfElseLayout(
    g: Context, x: ExprCode, a: StmtCode, b: StmtCode, fork: seq<Instr>, closing: seq<Instr>, middle: seq<Instr>,
    last: seq<Instr>)
    requires fork == [CondBr(x.r, IfThen(g), IfElse(g)), LabelDef(IfThen(g))]
    requires closing == Closing(a.g.inReturnBlock, IfEnd(g)) && middle == closing + [LabelDef(IfElse(g))]
    requires last == Closing(b.g.inReturnBlock, IfEnd(g))
                     + (if a.g.inReturnBlock && b.g.inReturnBlock then [] else [LabelDef(IfEnd(g))])
    ensures IfElseCode(g, x, a, b).code == x.code + (fork + (a.code + (middle + (b.code + last))))
  {
    assert middle + (b.code + last) == closing + ([LabelDef(IfElse(g))] + (b.code + last));
  }

  // ----- Loops -----

  /** The loop labels of a body: one to come and one that is to come or was passed
      where no more was set. */
  lemma LoopJumps(s: Flow, g: Context, brk: Label, cont: Label)
    requires g.breakLabel == Some(brk) && g.continueLabel == Some(cont)
    requires Reachable(s, Some(brk), g.c.labels) && Reachable(s, Some(cont), g.c.labels)
    ensures Jumps(s, g)
  {
  }

  /** A body that starts behind lines on new labels, with loop labels of its own. */
  lemma {:induction false} BodyPasses(f: Flow, n: nat, g0: Context, f2: Flow, g: Context, s: Stmt)
    requires Starts(f, n) && Outer(f, f2, n) && f.avail <= f2.avail && n <= g.c.labels && Jumps(f2, g)
    requires g.table.scopes == g0.table.scopes && Visible(g0.table.scopes, f.avail)
    requires Starts(f2, g.c.labels) && StmtInFragment(s, true) && ScopedResolved(g, s)
    ensures
      var x := GenScoped(g, s);
      var f3 := Pass(x.code, f2);
      && Outer(f2, f3, g.c.labels) && Outer(f, f3, n) && f.avail <= f3.seen && Starts(f3, x.g.c.labels)
      && g.c.labels <= x.g.c.labels && (x.g.inReturnBlock || f2.avail <= f3.avail)
    decreases s, 7
  {
    hide Starts, Pass, GenScoped, ScopedResolved, StmtInFragment, Visible, Jumps, Outer, Keeps;
    var x := GenScoped(g, s);
    var f3 := Pass(x.code, f2);
    VisibleMore(g0.table.scopes, f.avail, f2.avail);
    ScopedPasses(f2, g, s, true);
    KeepsMeans(f2, f3, g.c.labels, x.g.c.labels, x.g.inReturnBlock);
    OuterThen(f, f2, f3, n, g.c.labels);
    StillSeen(f2, f3, f.avail, g.c.labels, g.c.labels);
  }

  /** The label of the block that is entered is passed, with what was set. */
  lemma PassedReachable(s: Flow, s': Flow, l: Label, n: nat, m: nat)
    requires l in s.passed && l in s.at && Outer(s, s', n) && s.at[l] <= s'.avail && l.id <= m
    ensures l in s'.passed && l in s'.at && s'.at[l] == s.at[l] && Reachable(s', Some(l), m)
  {
  }

  lemma {:induction false} WhilePasses(f: Flow, g: Context, s: Stmt, inLoop: bool)
    requires s.While? && !g.inReturnBlock && CanPass(f, g, s, inLoop)
    ensures CodeKeeps(f, g, GenStmt(g, s))
    decreases s, 3
  {
    hide Starts, Pass, Flows, Visible, Jumps, Outer, Local, Keeps, AtLeast, Reachable, AfterFork, Adds, GenTest,
         GenScoped, Resolved, ScopedResolved, Closing;
    var n := g.c.labels;
    var first := [Br(WhileCond(g)), LabelDef(WhileCond(g))];
    var f1 := Pass(first, f);
    Reserved(f, WhileCond(g), n);
    MoreLabels(f, n, n + 1);
    EnterBlock(f, WhileCond(g), n, n + 1);
    MoreLabels(f1, n + 1, n + 3);
    var x := GenTest(g.table.scopes, TakeLabels(g, 3).c, s.cond);
    VisibleMore(g.table.scopes, f.avail, f1.avail);
    TestPasses(g.table.scopes, f1, TakeLabels(g, 3).c, s.cond);
    LoopFork(f, f1, n, x, WhileCond(g), WhileBody(g), WhileEnd(g));
    var fork := [CondBr(x.r, WhileBody(g), WhileEnd(g)), LabelDef(WhileBody(g))];
    var f2 := AfterFork(Pass(x.code, f1), WhileBody(g), WhileEnd(g));
    var g1 := WhileContext(g, x.c);
    FreshReachable(f2, WhileEnd(g), f.avail, x.c.labels);
    LoopJumps(f2, g1, WhileEnd(g), WhileCond(g));
    LocalOuter(f, f2, n);
    BodyPasses(f, n, g, f2, g1, s.body);
    var b := GenScoped(g1, s.body);
    var f3 := Pass(b.code, f2);
    StillAtLeast(f2, f3, WhileEnd(g), f.avail, x.c.labels);
    if !b.g.inReturnBlock {
      PassedReachable(f2, f3, WhileCond(g), x.c.labels, b.g.c.labels);
    }
    CloseThenLand(f3, b.g.inReturnBlock, WhileCond(g), WhileEnd(g), f.avail, n, b.g.c.labels);
    var last := Closing(b.g.inReturnBlock, WhileCond(g)) + [LabelDef(WhileEnd(g))];
    OuterLocal(f, f3, Pass(last, f3), n, n);
    PassAppend3(first, x.code, fork + (b.code + last), f);
    PassAppend3(fork, b.code, last, Pass(x.code, f1));
    KeepsIntro(f, Pass(last, f3), n, b.g.c.labels, false);
  }

  /** The test of a loop behind its own label, and the fork into the body. */
  lemma LoopFork(f: Flow, f1: Flow, n: nat, x: ExprCode, c: Label, l: Label, l': Label)
    requires Starts(f, n) && c.id == n + 1 && l.id == n + 2 && l'.id == n + 3
    requires f1 == f.(at := f.at[c := f.avail], passed := f.passed + {c})
    requires Starts(f1, n + 1) && Local(f, f1, n)
    requires Flows(f1, x.code, n + 3, x.c.labels) && TypedTemp(x.r, I1) in Pass(x.code, f1).avail
    ensures
      var s := AfterFork(Pass(x.code, f1), l, l');
      && Pass([CondBr(x.r, l, l'), LabelDef(l)], Pass(x.code, f1)) == s
      && Starts(s, x.c.labels) && Local(f, s, n) && f.avail <= s.avail && n + 3 <= x.c.labels
      && AtLeast(s, l', f.avail)
      && c in s.passed && c in s.at && s.at[c] == f.avail && Reachable(s, Some(c), x.c.labels)
  {
    hide Starts, Pass, Flows, AtLeast, AfterFork, Local;
    TestFork(f1, n + 1, n + 3, x, l, l', l');
    var s := AfterFork(Pass(x.code, f1), l, l');
    LocalLess(f1, s, n, n + 1);
    LocalThen(f, f1, s, n, n);
    LocalPassed(f1, s, c, n + 1);
  }

  lemma LocalPassed(s: Flow, s': Flow, l: Label, n: nat)
    requires Local(s, s', n) && l.id <= n && l in s.passed && l in s.at
    ensures l in s'.passed && l in s'.at && s'.at[l] == s.at[l]
  {
  }

  lemma {:induction false} DoPasses(f: Flow, g: Context, s: Stmt, inLoop: bool)
    requires s.DoWhile? && !g.inReturnBlock && CanPass(f, g, s, inLoop)
    ensures CodeKeeps(f, g, GenStmt(g, s))
    decreases s, 3
  {
    hide Starts, Pass, Flows, Visible, Jumps, Outer, Local, Keeps, AtLeast, Reachable, Adds, GenTest, GenScoped,
         Resolved, ScopedResolved, Closing;
    var n := g.c.labels;
    var first := [Br(DoBody(g)), LabelDef(DoBody(g))];
    var f1 := Pass(first, f);
    Reserved(f, DoBody(g), n);
    MoreLabels(f, n, n + 3);
    EnterBlock(f, DoBody(g), n, n + 3);
    DoLabels(f, f1, g);
    LocalOuter(f, f1, n);
    var g1 := DoContext(g);
    LoopJumps(f1, g1, DoEnd(g), DoCond(g));
    BodyPasses(f, n, g, f1, g1, s.body);
    ScopedRestores(g1, s.body);
    var b := GenScoped(g1, s.body);
    var f2 := Pass(b.code, f1);
    StillAtLeast(f1, f2, DoEnd(g), f.avail, n + 3);
    StillAtLeast(f1, f2, DoCond(g), f.avail, n + 3);
    FreshReachable(f2, DoCond(g), f.avail, b.g.c.labels);
    CloseThenLand(f2, b.g.inReturnBlock, DoCond(g), DoCond(g), f.avail, n, b.g.c.labels);
    var closing := Closing(b.g.inReturnBlock, DoCond(g));
    var middle := closing + [LabelDef(DoCond(g))];
    var f3 := Pass(middle, f2);
    var x := GenTest(b.g.table.scopes, b.g.c, s.cond);
    VisibleMore(g.table.scopes, f.avail, f3.avail);
    TestPasses(b.g.table.scopes, f3, b.g.c, s.cond);
    var f4 := Pass(x.code, f3);
    var last := [CondBr(x.r, DoBody(g), DoEnd(g)), LabelDef(DoEnd(g))];
    BackTest(f, f1, f2, f3, g, n, b.g.c.labels, x);
    OuterLocal(f, f2, Pass(last, f4), n, n);
    PassAppend3(first, b.code, middle + (x.code + last), f);
    PassAppend3(middle, x.code, last, f2);
    assert middle + (x.code + last) == closing + ([LabelDef(DoCond(g))] + (x.code + last));
    KeepsIntro(f, Pass(last, f4), n, x.c.labels, false);
  }

  lemma DoLabels(f: Flow, f1: Flow, g: Context)
    requires Starts(f, g.c.labels) && f1 == f.(at := f.at[DoBody(g) := f.avail], passed := f.passed + {DoBody(g)})
    ensures AtLeast(f1, DoEnd(g), f.avail) && AtLeast(f1, DoCond(g), f.avail)
    ensures Reachable(f1, Some(DoEnd(g)), g.c.labels + 3) && Reachable(f1, Some(DoCond(g)), g.c.labels + 3)
  {
  }

  /** The test of a `do` goes back to its body or on. */
  lemma BackTest(f: Flow, f1: Flow, f2: Flow, f3: Flow, g: Context, n: nat, m: nat, x: ExprCode)
    requires n == g.c.labels && n + 3 <= m && Starts(f3, m)
    requires f1 == f.(at := f.at[DoBody(g) := f.avail], passed := f.passed + {DoBody(g)}) && Outer(f1, f2, n + 3)
    requires Local(f2, f3, n) && f.avail <= f3.avail
    requires f3.passed == f2.passed + {DoCond(g)}
    requires forall k :: k != DoCond(g) ==> (k in f3.at <==> k in f2.at) && (k in f2.at ==> f3.at[k] == f2.at[k])
    requires AtLeast(f2, DoEnd(g), f.avail)
    requires Flows(f3, x.code, m, x.c.labels) && TypedTemp(x.r, I1) in Pass(x.code, f3).avail
    ensures
      var last := [CondBr(x.r, DoBody(g), DoEnd(g)), LabelDef(DoEnd(g))];
      var s := Pass(last, Pass(x.code, f3));
      Starts(s, x.c.labels) && Local(f2, s, n) && f.avail <= s.avail && m <= x.c.labels
  {
    hide Pass, Starts, Flows, Local, Adds;
    var f4 := Pass(x.code, f3);
    FlowsMeans(f3, x.code, m, x.c.labels);
    AddsLocal(f3, f4, m);
    assert AtLeast(f3, DoEnd(g), f.avail);
    LocalAtLeast(f3, f4, DoEnd(g), f.avail, m);
    LocalPassed(f3, f4, DoBody(g), m);
    BackFork(f4, x.r, DoBody(g), DoEnd(g), f.avail, n, x.c.labels);
    LocalLess(f3, f4, n, m);
    var last := [CondBr(x.r, DoBody(g), DoEnd(g)), LabelDef(DoEnd(g))];
    LocalThen(f3, f4, Pass(last, f4), n, n);
    LocalThen(f2, f3, Pass(last, f4), n, n);
  }

  /** The first part of a `for` falls through to its test. */
  lemma FirstPasses(f: Flow, g: Context, s: Stmt)
    requires s.Decl? || s.ExprStmt? || s.Empty?
    requires !g.inReturnBlock && Starts(f, g.c.labels) && Visible(g.table.scopes, f.avail)
    requires StmtInFragment(s, false) && StmtResolved(g, s)
    ensures
      var x := GenStmt(g, s);
      && Flows(f, x.code, g.c.labels, x.g.c.labels) && !x.g.inReturnBlock
      && Visible(x.g.table.scopes, Pass(x.code, f).avail)
  {
    hide Starts, Flows, Visible, Pass, GenExpr, GenDecl, Resolved, Adds;
    match s
    case Decl(_, _) => DeclPasses(f, g, s);
    case ExprStmt(e) =>
      var x := GenExpr(g.table.scopes, g.c, e);
      EffectPasses(g.table.scopes, f, g.c, e);
      FlowsMeans(f, x.code, g.c.labels, x.c.labels);
      VisibleMore(g.table.scopes, f.avail, Pass(x.code, f).avail);
    case Empty => NoFlow(f, g.c.labels);
  }

  /** The test of a `for`, or none, and the label of the body. */
  lemma GuardFork(f: Flow, f1: Flow, n: nat, t: Scopes<Symbol>, c: Counters, e: Option<Expr>, g: Context)
    requires n == g.c.labels && n + 4 <= c.labels && Starts(f, c.labels)
    requires New(f, ForCond(g)) && New(f, ForBody(g)) && New(f, ForUpdate(g)) && New(f, ForEnd(g))
    requires f1 == f.(at := f.at[ForCond(g) := f.avail], passed := f.passed + {ForCond(g)}) && Starts(f1, c.labels)
    requires Visible(t, f.avail) && (e.Some? ==> InFragment(e.value)) && OptionResolved(t, e)
    ensures
      var x := GenGuard(t, c, e, ForBody(g), ForEnd(g));
      var s := Pass(x.code + [LabelDef(ForBody(g))], f1);
      && Starts(s, x.c.labels) && Local(f, s, n) && f.avail <= s.avail && c.labels <= x.c.labels
      && AtLeast(s, ForUpdate(g), f.avail) && AtLeast(s, ForEnd(g), f.avail)
      && ForCond(g) in s.passed && ForCond(g) in s.at && s.at[ForCond(g)] == f.avail
  {
    hide Starts, Pass, Flows, Visible, Adds, GenTest;
    if e.None? {
      BareGuard(f, f1, n, c, g);
    } else {
      var x := GenTest(t, c, e.value);
      TestPasses(t, f1, c, e.value);
      TestedGuard(f, f1, n, c, x, g);
    }
  }

  lemma BareGuard(f: Flow, f1: Flow, n: nat, c: Counters, g: Context)
    requires n == g.c.labels && n + 4 <= c.labels && Starts(f, c.labels)
    requires New(f, ForCond(g)) && New(f, ForBody(g)) && New(f, ForUpdate(g)) && New(f, ForEnd(g))
    requires f1 == f.(at := f.at[ForCond(g) := f.avail], passed := f.passed + {ForCond(g)}) && Starts(f1, c.labels)
    ensures
      var s := Pass([Br(ForBody(g))] + [LabelDef(ForBody(g))], f1);
      && Starts(s, c.labels) && Local(f, s, n) && f.avail <= s.avail
      && AtLeast(s, ForUpdate(g), f.avail) && AtLeast(s, ForEnd(g), f.avail)
      && ForCond(g) in s.passed && ForCond(g) in s.at && s.at[ForCond(g)] == f.avail
  {
    var l := ForBody(g);
    assert [Br(l)] + [LabelDef(l)] == [Br(l), LabelDef(l)];
    PassTwo(Br(l), LabelDef(l), f1);
  }

  lemma TestedGuard(f: Flow, f1: Flow, n: nat, c: Counters, x: ExprCode, g: Context)
    requires n == g.c.labels && n + 4 <= c.labels && Starts(f, c.labels)
    requires New(f, ForCond(g)) && New(f, ForBody(g)) && New(f, ForUpdate(g)) && New(f, ForEnd(g))
    requires f1 == f.(at := f.at[ForCond(g) := f.avail], passed := f.passed + {ForCond(g)}) && Starts(f1, c.labels)
    requires Flows(f1, x.code, c.labels, x.c.labels) && TypedTemp(x.r, I1) in Pass(x.code, f1).avail
    ensures
      var fork := [CondBr(x.r, ForBody(g), ForEnd(g))];
      var s := Pass((x.code + fork) + [LabelDef(ForBody(g))], f1);
      && Starts(s, x.c.labels) && Local(f, s, n) && f.avail <= s.avail && c.labels <= x.c.labels
      && AtLeast(s, ForUpdate(g), f.avail) && AtLeast(s, ForEnd(g), f.avail)
      && ForCond(g) in s.passed && ForCond(g) in s.at && s.at[ForCond(g)] == f.avail
  {
    hide Starts, Pass, Flows, Adds, Reachable;
    var m := c.labels;
    var fork := [CondBr(x.r, ForBody(g), ForEnd(g))];
    var lines := [CondBr(x.r, ForBody(g), ForEnd(g)), LabelDef(ForBody(g))];
    var s1 := Pass(x.code, f1);
    FlowsMeans(f1, x.code, m, x.c.labels);
    StillNew(f1, s1, ForBody(g), m);
    StillNew(f1, s1, ForUpdate(g), m);
    StillNew(f1, s1, ForEnd(g), m);
    ForkPass(s1, x.r, ForBody(g), ForEnd(g), n, x.c.labels);
    assert (x.code + fork) + [LabelDef(ForBody(g))] == x.code + lines;
    PassAppend(x.code, lines, f1);
  }

  lemma {:induction false} ForPasses(f: Flow, g: Context, s: Stmt, inLoop: bool)
    requires s.For? && !g.inReturnBlock && CanPass(f, g, s, inLoop)
    ensures CodeKeeps(f, g, GenStmt(g, s))
    decreases s, 3
  {
    hide Starts, Pass, Flows, Visible, Jumps, Outer, Local, Keeps, AtLeast, Reachable, Adds, New, GenGuard, GenUpdate,
         GenTest, Resolved, OptionResolved, Closing;
    var n := g.c.labels;
    MoreLabels(f, n, n + 4);
    VisiblePushed(g.table.scopes, f.avail);
    var i := GenStmt(ForContext(g), s.first);
    FirstPasses(f, ForContext(g), s.first);
    var f1 := Pass(i.code, f);
    FlowsMeans(f, i.code, n + 4, i.g.c.labels);
    StmtRestores(ForContext(g), s.first);
    ForLabels(f, f1, g, i.g.c.labels);
    ForRound(f, f1, g, s, i);
    var x := GenGuard(i.g.table.scopes, i.g.c, s.guard, ForBody(g), ForEnd(g));
    var g1 := i.g.(c := x.c, inReturnBlock := false);
    var b := GenStmt(g1, s.body);
    var u := GenUpdate(b.g.table.scopes, b.g.c, s.update);
    var round := ForLines(g, x, b, u);
    PassAppend(i.code, round, f);
    ForLayout(g, i, x, b, u);
    var f9 := Pass(round, f1);
    KeepsIntro(f, f9, n, u.c.labels, false);
  }

  /** What is printed behind the first part of a `for`. */
  function ForLines(g: Context, x: ExprCode, b: StmtCode, u: ExprCode): seq<Instr> {
    [Br(ForCond(g)), LabelDef(ForCond(g))]
    + ((x.code + [LabelDef(ForBody(g))])
       + (b.code
          + ((Closing(b.g.inReturnBlock, ForUpdate(g)) + [LabelDef(ForUpdate(g))])
             + (u.code + (Closing(false, ForCond(g)) + [LabelDef(ForEnd(g))])))))
  }

  lemma ForLayout(g: Context, i: StmtCode, x: ExprCode, b: StmtCode, u: ExprCode)
    ensures ForCode(g, i, x, b, u).code == i.code + ForLines(g, x, b, u)
  {
    var closing := Closing(b.g.inReturnBlock, ForUpdate(g));
    var last := [Br(ForCond(g)), LabelDef(ForEnd(g))];
    assert Closing(false, ForCond(g)) + [LabelDef(ForEnd(g))] == last;
    var tail := b.code + (closing + ([LabelDef(ForUpdate(g))] + (u.code + last)));
    assert (closing + [LabelDef(ForUpdate(g))]) + (u.code + last)
        == closing + ([LabelDef(ForUpdate(g))] + (u.code + last));
    assert (x.code + [LabelDef(ForBody(g))]) + tail == x.code + ([LabelDef(ForBody(g))] + tail);
  }

  lemma ForLabels(f: Flow, f1: Flow, g: Context, n': nat)
    requires Starts(f, g.c.labels) && Adds(f, f1, g.c.labels + 4) && Starts(f1, n')
    ensures New(f1, ForCond(g)) && New(f1, ForBody(g)) && New(f1, ForUpdate(g)) && New(f1, ForEnd(g))
  {
  }

  /** Behind the first part of a `for`. */
  ghost predicate AtTest(f: Flow, f1: Flow, g: Context, i: StmtCode) {
    && Starts(f, g.c.labels) && Adds(f, f1, g.c.labels + 4) && g.c.labels + 4 <= i.g.c.labels
    && Starts(f1, i.g.c.labels) && Visible(i.g.table.scopes, f1.avail)
    && New(f1, ForCond(g)) && New(f1, ForBody(g)) && New(f1, ForUpdate(g)) && New(f1, ForEnd(g))
    && i.g.breakLabel == Some(ForEnd(g)) && i.g.continueLabel == Some(ForUpdate(g))
  }

  /** Behind its body: the test is passed with lo, and at least lo was set at the
      branches to the update and the end. */
  predicate AtUpdate(f4: Flow, g: Context, lo: set<Typed>, n: nat) {
    && Starts(f4, n) && lo <= f4.seen && g.c.labels + 4 <= n
    && AtLeast(f4, ForUpdate(g), lo) && AtLeast(f4, ForEnd(g), lo)
    && ForCond(g) in f4.passed && ForCond(g) in f4.at && f4.at[ForCond(g)] == lo
  }

  lemma OuterPassed(s: Flow, s': Flow, l: Label, n: nat)
    requires l in s.passed && l in s.at && Outer(s, s', n)
    ensures l in s'.passed && l in s'.at && s'.at[l] == s.at[l]
  {
  }

  /** Test and body of a `for`. */
  lemma {:induction false} ForBodyPasses(f: Flow, f1: Flow, g: Context, s: Stmt, i: StmtCode)
    requires s.For? && !g.inReturnBlock && StmtInFragment(s, false) && StmtResolved(g, s)
    requires i == GenStmt(ForContext(g), s.first) && AtTest(f, f1, g, i)
    ensures
      var x := GenGuard(i.g.table.scopes, i.g.c, s.guard, ForBody(g), ForEnd(g));
      var b := GenStmt(i.g.(c := x.c, inReturnBlock := false), s.body);
      var f2 := Pass([Br(ForCond(g)), LabelDef(ForCond(g))], f1);
      var f4 := Pass(b.code, Pass(x.code + [LabelDef(ForBody(g))], f2));
      && AtUpdate(f4, g, f1.avail, b.g.c.labels) && Outer(f, f4, g.c.labels)
      && (b.g.inReturnBlock || f1.avail <= f4.avail)
    decreases s, 1
  {
    hide Starts, Pass, Flows, Visible, Jumps, Outer, Local, Keeps, AtLeast, Reachable, Adds, New, GenGuard, GenUpdate,
         Resolved, OptionResolved, GenStmt;
    var n, lo := g.c.labels, f1.avail;
    var f2 := Pass([Br(ForCond(g)), LabelDef(ForCond(g))], f1);
    EnterBlock(f1, ForCond(g), n, i.g.c.labels);
    GuardFork(f1, f2, n, i.g.table.scopes, i.g.c, s.guard, g);
    var x := GenGuard(i.g.table.scopes, i.g.c, s.guard, ForBody(g), ForEnd(g));
    var f3 := Pass(x.code + [LabelDef(ForBody(g))], f2);
    var g1 := i.g.(c := x.c, inReturnBlock := false);
    FreshReachable(f3, ForEnd(g), lo, x.c.labels);
    FreshReachable(f3, ForUpdate(g), lo, x.c.labels);
    LoopJumps(f3, g1, ForEnd(g), ForUpdate(g));
    VisibleMore(i.g.table.scopes, lo, f3.avail);
    StmtPasses(f3, g1, s.body, true);
    var b := GenStmt(g1, s.body);
    var f4 := Pass(b.code, f3);
    KeepsMeans(f3, f4, x.c.labels, b.g.c.labels, b.g.inReturnBlock);
    StillAtLeast(f3, f4, ForUpdate(g), lo, x.c.labels);
    StillAtLeast(f3, f4, ForEnd(g), lo, x.c.labels);
    StillSeen(f3, f4, lo, x.c.labels, x.c.labels);
    OuterPassed(f3, f4, ForCond(g), x.c.labels);
    AddsLocal(f, f1, n + 4);
    LocalLess(f, f1, n, n + 4);
    LocalThen(f, f1, f3, n, n);
    LocalOuter(f, f3, n);
    AddsAvail(f, f1, n + 4);
    OuterThen(f, f3, f4, n, x.c.labels);
  }

  /** Update and back edge of a `for`. */
  lemma ForTailPasses(
    f4: Flow, g: Context, lo: set<Typed>, t: Scopes<Symbol>, c: Counters, closed: bool, e: Option<Expr>)
    requires AtUpdate(f4, g, lo, c.labels) && (closed || lo <= f4.avail)
    requires Visible(t, lo) && OptionResolved(t, e) && (e.Some? ==> Discardable(e.value))
    ensures
      var u := GenUpdate(t, c, e);
      var f5 := Pass(Closing(closed, ForUpdate(g)) + [LabelDef(ForUpdate(g))], f4);
      var f9 := Pass(Closing(false, ForCond(g)) + [LabelDef(ForEnd(g))], Pass(u.code, f5));
      Starts(f9, u.c.labels) && Local(f4, f9, g.c.labels) && lo <= f9.avail && c.labels <= u.c.labels
  {
    hide Starts, Pass, Flows, Visible, Local, AtLeast, Reachable, Adds, GenUpdate, OptionResolved, Closing;
    var n, m := g.c.labels, c.labels;
    FreshReachable(f4, ForUpdate(g), lo, m);
    CloseThenLand(f4, closed, ForUpdate(g), ForUpdate(g), lo, n, m);
    var f5 := Pass(Closing(closed, ForUpdate(g)) + [LabelDef(ForUpdate(g))], f4);
    SameAtLeast(f4, f5, ForEnd(g), ForUpdate(g), lo);
    VisibleMore(t, lo, f5.avail);
    UpdatePasses(t, f5, c, e);
    var u := GenUpdate(t, c, e);
    var f6 := Pass(u.code, f5);
    FlowsMeans(f5, u.code, m, u.c.labels);
    AddsLocal(f5, f6, m);
    LocalAtLeast(f5, f6, ForEnd(g), lo, m);
    LocalPassed(f5, f6, ForCond(g), m);
    BackReachable(f6, ForCond(g), lo, u.c.labels);
    CloseThenLand(f6, false, ForCond(g), ForEnd(g), lo, n, u.c.labels);
    var f9 := Pass(Closing(false, ForCond(g)) + [LabelDef(ForEnd(g))], f6);
    LocalLess(f5, f6, n, m);
    LocalThen(f4, f5, f6, n, n);
    LocalThen(f4, f6, f9, n, n);
  }

  lemma SameAtLeast(s: Flow, s': Flow, l: Label, k: Label, lo: set<Typed>)
    requires AtLeast(s, l, lo) && l != k && s'.passed == s.passed + {k}
    requires l in s'.at <==> l in s.at
    requires l in s.at ==> s'.at[l] == s.at[l]
    ensures AtLeast(s', l, lo)
  {
  }

  lemma BackReachable(s: Flow, l: Label, lo: set<Typed>, n: nat)
    requires l in s.passed && l in s.at && s.at[l] == lo <= s.avail && l.id <= n && Starts(s, n)
    ensures Reachable(s, Some(l), n) && lo <= s.seen
  {
  }

  /** One round of a `for`, from its test on. */
  lemma {:induction false} ForRound(f: Flow, f1: Flow, g: Context, s: Stmt, i: StmtCode)
    requires s.For? && !g.inReturnBlock && StmtInFragment(s, false) && StmtResolved(g, s)
    requires i == GenStmt(ForContext(g), s.first) && AtTest(f, f1, g, i)
    ensures
      var x := GenGuard(i.g.table.scopes, i.g.c, s.guard, ForBody(g), ForEnd(g));
      var b := GenStmt(i.g.(c := x.c, inReturnBlock := false), s.body);
      var u := GenUpdate(b.g.table.scopes, b.g.c, s.update);
      var f9 := Pass(ForLines(g, x, b, u), f1);
      g.c.labels <= u.c.labels && Starts(f9, u.c.labels) && Outer(f, f9, g.c.labels) && f1.avail <= f9.avail
    decreases s, 2
  {
    hide Starts, Pass, Flows, Visible, Outer, Local, AtLeast, Adds, New, GenGuard, GenUpdate, Resolved, OptionResolved,
         Closing;
    var x := GenGuard(i.g.table.scopes, i.g.c, s.guard, ForBody(g), ForEnd(g));
    var g1 := i.g.(c := x.c, inReturnBlock := false);
    var b := GenStmt(g1, s.body);
    var u := GenUpdate(b.g.table.scopes, b.g.c, s.update);
    ForBodyPasses(f, f1, g, s, i);
    StmtRestores(g1, s.body);
    var first := [Br(ForCond(g)), LabelDef(ForCond(g))];
    var second := x.code + [LabelDef(ForBody(g))];
    var third := Closing(b.g.inReturnBlock, ForUpdate(g)) + [LabelDef(ForUpdate(g))];
    var last := Closing(false, ForCond(g)) + [LabelDef(ForEnd(g))];
    var f3 := Pass(second, Pass(first, f1));
    var f4 := Pass(b.code, f3);
    ForTailPasses(f4, g, f1.avail, b.g.table.scopes, b.g.c, b.g.inReturnBlock, s.update);
    OuterLocal(f, f4, Pass(last, Pass(u.code, Pass(third, f4))), g.c.labels, g.c.labels);
    PassAppend3(first, second, b.code + (third + (u.code + last)), f1);
    PassAppend3(b.code, third, u.code + last, f3);
    PassAppend(u.code, last, Pass(third, f4));
  }

  lemma {:induction false} StmtsPass(f: Flow, g: Context, ss: seq<Stmt>, inLoop: bool)
    requires Starts(f, g.c.labels) && Visible(g.table.scopes, f.avail) && Jumps(f, g)
    requires StmtsInFragment(ss, inLoop) && StmtsResolved(g, ss)
    ensures CodeKeeps(f, g, GenStmts(g, ss))
    decreases ss, 0
  {
    hide Starts, Pass, GenStmt, StmtResolved, StmtInFragment, Visible, Jumps, Outer, Keeps;
    NothingKept(f, g);
    if ss != [] && !g.inReturnBlock {
      var a := GenStmt(g, ss[0]);
      var f1 := Pass(a.code, f);
      var rest := GenStmts(a.g, ss[1..]);
      StmtPasses(f, g, ss[0], inLoop);
      KeepsMeans(f, f1, g.c.labels, a.g.c.labels, a.g.inReturnBlock);
      StmtRestores(g, ss[0]);
      PassAppend(a.code, rest.code, f);
      if a.g.inReturnBlock {
        PassNothing(f1);
      } else {
        JumpsKept(f, f1, g, a.g);
        StmtsPass(f1, a.g, ss[1..], inLoop);
        var f2 := Pass(rest.code, f1);
        KeepsMeans(f1, f2, a.g.c.labels, rest.g.c.labels, rest.g.inReturnBlock);
        OuterThen(f, f1, f2, g.c.labels, a.g.c.labels);
        KeepsIntro(f, f2, g.c.labels, rest.g.c.labels, rest.g.inReturnBlock);
      }
    }
  }

  // ----- Functions -----

  lemma {:induction false} ParamsPass(f: Flow, t: Table, params: seq<string>, n: nat)
    requires Starts(f, n) && Visible(t.scopes, f.avail)
    ensures
      var x := GenParams(t, params);
      var f' := Pass(x.code, f);
      && Starts(f', n) && f.avail <= f'.avail && Visible(x.table.scopes, f'.avail)
      && f'.at == f.at && f'.passed == f.passed
    decreases params
  {
    hide Starts, Visible;
    if params != [] {
      var x := params[0];
      var t1 := AddSymbol(t, x, VariableSymbol, true);
      if x in t.scopes.vars {
        ParamsPass(f, t1, params[1..], n);
      } else {
        var sym := NewSymbol(t, x, VariableSymbol, true);
        var first := [Alloca(SlotOf(sym), I32), Store(I32, Incoming(x), SlotOf(sym))];
        var f1 := WithSlot(f, SlotOf(sym), I32);
        StartsOk(f, n);
        PassTwo(first[0], first[1], f);
        assert Through(first[1], Through(first[0], f)) == f1;
        WithSlotAdds(f, SlotOf(sym), I32, n);
        VisibleMore(t.scopes, f.avail, f1.avail);
        VisibleBound(t.scopes, f1.avail, x, sym);
        ParamsPass(f1, t1, params[1..], n);
        PassAppend(first, GenParams(t1, params[1..]).code, f);
      }
    }
  }

  lemma StartHolds(n: nat)
    ensures Starts(Start(), n)
  {
  }

  /** File-scope names need no line of the function. */
  lemma FileScopeVisible(t: Scopes<Symbol>, a: set<Typed>)
    requires t.Base? && forall x :: x in t.vars ==> t.vars[x].isGlobal && !t.vars[x].isParameter
    ensures Visible(t, a)
  {
  }

  lemma EpiloguePasses(s: Flow, closed: bool, n: nat)
    requires Starts(s, n)
    ensures Pass(Epilogue(closed), s).ok
  {
    if !closed {
      PassOne(Ret(Imm(0)), s);
    }
  }

  lemma FunctionPasses(g: Context, def: FunDef)
    requires AtFileLevel(g)
    requires def.body.Block? && StmtInFragment(def.body, false) && StmtResolved(BodyContext(g, def), def.body)
    ensures Pass(GenFunction(g, def).code, Start()).ok
  {
    hide Starts, Pass, GenStmt, GenParams, StmtInFragment, StmtResolved, Visible, Outer, Keeps;
    var n := g.c.labels;
    var t := FunctionEntry(g, def).table;
    var ps := GenParams(t, def.params).code;
    var b := GenStmt(BodyContext(g, def), def.body);
    StartHolds(n);
    FileScopeVisible(t.scopes.outer, {});
    VisiblePushed(t.scopes.outer, {});
    ParamsPass(Start(), t, def.params, n);
    var f1 := Pass(ps, Start());
    StmtPasses(f1, BodyContext(g, def), def.body, false);
    var f2 := Pass(b.code, f1);
    KeepsMeans(f1, f2, n, b.g.c.labels, b.g.inReturnBlock);
    EpiloguePasses(f2, b.g.inReturnBlock, b.g.c.labels);
    PassAppend3(ps, b.code, Epilogue(b.g.inReturnBlock), Start());
  }

  /** On every path through the printed code of a function, whether control can
      take it or not, a temporary or slot that a line uses was set by an earlier
      line of the path: its definition dominates the use. */
  lemma UsesAreDominated(g: Context, def: FunDef, path: seq<nat>, x: Typed)
    requires AtFileLevel(g)
    requires def.body.Block? && StmtInFragment(def.body, false) && StmtResolved(BodyContext(g, def), def.body)
    requires IsPath(GenFunction(g, def).code, path) && path[|path| - 1] < |GenFunction(g, def).code|
    requires x in Uses(GenFunction(g, def).code[path[|path| - 1]])
    ensures
      var code := GenFunction(g, def).code;
      exists k :: 0 <= k < |path| - 1 && path[k] < |code| && x in Sets(code[path[k]])
  {
    hide GenFunction, StmtInFragment, StmtResolved, BodyContext, PlainInits, Pass, Known, SetOn, Uses;
    var code := GenFunction(g, def).code;
    FunctionPasses(g, def);
    FragmentPlain(def.body, false);
    ControlFlowWellFormed(g, def);
    PathSets(code, path);
    UsesKnown(code, path[|path| - 1]);
    var k := SetSomewhere(code, path, x);
  }

  /** In unreachable code too, what a line uses is defined in an earlier line. */
  lemma UsesAreDefined(g: Context, def: FunDef, i: nat, x: Typed)
    requires AtFileLevel(g)
    requires def.body.Block? && StmtInFragment(def.body, false) && StmtResolved(BodyContext(g, def), def.body)
    requires i < |GenFunction(g, def).code| && x in Uses(GenFunction(g, def).code[i])
    ensures exists k :: 0 <= k < i && x in Sets(GenFunction(g, def).code[k])
  {
    hide GenFunction, StmtInFragment, StmtResolved, BodyContext, Pass, Uses;
    FunctionPasses(g, def);
    UsedAreDefined(GenFunction(g, def).code, i, x);
  }
}
