/** The fragment, told part by part: what no expression and no statement in it may
    be. */
module FragmentShape {
  import opened Ast
  import opened Agreement

  // ----- Expressions -----

  /** The expression and everything inside it. */
  function Parts(e: Expr): set<Expr>
    decreases e, 1
  {
    {e} + match e
          case Binary(_, l, r) => Parts(l) + Parts(r)
          case Assign(_, v) => Parts(v)
          case Unary(_, a) => Parts(a)
          case Cond(c, a, b) => Parts(c) + Parts(a) + Parts(b)
          case Call(_, args) => ArgParts(args)
          case _ => {}
  }

  function ArgParts(es: seq<Expr>): set<Expr>
    decreases es, 0
  {
    if es == [] then {} else Parts(es[0]) + ArgParts(es[1..])
  }

  /** `!`, a step of something that is no variable, an assignment of a literal
      inside an expression, and a comparison that is negated, complemented,
      assigned, chosen or passed. */
  predicate Excluded(e: Expr) {
    match e
    case Unary(op, a) => op == Not || (if IsStep(op) then !a.Var? else IsComparison(a))
    case Assign(_, v) => v.Number? || IsComparison(v)
    case Cond(_, a, b) => IsComparison(a) || IsComparison(b)
    case Call(_, args) => exists i :: 0 <= i < |args| && IsComparison(args[i])
    case _ => false
  }

  ghost predicate NoneExcluded(es: set<Expr>) { forall e :: e in es ==> !Excluded(e) }

  lemma BothFree(a: set<Expr>, b: set<Expr>)
    ensures NoneExcluded(a + b) <==> NoneExcluded(a) && NoneExcluded(b)
  {
    hide Excluded;
    if NoneExcluded(a + b) {
      assert forall e :: e in a ==> e in a + b;
      assert forall e :: e in b ==> e in a + b;
    }
  }

  lemma OneFree(e: Expr)
    ensures NoneExcluded({e}) <==> !Excluded(e)
  {
    hide Excluded;
    assert e in {e};
  }

  /** An expression is in the fragment exactly when none of its parts is one of
      the excluded ones. */
  lemma {:induction false} FragmentExactly(e: Expr)
    ensures InFragment(e) <==> NoneExcluded(Parts(e))
    decreases e, 1
  {
    hide NoneExcluded, IsComparison;
    OneFree(e);
    match e
    case Binary(_, l, r) =>
      FragmentExactly(l);
      FragmentExactly(r);
      BothFree(Parts(l), Parts(r));
      BothFree({e}, Parts(l) + Parts(r));
    case Assign(_, v) =>
      FragmentExactly(v);
      BothFree({e}, Parts(v));
    case Unary(op, a) =>
      FragmentExactly(a);
      BothFree({e}, Parts(a));
    case Cond(c, a, b) =>
      FragmentExactly(c);
      FragmentExactly(a);
      FragmentExactly(b);
      BothFree(Parts(c), Parts(a));
      BothFree(Parts(c) + Parts(a), Parts(b));
      BothFree({e}, Parts(c) + Parts(a) + Parts(b));
    case Call(_, args) =>
      ArgsExactly(args);
      BothFree({e}, ArgParts(args));
    case _ => assert {e} + {} == {e};
  }

  lemma {:induction false} ArgsExactly(es: seq<Expr>)
    ensures AllValues(es) <==>
            NoneExcluded(ArgParts(es)) && forall i :: 0 <= i < |es| ==> !IsComparison(es[i])
    decreases es, 0
  {
    hide IsComparison;
    if es != [] {
      FragmentExactly(es[0]);
      ArgsExactly(es[1..]);
      BothFree(Parts(es[0]), ArgParts(es[1..]));
      var rest := es[1..];
      assert forall i :: 0 < i < |es| ==> es[i] == rest[i - 1];
    }
  }

  // ----- Statements -----

  /** A statement and whether it is in a loop. */
  datatype Spot = Spot(s: Stmt, inLoop: bool)

  function Within(s: Stmt, inLoop: bool): set<Spot>
    decreases s, 1
  {
    {Spot(s, inLoop)} + match s
                        case Block(ss) => AllWithin(ss, inLoop)
                        case If(_, a, b) => Within(a, inLoop) + if b.Some? then Within(b.value, inLoop) else {}
                        case While(_, b) => Within(b, true)
                        case DoWhile(b, _) => Within(b, true)
                        case For(first, _, _, b) => Within(first, false) + Within(b, true)
                        case _ => {}
  }

  function AllWithin(ss: seq<Stmt>, inLoop: bool): set<Spot>
    decreases ss, 0
  {
    if ss == [] then {} else Within(ss[0], inLoop) + AllWithin(ss[1..], inLoop)
  }

  /** What each statement may be: expressions of the fragment, no stored or
      returned comparison, jumps in loops, a `for` with a simple first part and a
      body that is no declaration. */
  predicate Allowed(u: Spot) {
    match u.s
    case Decl(_, init) => init.Some? ==> InFragment(init.value) && !IsComparison(init.value)
    case ExprStmt(e) => InFragment(e) || (e.Assign? && e.rhs.Number?)
    case If(c, _, _) => InFragment(c)
    case While(c, _) => InFragment(c)
    case DoWhile(_, c) => InFragment(c)
    case For(first, c, v, b) =>
      && (first.Decl? || first.ExprStmt? || first.Empty?) && !b.Decl?
      && (c.Some? ==> InFragment(c.value))
      && (v.Some? ==> InFragment(v.value) || (v.value.Assign? && v.value.rhs.Number?))
    case Return(e) => InFragment(e) && !IsComparison(e)
    case Break => u.inLoop
    case Continue => u.inLoop
    case _ => true
  }

  /** No branch or loop body is a declaration. */
  predicate Bracketed(u: Spot) {
    match u.s
    case If(_, a, b) => !a.Decl? && (b.Some? ==> !b.value.Decl?)
    case While(_, b) => !b.Decl?
    case DoWhile(b, _) => !b.Decl?
    case For(_, _, _, b) => !b.Decl?
    case _ => true
  }

  ghost predicate AllAllowed(us: set<Spot>) { forall u :: u in us ==> Allowed(u) }

  ghost predicate AllBracketed(us: set<Spot>) { forall u :: u in us ==> Bracketed(u) }

  lemma BothSpots(a: set<Spot>, b: set<Spot>)
    ensures AllAllowed(a + b) <==> AllAllowed(a) && AllAllowed(b)
    ensures AllBracketed(a + b) <==> AllBracketed(a) && AllBracketed(b)
  {
    hide Allowed, Bracketed;
    assert forall u :: u in a ==> u in a + b;
    assert forall u :: u in b ==> u in a + b;
  }

  lemma OneSpot(u: Spot)
    ensures AllAllowed({u}) <==> Allowed(u)
    ensures AllBracketed({u}) <==> Bracketed(u)
  {
    hide Allowed, Bracketed;
    assert u in {u};
  }

  lemma NoSpot()
    ensures AllAllowed({}) && AllBracketed({})
  {
  }

  /** A statement is in the fragment exactly when every statement in it is
      allowed, and has no bare declaration exactly when every one is bracketed. */
  lemma {:induction false} StmtFragmentExactly(s: Stmt, inLoop: bool)
    ensures StmtInFragment(s, inLoop) <==> AllAllowed(Within(s, inLoop))
    ensures NoBareDecl(s) <==> AllBracketed(Within(s, inLoop))
    decreases s, 1
  {
    hide AllAllowed, AllBracketed, InFragment;
    OneSpot(Spot(s, inLoop));
    NoSpot();
    match s
    case Block(ss) =>
      StmtsFragmentExactly(ss, inLoop);
      BothSpots({Spot(s, inLoop)}, AllWithin(ss, inLoop));
    case If(_, a, b) =>
      StmtFragmentExactly(a, inLoop);
      if b.Some? {
        StmtFragmentExactly(b.value, inLoop);
      }
      var rest := if b.Some? then Within(b.value, inLoop) else {};
      BothSpots(Within(a, inLoop), rest);
      BothSpots({Spot(s, inLoop)}, Within(a, inLoop) + rest);
    case While(_, b) =>
      StmtFragmentExactly(b, true);
      BothSpots({Spot(s, inLoop)}, Within(b, true));
    case DoWhile(b, _) =>
      StmtFragmentExactly(b, true);
      BothSpots({Spot(s, inLoop)}, Within(b, true));
    case For(first, _, _, b) =>
      StmtFragmentExactly(first, false);
      StmtFragmentExactly(b, true);
      BothSpots(Within(first, false), Within(b, true));
      BothSpots({Spot(s, inLoop)}, Within(first, false) + Within(b, true));
    case _ => BothSpots({Spot(s, inLoop)}, {});
  }

  lemma {:induction false} StmtsFragmentExactly(ss: seq<Stmt>, inLoop: bool)
    ensures StmtsInFragment(ss, inLoop) <==> AllAllowed(AllWithin(ss, inLoop))
    ensures NoneBare(ss) <==> AllBracketed(AllWithin(ss, inLoop))
    decreases ss, 0
  {
    hide AllAllowed, AllBracketed;
    NoSpot();
    if ss != [] {
      StmtFragmentExactly(ss[0], inLoop);
      StmtsFragmentExactly(ss[1..], inLoop);
      BothSpots(Within(ss[0], inLoop), AllWithin(ss[1..], inLoop));
    }
  }
}
