/** What the operators of the source are, told without them: C99's laws for each
    operator on all values, and expressions that mean the same as others. */
module SourceLaws {
  import opened Options
  import opened Int32
  import opened Ast
  import opened Scopes
  import opened Source
  import opened Ir

  /** Sums, differences and products are right modulo 2^32. */
  lemma ArithmeticMeans(a: int32, b: int32)
    ensures Operate(Add, a, b).Some? && (Operate(Add, a, b).value - (a + b)) % 0x1_0000_0000 == 0
    ensures Operate(Sub, a, b).Some? && (Operate(Sub, a, b).value - (a - b)) % 0x1_0000_0000 == 0
    ensures Operate(Mul, a, b).Some? && (Operate(Mul, a, b).value - a * b) % 0x1_0000_0000 == 0
  {
  }

  /** Quotient and remainder fail for 0 and for the one quotient that does not
      fit; otherwise they make up the dividend, and the remainder is smaller than
      the divisor and has the dividend's sign. */
  lemma DivisionMeans(a: int32, b: int32)
    ensures Operate(Div, a, b).None? <==> b == 0 || (a == -0x8000_0000 && b == -1)
    ensures Operate(Mod, a, b).None? <==> Operate(Div, a, b).None?
    ensures Operate(Div, a, b).Some? ==>
              var q, r := Operate(Div, a, b).value, Operate(Mod, a, b).value;
              && q * b + r == a && Abs(r) < Abs(b) && (r == 0 || (r < 0 <==> a < 0))
  {
    if DivisionDefined(a, b) {
      DivisionLaw(a, b);
    }
  }

  lemma ComparisonMeans(a: int32, b: int32)
    ensures Operate(Eq, a, b) == Some(if a == b then 1 else 0) && Operate(Ne, a, b) == Some(if a == b then 0 else 1)
    ensures Operate(Lt, a, b) == Some(if a < b then 1 else 0) && Operate(Ge, a, b) == Some(if a < b then 0 else 1)
    ensures Operate(Gt, a, b) == Some(if b < a then 1 else 0) && Operate(Le, a, b) == Some(if b < a then 0 else 1)
  {
  }

  /** Bit by bit. */
  lemma BitwiseMeans(a: int32, b: int32, i: nat)
    requires i < 32
    ensures Operate(BAnd, a, b).Some? && Operate(BOr, a, b).Some? && Operate(BXor, a, b).Some?
    ensures
      var n, o, x := Operate(BAnd, a, b).value, Operate(BOr, a, b).value, Operate(BXor, a, b).value;
      && (PatternBit(n, i) == 1 <==> PatternBit(a, i) == 1 && PatternBit(b, i) == 1)
      && (PatternBit(o, i) == 1 <==> PatternBit(a, i) == 1 || PatternBit(b, i) == 1)
      && (PatternBit(x, i) == 1 <==> PatternBit(a, i) != PatternBit(b, i))
  {
    hide Bitwise, PatternBit;
    BitwiseBits(a, b, i);
  }

  /** `(a | b) + (a & b)` and `(a ^ b) + 2 * (a & b)` are `a + b`. */
  lemma BitwiseSums(a: int32, b: int32, n: int32, o: int32, x: int32)
    requires Operate(BAnd, a, b) == Some(n) && Operate(BOr, a, b) == Some(o) && Operate(BXor, a, b) == Some(x)
    ensures Operate(Add, o, n) == Operate(Add, a, b)
    ensures Operate(Add, x, Wrap(2 * n)) == Operate(Add, a, b)
  {
    hide Bitwise, Wrap;
    BitwiseAdds(a, b);
    WrapsInside(x, 2 * n);
  }

  lemma WrapsInside(x: int, y: int)
    ensures Wrap(x + Wrap(y)) == Wrap(x + y)
  {
    SameWrap(x + Wrap(y), x + y, (Wrap(y) - y) / MODULUS);
  }

  /** Shifts fail outside 0 to 31; to the left they multiply by a power of two
      modulo 2^32, to the right they divide by it, rounding down. */
  lemma ShiftMeans(a: int32, b: int32)
    ensures Operate(Shl, a, b).None? <==> b < 0 || b > 31
    ensures Operate(Shr, a, b).None? <==> b < 0 || b > 31
    ensures 0 <= b <= 31 ==>
              && (Operate(Shl, a, b).value - a * Pow2(b)) % 0x1_0000_0000 == 0
              && Operate(Shr, a, b).value * Pow2(b) <= a < (Operate(Shr, a, b).value + 1) * Pow2(b)
  {
    hide Pow2;
    if 0 <= b <= 31 {
      var x: int := a;
      QuotientBounds(x, Pow2(b));
    }
  }

  lemma QuotientBounds(x: int, d: nat)
    requires d > 0
    ensures x / d * d <= x < (x / d + 1) * d
    ensures -0x8000_0000 <= x < 0x8000_0000 ==> -0x8000_0000 <= x / d < 0x8000_0000
  {
    var q := x / d;
    assert x == q * d + x % d && (q + 1) * d == q * d + d;
    if q >= 0 {
      MulOrder(1, d, q);
    } else {
      MulOrder(1, d, -q);
      if q < -0x8000_0000 && x >= -0x8000_0000 {
        MulOrder(0x8000_0001, -q, d);
      }
    }
  }

  /** The machine's instructions are the operators of those names. */
  lemma ArithmeticInstructions(a: int32, b: int32)
    ensures Opcode32(AddI, a, b) == Operate(Add, a, b) && Opcode32(SubI, a, b) == Operate(Sub, a, b)
    ensures Opcode32(MulI, a, b) == Operate(Mul, a, b)
    ensures Opcode32(SDivI, a, b) == Operate(Div, a, b) && Opcode32(SRemI, a, b) == Operate(Mod, a, b)
  {
  }

  lemma BitInstructions(a: int32, b: int32)
    ensures Opcode32(AndI, a, b) == Operate(BAnd, a, b) && Opcode32(OrI, a, b) == Operate(BOr, a, b)
    ensures Opcode32(XorI, a, b) == Operate(BXor, a, b)
    ensures Opcode32(ShlI, a, b) == Operate(Shl, a, b) && Opcode32(AShrI, a, b) == Operate(Shr, a, b)
  {
    hide Bitwise;
  }

  lemma PredicatesMean(a: int32, b: int32)
    ensures Compare(EqP, a, b) <==> Operate(Eq, a, b) == Some(1)
    ensures Compare(NeP, a, b) <==> Operate(Ne, a, b) == Some(1)
    ensures Compare(SltP, a, b) <==> Operate(Lt, a, b) == Some(1)
    ensures Compare(SleP, a, b) <==> Operate(Le, a, b) == Some(1)
    ensures Compare(SgtP, a, b) <==> Operate(Gt, a, b) == Some(1)
    ensures Compare(SgeP, a, b) <==> Operate(Ge, a, b) == Some(1)
  {
  }

  // ----- Expressions that mean the same -----

  lemma Literal(p: Program, fuel: nat, n: int32, env: Env)
    ensures Eval(p, fuel, Number(n), env) == Val(n, env)
  {
  }

  /** A test of a value against 0. */
  lemma TestsZero(p: Program, fuel: nat, b: Expr, zero: Expr, env: Env)
    requires zero == Number(0)
    ensures
      var r := Eval(p, fuel, b, env);
      && Eval(p, fuel, Binary(Ne, b, zero), env) == (if r.Val? then Val(FromBool(r.v != 0), r.env) else r)
      && Eval(p, fuel, Binary(Eq, b, zero), env) == (if r.Val? then Val(FromBool(r.v == 0), r.env) else r)
  {
    var r := Eval(p, fuel, b, env);
    if r.Val? {
      Literal(p, fuel, 0, r.env);
    }
  }

  /** `a && b` is `a ? b != 0 : 0`. */
  lemma AndIsChoice(p: Program, fuel: nat, a: Expr, b: Expr, env: Env)
    ensures
      Eval(p, fuel, Binary(LAnd, a, b), env)
      == Eval(p, fuel, Cond(a, Binary(Ne, b, Number(0)), Number(0)), env)
  {
    var r := Eval(p, fuel, a, env);
    if r.Val? {
      TestsZero(p, fuel, b, Number(0), r.env);
      Literal(p, fuel, 0, r.env);
    }
  }

  /** `a || b` is `a ? 1 : b != 0`. */
  lemma OrIsChoice(p: Program, fuel: nat, a: Expr, b: Expr, env: Env)
    ensures
      Eval(p, fuel, Binary(LOr, a, b), env)
      == Eval(p, fuel, Cond(a, Number(1), Binary(Ne, b, Number(0))), env)
  {
    var r := Eval(p, fuel, a, env);
    if r.Val? {
      TestsZero(p, fuel, b, Number(0), r.env);
      Literal(p, fuel, 1, r.env);
    }
  }

  /** `-a` is `0 - a`. */
  lemma NegIsDifference(p: Program, fuel: nat, a: Expr, zero: Expr, env: Env)
    requires zero == Number(0)
    ensures Eval(p, fuel, Unary(Neg, a), env) == Eval(p, fuel, Binary(Sub, zero, a), env)
  {
    Literal(p, fuel, 0, env);
  }

  /** `~a` is `a ^ -1`. */
  lemma ComplementIsXor(p: Program, fuel: nat, a: Expr, ones: Expr, env: Env)
    requires ones == Number(-1)
    ensures Eval(p, fuel, Unary(BNot, a), env) == Eval(p, fuel, Binary(BXor, a, ones), env)
  {
    hide Bitwise, Wrap;
    var r := Eval(p, fuel, a, env);
    if r.Val? {
      XorMinusOne(r.v);
      Literal(p, fuel, -1, r.env);
    }
  }

  /** `!a` is `a == 0`. */
  lemma NotIsEqualZero(p: Program, fuel: nat, a: Expr, zero: Expr, env: Env)
    requires zero == Number(0)
    ensures Eval(p, fuel, Unary(Not, a), env) == Eval(p, fuel, Binary(Eq, a, zero), env)
  {
    TestsZero(p, fuel, a, zero, env);
  }

  /** x and a literal. */
  lemma WithLiteral(p: Program, fuel: nat, op: BinaryOp, x: string, n: Expr, env: Env)
    requires n == Number(1) && (op == Add || op == Sub)
    ensures
      var r := Eval(p, fuel, Var(x), env);
      Eval(p, fuel, Binary(op, Var(x), n), env)
      == if r.Val? then Val(Operate(op, r.v, 1).value, env) else r
  {
    Literal(p, fuel, 1, env);
    assert Eval(p, fuel, Var(x), env).Val? ==> Eval(p, fuel, Var(x), env).env == env;
  }

  /** `++x` is `x = x + 1` and `--x` is `x = x - 1`. */
  lemma StepIsAssignment(p: Program, fuel: nat, op: UnaryOp, plus: BinaryOp, x: string, env: Env)
    requires (op == PreInc && plus == Add) || (op == PreDec && plus == Sub)
    ensures
      Eval(p, fuel, Unary(op, Var(x)), env) == Eval(p, fuel, Assign(x, Binary(plus, Var(x), Number(1))), env)
  {
    var e := Binary(plus, Var(x), Number(1));
    WithLiteral(p, fuel, plus, x, Number(1), env);
    var r := Eval(p, fuel, Var(x), env);
    assert Eval(p, fuel, e, env) == if r.Val? then Val(Operate(plus, r.v, 1).value, env) else r;
  }

  /** `x++` and `x--` do what `++x` and `--x` do and yield what x was. */
  lemma PostStepYieldsOld(p: Program, fuel: nat, op: UnaryOp, pre: UnaryOp, x: string, env: Env)
    requires (op == PostInc && pre == PreInc) || (op == PostDec && pre == PreDec)
    ensures
      var before, after := Eval(p, fuel, Var(x), env), Eval(p, fuel, Unary(pre, Var(x)), env);
      Eval(p, fuel, Unary(op, Var(x)), env) == if before.Val? then Val(before.v, after.env) else before
  {
  }

  // ----- Calls -----

  /** Argument i has the value of expression i, evaluated behind the ones before
      it. */
  lemma {:induction false} ArgumentAt(p: Program, fuel: nat, es: seq<Expr>, env: Env, i: nat)
    requires i < |es| && EvalArgs(p, fuel, es, env).Vals?
    ensures EvalArgs(p, fuel, es[..i], env).Vals?
    ensures
      var before := EvalArgs(p, fuel, es[..i], env).env;
      && Eval(p, fuel, es[i], before).Val?
      && EvalArgs(p, fuel, es, env).vs[i] == Eval(p, fuel, es[i], before).v
    decreases i
  {
    hide Eval;
    if i == 0 {
      assert es[..0] == [];
    } else {
      assert es[..i][0] == es[0] && es[..i][1..] == es[1..][..i - 1];
      ArgumentAt(p, fuel, es[1..], Eval(p, fuel, es[0], env).env, i - 1);
    }
  }

  lemma {:induction false} SeqAppend(p: Program, fuel: nat, ss: seq<Stmt>, last: seq<Stmt>, env: Env)
    ensures
      var o := ExecSeq(p, fuel, ss, env);
      ExecSeq(p, fuel, ss + last, env) == if o.Normal? then ExecSeq(p, fuel, last, o.env) else o
    decreases ss
  {
    hide Exec;
    if ss == [] {
      assert ss + last == last;
    } else {
      assert (ss + last)[1..] == ss[1..] + last;
      var o := Exec(p, fuel, ss[0], env);
      if o.Normal? {
        SeqAppend(p, fuel, ss[1..], last, o.env);
      }
    }
  }

  lemma ReturnAlone(p: Program, fuel: nat, s: Stmt, n: int32, env: Env)
    requires s == Return(Number(n))
    ensures Exec(p, fuel, s, env) == Returned(n, env) && ExecSeq(p, fuel, [s], env) == Returned(n, env)
  {
    Literal(p, fuel, n, env);
    assert [s][0] == s;
  }

  /** Falling off the end of a function is `return 0;` there. */
  lemma EndReturnsZero(p: Program, fuel: nat, f: string, vs: seq<int32>, globals: map<string, Cell>, last: Stmt)
    requires f in p && |p[f].params| == |vs| && p[f].body.Block? && last == Return(Number(0))
    ensures
      var body := Exec(p, fuel, Block(p[f].body.stmts + [last]), Inner(Cells(Zip(p[f].params, vs)), Base(globals)));
      && !body.Normal?
      && (body.Returned? ==> Invoke(p, fuel, f, vs, globals) == Answer(body.v, Globals(body.env)))
      && (body.Crashed? ==> Invoke(p, fuel, f, vs, globals) == Failed(body.error))
      && (body.Running? ==> Invoke(p, fuel, f, vs, globals) == NoAnswer)
  {
    hide ExecSeq, Cells, Zip;
    var env := Push(Inner(Cells(Zip(p[f].params, vs)), Base(globals)));
    var ss := p[f].body.stmts;
    SeqAppend(p, fuel, ss, [last], env);
    var o := ExecSeq(p, fuel, ss, env);
    if o.Normal? {
      ReturnAlone(p, fuel, last, 0, o.env);
    }
  }

  // ----- Which way a test goes -----

  /** `if (c) return m; else return n;` is `return c ? m : n;`. */
  lemma IfIsChoice(p: Program, fuel: nat, c: Expr, yes: Stmt, no: Stmt, m: Expr, n: Expr, env: Env)
    requires m.Number? && n.Number? && yes == Return(m) && no == Return(n)
    ensures Exec(p, fuel, If(c, yes, Some(no)), env) == Exec(p, fuel, Return(Cond(c, m, n)), env)
  {
    var r := Eval(p, fuel, c, env);
    if r.Val? {
      ReturnAlone(p, fuel, yes, m.value, Push(r.env));
      ReturnAlone(p, fuel, no, n.value, Push(r.env));
      Literal(p, fuel, m.value, r.env);
      Literal(p, fuel, n.value, r.env);
    }
  }

  /** `while (c) return n;` is `if (c) return n;`; with `do` the body comes
      first. */
  lemma LoopsTest(p: Program, fuel: nat, c: Expr, body: Stmt, n: int32, env: Env)
    requires body == Return(Number(n))
    ensures Exec(p, fuel, While(c, body), env) == Exec(p, fuel, If(c, body, None), env)
    ensures Exec(p, fuel, DoWhile(body, c), env) == Returned(n, env)
  {
    var r := Eval(p, fuel, c, env);
    ReturnAlone(p, fuel, body, n, Push(env));
    if r.Val? {
      ReturnAlone(p, fuel, body, n, Push(r.env));
    }
  }
}
