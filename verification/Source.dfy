/** What a C program of the int fragment does (ISO/IEC 9899:1999 sections 6.5
    and 6.8).  Operands are evaluated left to right.  Fuel bounds the number of
    loop iterations and nested calls, so running out of it at every amount
    means running forever. */
module Source {
  import opened Options
  import opened Int32
  import opened Ast
  import opened Scopes

  /** A variable that was never assigned holds no value. */
  datatype Cell = Unset | Held(value: int32)

  type Env = Scopes<Cell>
  type Program = map<string, FunDef>

  datatype Error = Arithmetic | Uninitialised | BadCall | Unbound

  datatype Result = Val(v: int32, env: Env) | Wrong(error: Error) | OutOfFuel
  datatype Results = Vals(vs: seq<int32>, env: Env) | WrongArgs(error: Error) | ArgsOutOfFuel
  datatype Answer = Answer(v: int32, globals: map<string, Cell>) | Failed(error: Error) | NoAnswer

  datatype Outcome =
    | Normal(env: Env)
    | Broke(env: Env)
    | Continued(env: Env)
    | Returned(v: int32, env: Env)
    | Crashed(error: Error)
    | Running

  function FromBool(b: bool): int32 { if b then 1 else 0 }

  function Checked(ok: bool, v: int): Option<int32> { if ok then Some(Wrap(v)) else None }

  /** Every binary operator except the two that short-circuit. */
  function Operate(op: BinaryOp, a: int32, b: int32): Option<int32>
    requires op != LAnd && op != LOr
  {
    var x: int, y: int := a, b;
    match op
    case Add => Some(Wrap(x + y))
    case Sub => Some(Wrap(x - y))
    case Mul => Some(Wrap(x * y))
    case Div => if DivisionDefined(a, b) then Some(Wrap(Quotient(a, b))) else None
    case Mod => if DivisionDefined(a, b) then Some(Wrap(Remainder(a, b))) else None
    case Eq => Some(FromBool(a == b))
    case Ne => Some(FromBool(a != b))
    case Lt => Some(FromBool(a < b))
    case Le => Some(FromBool(a <= b))
    case Gt => Some(FromBool(a > b))
    case Ge => Some(FromBool(a >= b))
    case BAnd => Some(Bitwise(AndGate, a, b))
    case BOr => Some(Bitwise(OrGate, a, b))
    case BXor => Some(Bitwise(XorGate, a, b))
    case Shl => if ShiftDefined(b) then Some(Wrap(x * Pow2(b))) else None
    case Shr => if ShiftDefined(b) then Some(Wrap(x / Pow2(b))) else None
  }

  function Stepped(op: UnaryOp, v: int32): int32 {
    var x: int := v;
    if op == PreInc || op == PostInc then Wrap(x + 1) else Wrap(x - 1)
  }

  function Eval(p: Program, fuel: nat, e: Expr, env: Env): Result
    decreases fuel, e, 0
  {
    match e
    case Number(v) => Val(v, env)
    case Var(x) =>
      (match Find<Cell>(env, x)
       case None => Wrong(Unbound)
       case Some(Unset) => Wrong(Uninitialised)
       case Some(Held(v)) => Val(v, env))
    case Binary(op, l, r) =>
      (match Eval(p, fuel, l, env)
       case Val(a, env1) =>
         if op == LAnd && a == 0 then Val(0, env1)
         else if op == LOr && a != 0 then Val(1, env1)
         else
           (match Eval(p, fuel, r, env1)
            case Val(b, env2) =>
              if op == LAnd || op == LOr then Val(FromBool(b != 0), env2)
              else (match Operate(op, a, b)
                    case None => Wrong(Arithmetic)
                    case Some(v) => Val(v, env2))
            case bad => bad)
       case bad => bad)
    case Assign(x, rhs) =>
      (match Eval(p, fuel, rhs, env)
       case Val(v, env1) =>
         if Find(env1, x).None? then Wrong(Unbound) else Val(v, Update(env1, x, Held(v)))
       case bad => bad)
    case Unary(op, e1) =>
      if IsStep(op) then
        if !e1.Var? then Wrong(Unbound)
        else
          (match Find<Cell>(env, e1.name)
           case None => Wrong(Unbound)
           case Some(Unset) => Wrong(Uninitialised)
           case Some(Held(v)) =>
             var v' := Stepped(op, v);
             Val(if op == PreInc || op == PreDec then v' else v, Update(env, e1.name, Held(v'))))
      else
        (match Eval(p, fuel, e1, env)
         case Val(v, env1) =>
           Val((match op
                case Neg => var x: int := v; Wrap(-x)
                case BNot => Wrap(-1 - v)
                case _ => FromBool(v == 0)), env1)
         case bad => bad)
    case Cond(c, t, f) =>
      (match Eval(p, fuel, c, env)
       case Val(v, env1) => Eval(p, fuel, if v != 0 then t else f, env1)
       case bad => bad)
    case Call(f, args) =>
      (match EvalArgs(p, fuel, args, env)
       case Vals(vs, env1) =>
         if fuel == 0 then OutOfFuel
         else
           (match Invoke(p, fuel - 1, f, vs, Globals(env1))
            case Answer(v, g) => Val(v, WithGlobals(env1, g))
            case Failed(err) => Wrong(err)
            case NoAnswer => OutOfFuel)
       case WrongArgs(err) => Wrong(err)
       case ArgsOutOfFuel => OutOfFuel)
  }

  function EvalArgs(p: Program, fuel: nat, es: seq<Expr>, env: Env): (r: Results)
    ensures r.Vals? ==> |r.vs| == |es|
    decreases fuel, es, 0
  {
    if es == [] then Vals([], env)
    else
      match Eval(p, fuel, es[0], env)
      case Val(v, env1) =>
        (match EvalArgs(p, fuel, es[1..], env1)
         case Vals(vs, env2) => Vals([v] + vs, env2)
         case bad => bad)
      case Wrong(err) => WrongArgs(err)
      case OutOfFuel => ArgsOutOfFuel
  }

  function Cells(args: map<string, int32>): map<string, Cell> {
    map x | x in args :: Held(args[x])
  }

  /** Calls a function.  Falling off the end returns 0. */
  function Invoke(p: Program, fuel: nat, f: string, vs: seq<int32>, globals: map<string, Cell>): Answer
    decreases fuel, if f in p then p[f] else FunDef("", [], Empty)
  {
    if f !in p || |p[f].params| != |vs| then Failed(BadCall)
    else
      match Exec(p, fuel, p[f].body, Inner(Cells(Zip(p[f].params, vs)), Base(globals)))
      case Normal(env) => Answer(0, Globals(env))
      case Returned(v, env) => Answer(v, Globals(env))
      case Crashed(err) => Failed(err)
      case Running => NoAnswer
      case Broke(_) => Failed(Unbound)
      case Continued(_) => Failed(Unbound)
  }

  function Popped(o: Outcome): Outcome {
    match o
    case Normal(env) => Normal(Pop(env))
    case Broke(env) => Broke(Pop(env))
    case Continued(env) => Continued(Pop(env))
    case Returned(v, env) => Returned(v, Pop(env))
    case _ => o
  }

  function Aborted(r: Result): Outcome
    requires !r.Val?
  {
    if r.Wrong? then Crashed(r.error) else Running
  }

  function Exec(p: Program, fuel: nat, s: Stmt, env: Env): Outcome
    decreases fuel, s, 2
  {
    match s
    case Block(ss) => Popped(ExecSeq(p, fuel, ss, Push(env)))
    case Decl(x, init) =>
      var env1 := Bind(env, x, Unset);
      if init.None? then Normal(env1)
      else
        (match Eval(p, fuel, init.value, env1)
         case Val(v, env2) => Normal(Update(env2, x, Held(v)))
         case bad => Aborted(bad))
    case ExprStmt(e) =>
      (match Eval(p, fuel, e, env)
       case Val(_, env1) => Normal(env1)
       case bad => Aborted(bad))
    case If(c, t, f) =>
      (match Eval(p, fuel, c, env)
       case Val(v, env1) =>
         if v != 0 then ExecScoped(p, fuel, t, env1)
         else if f.Some? then ExecScoped(p, fuel, f.value, env1)
         else Normal(env1)
       case bad => Aborted(bad))
    case While(c, b) =>
      (match Eval(p, fuel, c, env)
       case Val(v, env1) =>
         if v == 0 then Normal(env1)
         else
           (match ExecScoped(p, fuel, b, env1)
            case Normal(env2) => if fuel == 0 then Running else Exec(p, fuel - 1, s, env2)
            case Continued(env2) => if fuel == 0 then Running else Exec(p, fuel - 1, s, env2)
            case Broke(env2) => Normal(env2)
            case o => o)
       case bad => Aborted(bad))
    case DoWhile(b, c) =>
      (match ExecScoped(p, fuel, b, env)
       case Broke(env1) => Normal(env1)
       case Returned(v, env1) => Returned(v, env1)
       case Crashed(err) => Crashed(err)
       case Running => Running
       case o =>
         (match Eval(p, fuel, c, o.env)
          case Val(v, env2) =>
            if v == 0 then Normal(env2)
            else if fuel == 0 then Running else Exec(p, fuel - 1, s, env2)
          case bad => Aborted(bad)))
    case For(first, _, _, _) =>
      (match Exec(p, fuel, first, Push(env))
       case Normal(env1) => Popped(ExecFor(p, fuel, s, env1))
       case o => Popped(o))
    case Break => Broke(env)
    case Continue => Continued(env)
    case Return(e) =>
      (match Eval(p, fuel, e, env)
       case Val(v, env1) => Returned(v, env1)
       case bad => Aborted(bad))
    case Empty => Normal(env)
  }

  /** The branches of an `if` and the bodies of `while` and `do` are blocks of
      their own (C99 6.8.4, 6.8.5). */
  function ExecScoped(p: Program, fuel: nat, s: Stmt, env: Env): Outcome
    decreases fuel, s, 3
  {
    Popped(Exec(p, fuel, s, Push(env)))
  }

  /** A `for` from its first test on. */
  function ExecFor(p: Program, fuel: nat, s: Stmt, env: Env): Outcome
    requires s.For?
    decreases fuel, s, 1
  {
    match EvalGuard(p, fuel, s, env)
    case Val(v, env1) =>
      if v == 0 then Normal(env1)
      else
        (match Exec(p, fuel, s.body, env1)
         case Broke(env2) => Normal(env2)
         case Returned(v, env2) => Returned(v, env2)
         case Crashed(err) => Crashed(err)
         case Running => Running
         case o =>
           (match EvalUpdate(p, fuel, s, o.env)
            case Val(_, env3) => if fuel == 0 then Running else ExecFor(p, fuel - 1, s, env3)
            case bad => Aborted(bad)))
    case bad => Aborted(bad)
  }

  /** A missing condition counts as true. */
  function EvalGuard(p: Program, fuel: nat, s: Stmt, env: Env): Result
    requires s.For?
    decreases fuel, s, 0
  {
    if s.guard.None? then Val(1, env) else Eval(p, fuel, s.guard.value, env)
  }

  function EvalUpdate(p: Program, fuel: nat, s: Stmt, env: Env): Result
    requires s.For?
    decreases fuel, s, 0
  {
    if s.update.None? then Val(0, env) else Eval(p, fuel, s.update.value, env)
  }

  function ExecSeq(p: Program, fuel: nat, ss: seq<Stmt>, env: Env): Outcome
    decreases fuel, ss, 1
  {
    if ss == [] then Normal(env)
    else
      match Exec(p, fuel, ss[0], env)
      case Normal(env1) => ExecSeq(p, fuel, ss[1..], env1)
      case o => o
  }
}
