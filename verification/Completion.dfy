/** Code the generator leaves out is code the program never gets to. */
module Completion {
  import opened Ast
  import opened Scopes
  import opened Source
  import opened Codegen
  import opened Blocks
  import Statements

  /** A statement that sets the flag never completes normally, whatever the
      program does. */
  lemma {:induction false} NeverCompletes(p: Program, fuel: nat, s: Stmt, env: Env, inLoop: bool)
    requires !CanComplete(s, inLoop)
    ensures !Exec(p, fuel, s, env).Normal?
    decreases s, 1
  {
    hide Eval;
    match s
    case Block(ss) => NeverCompleteInSeq(p, fuel, ss, Push(env), inLoop);
    case If(c, t, f) =>
      if Eval(p, fuel, c, env).Val? {
        var env1 := Eval(p, fuel, c, env).env;
        NeverCompletes(p, fuel, t, Push(env1), inLoop);
        NeverCompletes(p, fuel, f.value, Push(env1), inLoop);
      }
    case _ =>
  }

  lemma {:induction false} NeverCompleteInSeq(p: Program, fuel: nat, ss: seq<Stmt>, env: Env, inLoop: bool)
    requires !AllComplete(ss, inLoop)
    ensures !ExecSeq(p, fuel, ss, env).Normal?
    decreases ss, 0
  {
    hide Exec;
    if !CanComplete(ss[0], inLoop) {
      NeverCompletes(p, fuel, ss[0], env, inLoop);
    } else if Exec(p, fuel, ss[0], env).Normal? {
      NeverCompleteInSeq(p, fuel, ss[1..], Exec(p, fuel, ss[0], env).env, inLoop);
    }
  }

  /** Once the flag is set, the statements left in the block change neither the
      code nor what the program does. */
  lemma {:induction false} SkippedIsDead(
    p: Program, fuel: nat, g: Context, ss: seq<Stmt>, i: nat, env: Env, inLoop: bool)
    requires i <= |ss| && !AllComplete(ss[..i], inLoop)
    requires !g.inReturnBlock && LoopLabels(g, inLoop) && AllPlain(ss)
    ensures GenStmts(g, ss) == GenStmts(g, ss[..i])
    ensures ExecSeq(p, fuel, ss, env) == ExecSeq(p, fuel, ss[..i], env)
    decreases ss
  {
    hide Exec, GenStmt;
    assert ss[..i][1..] == ss[1..][..i - 1];
    StmtShape(g, ss[0], inLoop);
    if CanComplete(ss[0], inLoop) {
      var x := GenStmt(g, ss[0]);
      Statements.StmtRestores(g, ss[0]);
      var env1 := if Exec(p, fuel, ss[0], env).Normal? then Exec(p, fuel, ss[0], env).env else env;
      SkippedIsDead(p, fuel, x.g, ss[1..], i - 1, env1, inLoop);
    } else {
      NeverCompletes(p, fuel, ss[0], env, inLoop);
    }
  }

  /** The flag goes by the shape of a statement, not by what it does: an endless
      loop leaves it clear. */
  lemma {:induction false} EndlessLoopKeepsFlag(p: Program, fuel: nat, g: Context, env: Env)
    requires !g.inReturnBlock
    ensures
      var s := While(Number(1), Empty);
      !GenStmt(g, s).g.inReturnBlock && Exec(p, fuel, s, env) == Running
    decreases fuel
  {
    var s := While(Number(1), Empty);
    assert ExecScoped(p, fuel, Empty, env) == Normal(env);
    if fuel > 0 {
      EndlessLoopKeepsFlag(p, fuel - 1, g, env);
    }
  }
}
