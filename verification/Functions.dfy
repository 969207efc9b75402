/** The code of a whole function. */
module Functions {
  import opened Options
  import opened Ast
  import opened Ir
  import opened Codegen
  import opened Definitions
  import opened Statements
  import opened Blocks
  import opened Targets

  /** Parameters go into the innermost scope. */
  lemma {:induction false} ParamsRestore(t: Table, params: seq<string>)
    requires t.scopes.Inner?
    ensures
      var t' := GenParams(t, params).table;
      && t'.scopes.Inner? && t'.scopes.outer == t.scopes.outer
      && t'.level == t.level && t'.fn == t.fn && t'.uid >= t.uid
    decreases params
  {
    if params != [] {
      ParamsRestore(AddSymbol(t, params[0], VariableSymbol, true), params[1..]);
    }
  }

  lemma {:induction false} ParamsDefineOnce(t: Table, params: seq<string>, c: Counters, x: Item)
    requires t.scopes.Inner?
    ensures DefinesOnce(GenParams(t, params).code, x, c, t.uid, c, GenParams(t, params).table.uid)
    decreases params
  {
    hide Count;
    CountShort([], x);
    if params != [] {
      var t1 := AddSymbol(t, params[0], VariableSymbol, true);
      ParamsDefineOnce(t1, params[1..], c, x);
      if params[0] !in t.scopes.vars {
        var slot := SlotOf(NewSymbol(t, params[0], VariableSymbol, true));
        var first := [Alloca(slot, I32), Store(I32, Incoming(params[0]), slot)];
        LineCounts(first[0], first[1], x);
        CountAppend(first, GenParams(t1, params[1..]).code, x);
      }
    }
  }

  lemma {:induction false} ParamsStraight(t: Table, params: seq<string>)
    ensures Straight(GenParams(t, params).code)
    decreases params
  {
    if params != [] {
      var x := params[0];
      var t1 := AddSymbol(t, x, VariableSymbol, true);
      ParamsStraight(t1, params[1..]);
      var slot := SlotOf(NewSymbol(t, x, VariableSymbol, true));
      var first := [Alloca(slot, I32), Store(I32, Incoming(x), slot)];
      ScanShort(first, true);
      StraightAppend(first, GenParams(t1, params[1..]).code);
    }
  }

  lemma {:induction false} ParamsLand(t: Table, params: seq<string>, l: Label)
    ensures Lands(GenParams(t, params).code, l, false)
    decreases params
  {
    UsesShort([], l);
    if params != [] {
      var x := params[0];
      var t1 := AddSymbol(t, x, VariableSymbol, true);
      ParamsLand(t1, params[1..], l);
      var slot := SlotOf(NewSymbol(t, x, VariableSymbol, true));
      LineLands(Alloca(slot, I32), Store(I32, Incoming(x), slot), l, false);
      LandsAppend([Alloca(slot, I32), Store(I32, Incoming(x), slot)], GenParams(t1, params[1..]).code, l, false);
    }
  }

  /** A function leaves the file scope with its own name added, the flag telling
      how its body ends. */
  lemma FunctionRestores(g: Context, f: FunDef)
    requires g.table.scopes.Base? && f.body.Block?
    ensures
      var g' := GenFunction(g, f).g;
      && g'.table.scopes == AddSymbol(g.table, f.name, FunctionSymbol, false).scopes
      && g'.table.level == g.table.level && g'.table.fn == Some(f.name)
         && g'.table.uid >= AddSymbol(g.table, f.name, FunctionSymbol, false).uid
      && g'.breakLabel == g.breakLabel && g'.continueLabel == g.continueLabel && Grows(g.c, g'.c)
  {
    hide GenStmt, GenParams;
    ParamsRestore(FunctionEntry(g, f).table, f.params);
    StmtRestores(BodyContext(g, f), f.body);
  }

  /** Every label, temporary and slot of a function is defined once, with a
      number no other function uses. */
  lemma FunctionDefinesOnce(g: Context, f: FunDef, x: Item)
    requires g.table.scopes.Base? && f.body.Block?
    ensures StmtOnce(g, GenFunction(g, f).g, GenFunction(g, f).code, x)
  {
    hide GenStmt, GenParams, Count;
    var g1, g2 := FunctionEntry(g, f), BodyContext(g, f);
    var ps := GenParams(g1.table, f.params);
    var b := GenStmt(g2, f.body);
    ParamsRestore(g1.table, f.params);
    ParamsDefineOnce(g1.table, f.params, g.c, x);
    StmtDefinesOnce(g2, f.body, x);
    StmtRestores(g2, f.body);
    var last := Epilogue(b.g.inReturnBlock);
    CountShort(last, x);
    CountAppend3(ps.code, b.code, last, x);
  }

  /** The flag after a function says whether control can fall off its end. */
  lemma FunctionShape(g: Context, f: FunDef)
    requires g.table.scopes.Base? && f.body.Block? && PlainInits(f.body) && LoopLabels(g, false)
    ensures Scan(GenFunction(g, f).code, true) == Some(false)
    ensures GenFunction(g, f).g.inReturnBlock == !CanComplete(f.body, false)
  {
    hide GenStmt, GenParams, Scan;
    var g1, g2 := FunctionEntry(g, f), BodyContext(g, f);
    var ps := GenParams(g1.table, f.params);
    var b := GenStmt(g2, f.body);
    ParamsStraight(g1.table, f.params);
    StmtShape(g2, f.body, false);
    var last := Epilogue(b.g.inReturnBlock);
    ScanShort(last, !b.g.inReturnBlock);
    StraightAppend(ps.code, b.code + last);
    ScanAppend(b.code, last, true);
  }

  lemma FunctionLands(g: Context, f: FunDef, l: Label)
    requires g.breakLabel.None? && g.continueLabel.None?
    ensures Lands(GenFunction(g, f).code, l, false)
  {
    hide GenStmt, GenParams, Uses, Count;
    var g1, g2 := FunctionEntry(g, f), BodyContext(g, f);
    var b := GenStmt(g2, f.body);
    ParamsLand(g1.table, f.params, l);
    StmtLands(g2, f.body, l);
    var last := Epilogue(b.g.inReturnBlock);
    UsesShort(last, l);
    LandsAppend3(GenParams(g1.table, f.params).code, b.code, last, l, false);
  }

  /** The first line is no label, a label follows a terminator and nothing else
      does, the last line is a terminator, and every branch names a label that
      the function defines exactly once. */
  lemma ControlFlowWellFormed(g: Context, f: FunDef)
    requires g.table.scopes.Base? && f.body.Block? && PlainInits(f.body) && LoopLabels(g, false)
    ensures
      var code := GenFunction(g, f).code;
      && code != [] && !code[0].LabelDef? && IsTerminator(code[|code| - 1])
      && (forall i :: 0 < i < |code| ==> (code[i].LabelDef? <==> IsTerminator(code[i - 1])))
      && (forall i, l :: 0 <= i < |code| && Aims(code[i], l) > 0 ==> Count(code, LabelItem(l)) == 1)
  {
    var code := GenFunction(g, f).code;
    FunctionShape(g, f);
    ScanMeans(code, true);
    forall i, l | 0 <= i < |code| && Aims(code[i], l) > 0
      ensures Count(code, LabelItem(l)) == 1
    {
      UsesAt(code, l, i);
      FunctionLands(g, f, l);
      FunctionDefinesOnce(g, f, LabelItem(l));
    }
  }
}
