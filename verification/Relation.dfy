/** How a running C program and the machine running its compiled code
    correspond. */
module Relation {
  import opened Options
  import opened Scopes
  import opened Source
  import opened Ir
  import opened Codegen

  /** What memory holds for a C variable. */
  function Image(v: Cell): MemCell {
    MemCell(I32, if v.Unset? then None else Some(IntV(v.value)))
  }

  /** Every variable of a block has a slot with its value. */
  ghost predicate LocalsMatch(vars: map<string, Cell>, syms: map<string, Symbol>, slots: map<Slot, MemCell>) {
    && vars.Keys == syms.Keys
    && forall x :: x in syms ==> SlotOf(syms[x]) in slots && slots[SlotOf(syms[x])] == Image(vars[x])
  }

  ghost predicate GlobalsMatch(vars: map<string, Cell>, mem: map<Slot, MemCell>, syms: map<string, Symbol>) {
    forall x :: x in syms && syms[x].kind == VariableSymbol ==>
      x in vars && Global(syms[x].llvm) in mem && mem[Global(syms[x].llvm)] == Image(vars[x])
  }

  /** The file-scope symbols known so far are among the final ones, fs. */
  ghost predicate Match(
    env: Env, t: Scopes<Symbol>, slots: map<Slot, MemCell>, mem: map<Slot, MemCell>, fs: map<string, Symbol>)
  {
    if t.Base? then
      && env.Base? && GlobalsMatch(env.vars, mem, fs)
      && (forall x :: x in t.vars ==> x in fs && fs[x] == t.vars[x])
    else env.Inner? && LocalsMatch(env.vars, t.vars, slots) && Match(env.outer, t.outer, slots, mem, fs)
  }

  ghost function Uids(t: Scopes<Symbol>): set<nat> {
    if t.Base? then {} else (set x | x in t.vars :: t.vars[x].llvm.uid) + Uids(t.outer)
  }

  ghost predicate DistinctUids(syms: map<string, Symbol>) {
    forall x, y :: x in syms && y in syms && syms[x].llvm.uid == syms[y].llvm.uid ==> x == y
  }

  /** File-scope symbols are global variables and functions, all others local
      variables; no two local symbols share a number. */
  ghost predicate TableOk(t: Scopes<Symbol>) {
    if t.Base? then forall x :: x in t.vars ==> t.vars[x].isGlobal && !t.vars[x].isParameter
    else
      && (forall x :: x in t.vars ==>
            !t.vars[x].isGlobal && t.vars[x].kind == VariableSymbol && t.vars[x].llvm.uid !in Uids(t.outer))
      && DistinctUids(t.vars)
      && TableOk(t.outer)
  }

  ghost predicate GlobalsOk(fs: map<string, Symbol>) {
    DistinctUids(fs) && forall x :: x in fs ==> fs[x].isGlobal && !fs[x].isParameter
  }

  /** Memory changed at most where t keeps no variable. */
  ghost predicate SameLocals(t: Scopes<Symbol>, slots: map<Slot, MemCell>, slots': map<Slot, MemCell>) {
    forall s :: s in slots && (s.Local? || s.ParamAddr?) && s.name.uid in Uids(t)
      ==> s in slots' && slots'[s] == slots[s]
  }

  lemma {:induction false} MatchSameLocals(
    env: Env, t: Scopes<Symbol>, slots: map<Slot, MemCell>, mem: map<Slot, MemCell>, fs: map<string, Symbol>,
    slots': map<Slot, MemCell>)
    requires Match(env, t, slots, mem, fs) && TableOk(t) && SameLocals(t, slots, slots')
    ensures Match(env, t, slots', mem, fs)
    decreases t
  {
    if t.Inner? {
      forall x | x in t.vars
        ensures SlotOf(t.vars[x]) in slots' && slots'[SlotOf(t.vars[x])] == Image(env.vars[x])
      {
        assert t.vars[x].llvm.uid in Uids(t);
      }
      MatchSameLocals(env.outer, t.outer, slots, mem, fs, slots');
    }
  }

  /** A variable's slot holds the value the C program sees. */
  lemma {:induction false} FindMatches(
    env: Env, t: Scopes<Symbol>, fr: Frame, mem: map<Slot, MemCell>, fs: map<string, Symbol>, x: string)
    requires Match(env, t, fr.slots, mem, fs) && TableOk(t)
    requires Find(t, x).Some? && Find(t, x).value.kind == VariableSymbol
    ensures Find(env, x).Some?
    ensures ReadSlot(fr, mem, SlotOf(Find(t, x).value)) == Some(Image(Find(env, x).value))
    decreases t
  {
    if x !in t.vars {
      FindMatches(env.outer, t.outer, fr, mem, fs, x);
    }
  }

  /** Storing into a variable's slot is what assignment does. */
  lemma {:induction false} StoreMatches(
    env: Env, t: Scopes<Symbol>, slots: map<Slot, MemCell>, mem: map<Slot, MemCell>, fs: map<string, Symbol>,
    x: string, v: Cell)
    requires Match(env, t, slots, mem, fs) && TableOk(t) && GlobalsOk(fs)
    requires Find(t, x).Some? && Find(t, x).value.kind == VariableSymbol
    ensures
      var s := SlotOf(Find(t, x).value);
      if s.Global? then Match(Update(env, x, v), t, slots, mem[s := Image(v)], fs)
      else s.name.uid in Uids(t) && Match(Update(env, x, v), t, slots[s := Image(v)], mem, fs)
    decreases t
  {
    var sym := Find(t, x).value;
    var s := SlotOf(sym);
    if x in t.vars {
      if t.Inner? {
        LocalStore(env.vars, t.vars, slots, x, v);
        MatchSameLocals(env.outer, t.outer, slots, mem, fs, slots[s := Image(v)]);
      }
    } else {
      StoreMatches(env.outer, t.outer, slots, mem, fs, x, v);
      if !s.Global? {
        forall y | y in t.vars
          ensures SlotOf(t.vars[y]) != s
        {
        }
      }
    }
  }

  lemma LocalStore(vars: map<string, Cell>, syms: map<string, Symbol>, slots: map<Slot, MemCell>, x: string, v: Cell)
    requires LocalsMatch(vars, syms, slots) && DistinctUids(syms) && x in syms
    ensures LocalsMatch(vars[x := v], syms, slots[SlotOf(syms[x]) := Image(v)])
  {
  }

  lemma {:induction false} MatchGlobals(
    env: Env, t: Scopes<Symbol>, slots: map<Slot, MemCell>, mem: map<Slot, MemCell>, fs: map<string, Symbol>)
    requires Match(env, t, slots, mem, fs)
    ensures GlobalsMatch(Globals(env), mem, fs)
    decreases t
  {
    if t.Inner? {
      MatchGlobals(env.outer, t.outer, slots, mem, fs);
    }
  }

  /** A call may change file-scope variables only. */
  lemma {:induction false} MatchNewGlobals(
    env: Env, t: Scopes<Symbol>, slots: map<Slot, MemCell>, mem: map<Slot, MemCell>, fs: map<string, Symbol>,
    vars: map<string, Cell>, mem': map<Slot, MemCell>)
    requires Match(env, t, slots, mem, fs) && GlobalsMatch(vars, mem', fs)
    ensures Match(WithGlobals(env, vars), t, slots, mem', fs)
    decreases t
  {
    if t.Inner? {
      MatchNewGlobals(env.outer, t.outer, slots, mem, fs, vars, mem');
    }
  }

  /** A declaration adds an unset variable in a slot of its own. */
  lemma DeclareMatches(
    env: Env, t: Scopes<Symbol>, slots: map<Slot, MemCell>, mem: map<Slot, MemCell>, fs: map<string, Symbol>,
    x: string, sym: Symbol, v: Cell)
    requires Match(env, t, slots, mem, fs) && TableOk(t) && t.Inner?
    requires x !in t.vars && sym.kind == VariableSymbol && !sym.isGlobal && sym.llvm.uid !in Uids(t)
    ensures TableOk(Bind(t, x, sym))
    ensures Match(Bind(env, x, v), Bind(t, x, sym), slots[SlotOf(sym) := Image(v)], mem, fs)
  {
    var slots' := slots[SlotOf(sym) := Image(v)];
    MatchSameLocals(env, t, slots, mem, fs, slots');
    assert Bind(t, x, sym).outer == t.outer;
    forall y | y in t.vars
      ensures t.vars[y].llvm.uid in Uids(t)
    {
    }
  }
}
