/** A compiled function and its source agree on every call, in both directions:
    on results, on errors and on running forever. */
module Correctness {
  import opened Int32
  import opened Source
  import opened Ir
  import opened Relation
  import opened Linking
  import opened Simulation

  /** A call with the right number of arguments, when memory shows the
      file-scope variables. */
  ghost predicate Callable(k: Link, f: string, vs: seq<int32>, globals: map<string, Cell>, mem: map<Slot, MemCell>) {
    && LinkOk(k) && f in k.prog && f in k.mod
    && |k.prog[f].params| == |vs| == |k.mod[f].params|
    && GlobalsMatch(globals, mem, k.fs)
  }

  /** The machine's state n steps into the call. */
  ghost function StateAt(k: Link, f: string, vs: seq<int32>, mem: map<Slot, MemCell>, n: nat): State
    requires f in k.mod && |k.mod[f].params| == |vs|
  {
    Steps(k.mod, Active(Entry(k.mod, f, vs), [], mem), n)
  }

  lemma CallableIff(k: Link, f: string, vs: seq<int32>, globals: map<string, Cell>, mem: map<Slot, MemCell>)
    requires LinkOk(k) && f in k.prog && |k.prog[f].params| == |vs| && GlobalsMatch(globals, mem, k.fs)
    ensures Callable(k, f, vs, globals, mem)
  {
    assert f in k.mod && RoutineOk(k.prog[f], k.mod[f], k.entry[f], k.fs);
  }

  /** What the source does within its fuel, the machine does in some number of
      steps, at least as many as the fuel when the source is not done. */
  lemma Verdict(k: Link, fuel: nat, f: string, vs: seq<int32>, globals: map<string, Cell>, mem: map<Slot, MemCell>)
    returns (n: nat)
    requires Callable(k, f, vs, globals, mem)
    ensures
      match Invoke(k.prog, fuel, f, vs, globals)
      case Answer(v, g) =>
        var s := StateAt(k, f, vs, mem, n);
        s.Halted? && s.v == v && GlobalsMatch(g, s.globals, k.fs)
      case Failed(err) => err != Unbound && StateAt(k, f, vs, mem, n) == Faulted(FaultOf(err))
      case NoAnswer => n >= fuel && StateAt(k, f, vs, mem, n).Active?
  {
    hide Steps, Invoke, GlobalsMatch, LinkOk;
    var mem';
    n, mem' := SimInvoke(k, fuel, f, vs, globals, [], mem);
  }

  /** With more fuel than the machine takes steps, the source is done too. */
  lemma Settled(k: Link, f: string, vs: seq<int32>, globals: map<string, Cell>, mem: map<Slot, MemCell>, n: nat)
    requires Callable(k, f, vs, globals, mem) && !StateAt(k, f, vs, mem, n).Active?
    ensures
      match Invoke(k.prog, n + 1, f, vs, globals)
      case Answer(v, g) =>
        var s := StateAt(k, f, vs, mem, n);
        s.Halted? && s.v == v && GlobalsMatch(g, s.globals, k.fs)
      case Failed(err) => err != Unbound && StateAt(k, f, vs, mem, n) == Faulted(FaultOf(err))
      case NoAnswer => false
  {
    hide Steps, Invoke, GlobalsMatch, LinkOk;
    var m := Verdict(k, n + 1, f, vs, globals, mem);
    StopIsUnique(k.mod, Active(Entry(k.mod, f, vs), [], mem), n, m);
  }

  /** The compiled function returns v exactly when the source does. */
  lemma ReturnsAlike(k: Link, f: string, vs: seq<int32>, globals: map<string, Cell>, mem: map<Slot, MemCell>, v: int32)
    requires Callable(k, f, vs, globals, mem)
    ensures (exists fuel: nat, g :: Invoke(k.prog, fuel, f, vs, globals) == Answer(v, g)) <==>
            (exists n: nat, mem' :: StateAt(k, f, vs, mem, n) == Halted(v, mem'))
  {
    hide LinkOk, Steps, Invoke, GlobalsMatch;
    if fuel: nat, g :| Invoke(k.prog, fuel, f, vs, globals) == Answer(v, g) {
      var n := Verdict(k, fuel, f, vs, globals, mem);
      var s := StateAt(k, f, vs, mem, n);
      assert s == Halted(v, s.globals);
    }
    if n: nat, mem' :| StateAt(k, f, vs, mem, n) == Halted(v, mem') {
      Settled(k, f, vs, globals, mem, n);
      var a := Invoke(k.prog, n + 1, f, vs, globals);
      assert a == Answer(v, a.globals);
    }
  }

  /** When both are done, memory shows the file-scope variables again. */
  lemma ResultsAgree(
    k: Link, f: string, vs: seq<int32>, globals: map<string, Cell>, mem: map<Slot, MemCell>, fuel: nat, n: nat)
    requires Callable(k, f, vs, globals, mem)
    requires Invoke(k.prog, fuel, f, vs, globals).Answer? && !StateAt(k, f, vs, mem, n).Active?
    ensures
      var a, s := Invoke(k.prog, fuel, f, vs, globals), StateAt(k, f, vs, mem, n);
      s.Halted? && s.v == a.v && GlobalsMatch(a.globals, s.globals, k.fs)
  {
    hide LinkOk, Steps, Invoke, GlobalsMatch;
    var m := Verdict(k, fuel, f, vs, globals, mem);
    StopIsUnique(k.mod, Active(Entry(k.mod, f, vs), [], mem), n, m);
  }

  /** The machine stops at a fault exactly when the source runs into the error
      of that kind. */
  lemma FailsAlike(
    k: Link, f: string, vs: seq<int32>, globals: map<string, Cell>, mem: map<Slot, MemCell>, err: Error)
    requires Callable(k, f, vs, globals, mem) && err != Unbound
    ensures (exists fuel: nat :: Invoke(k.prog, fuel, f, vs, globals) == Failed(err)) <==>
            (exists n: nat :: StateAt(k, f, vs, mem, n) == Faulted(FaultOf(err)))
  {
    hide LinkOk, Steps, Invoke, GlobalsMatch;
    if fuel: nat :| Invoke(k.prog, fuel, f, vs, globals) == Failed(err) {
      var n := Verdict(k, fuel, f, vs, globals, mem);
    }
    if n: nat :| StateAt(k, f, vs, mem, n) == Faulted(FaultOf(err)) {
      Settled(k, f, vs, globals, mem, n);
      assert Invoke(k.prog, n + 1, f, vs, globals) == Failed(err);
    }
  }

  /** The machine runs forever exactly when the source does. */
  lemma DivergesAlike(k: Link, f: string, vs: seq<int32>, globals: map<string, Cell>, mem: map<Slot, MemCell>)
    requires Callable(k, f, vs, globals, mem)
    ensures (forall fuel: nat :: Invoke(k.prog, fuel, f, vs, globals) == NoAnswer) <==>
            (forall n: nat :: StateAt(k, f, vs, mem, n).Active?)
  {
    hide LinkOk, Invoke, GlobalsMatch;
    if n: nat :| !StateAt(k, f, vs, mem, n).Active? {
      Settled(k, f, vs, globals, mem, n);
      assert Invoke(k.prog, n + 1, f, vs, globals) != NoAnswer;
    }
    if fuel: nat :| Invoke(k.prog, fuel, f, vs, globals) != NoAnswer {
      var n := Verdict(k, fuel, f, vs, globals, mem);
      assert !StateAt(k, f, vs, mem, n).Active?;
    }
  }

  /** On no run is a temporary read before it is set or at another type, a
      block entered by falling into its label or left by running off its end,
      a missing label jumped to or a slot used before its alloca. */
  lemma DisciplineHolds(k: Link, f: string, vs: seq<int32>, globals: map<string, Cell>, mem: map<Slot, MemCell>, n: nat)
    requires Callable(k, f, vs, globals, mem)
    ensures StateAt(k, f, vs, mem, n).Faulted? ==>
              StateAt(k, f, vs, mem, n).fault in {ArithmeticFault, UninitialisedRead, BadCallFault}
  {
    hide LinkOk, Steps, Invoke, GlobalsMatch;
    if StateAt(k, f, vs, mem, n).Faulted? {
      Settled(k, f, vs, globals, mem, n);
    }
  }
}
