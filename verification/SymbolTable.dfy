/** The symbol table as it is stored: scopes linked to their parents, each an
    array of buckets with chains of symbols, under any hash function.  Its
    methods do what the stack of maps in Scopes does. */
module SymbolTables {
  import opened Options
  import opened Scopes
  import opened Ir
  import opened Codegen
  import Relation

  /** A bucket's chain; new symbols go to the front. */
  datatype Chain = End | Link(name: string, sym: Symbol, next: Chain)

  function Lookup(c: Chain, x: string): Option<Symbol> {
    match c
    case End => None
    case Link(y, s, rest) => if y == x then Some(s) else Lookup(rest, x)
  }

  const SCOPE_BUCKETS := 256

  class Scope {
    const hash: string -> nat
    const buckets: array<Chain>
    const level: nat
    const parent: Scope?
    ghost var contents: map<string, Symbol>

    ghost predicate Valid()
      reads this, buckets
    {
      && buckets.Length > 0
      && forall x :: Lookup(buckets[hash(x) % buckets.Length], x) == (if x in contents then Some(contents[x]) else None)
    }

    constructor (hash: string -> nat, level: nat, parent: Scope?)
      ensures Valid() && fresh(buckets) && contents == map[]
      ensures this.hash == hash && this.level == level && this.parent == parent
    {
      this.hash := hash;
      this.level := level;
      this.parent := parent;
      this.contents := map[];
      this.buckets := new Chain[SCOPE_BUCKETS](_ => End);
    }

    /** find_symbol_in_scope. */
    method FindSymbolInScope(x: string) returns (r: Option<Symbol>)
      requires Valid()
      ensures r == if x in contents then Some(contents[x]) else None
    {
      var cur := buckets[hash(x) % buckets.Length];
      while cur.Link?
        invariant Lookup(cur, x) == if x in contents then Some(contents[x]) else None
        decreases cur
      {
        if cur.name == x {
          return Some(cur.sym);
        }
        cur := cur.next;
      }
      r := None;
    }

    method Insert(x: string, s: Symbol)
      requires Valid() && x !in contents
      modifies this, buckets
      ensures Valid() && contents == old(contents)[x := s]
    {
      var idx := hash(x) % buckets.Length;
      buckets[idx] := Link(x, s, buckets[idx]);
      contents := contents[x := s];
    }
  }

  /** The maps of a stack of scopes, the innermost first. */
  ghost function Abstract(stack: seq<Scope>): Scopes<Symbol>
    requires stack != []
    reads stack
  {
    if |stack| == 1 then Base(stack[0].contents)
    else Inner(stack[0].contents, Abstract(stack[1..]))
  }

  /** Each scope's parent is the next one down to the file scope, each level is
      the depth, and no two share storage. */
  ghost predicate Linked(stack: seq<Scope>, last: Scope, hash: string -> nat)
    decreases |stack|
  {
    && stack != [] && stack[|stack| - 1] == last
    && stack[0].hash == hash && stack[0].level == |stack| - 1
    && if |stack| == 1 then stack[0].parent == null
       else
         && stack[0].parent == stack[1] && Linked(stack[1..], last, hash)
         && forall s :: s in stack[1..] ==> s != stack[0] && s.buckets != stack[0].buckets
  }

  lemma LinkedPush(s: Scope, stack: seq<Scope>, last: Scope, hash: string -> nat)
    requires Linked(stack, last, hash) && s.hash == hash && s.level == |stack| && s.parent == stack[0]
    requires forall t :: t in stack ==> t != s && t.buckets != s.buckets
    ensures Linked([s] + stack, last, hash)
  {
    assert ([s] + stack)[1..] == stack;
  }

  lemma OnlyFileScope(stack: seq<Scope>, last: Scope, hash: string -> nat)
    requires Linked(stack, last, hash)
    ensures stack[0] == last <==> |stack| == 1
  {
    if |stack| > 1 {
      assert stack[1..][|stack| - 2] in stack[1..];
    }
  }

  /** The maps depend on the contents of the scopes only. */
  twostate lemma {:induction false} SameBelow(stack: seq<Scope>)
    requires stack != [] && forall s :: s in stack ==> s.contents == old(s.contents)
    ensures Abstract(stack) == old(Abstract(stack))
    decreases |stack|
  {
    if |stack| > 1 {
      SameBelow(stack[1..]);
    }
  }

  class SymbolTable {
    const hash: string -> nat
    const globalScope: Scope
    var currentScope: Scope
    var scopeCounter: nat
    var tempCounter: nat
    var currentFunction: Option<string>
    ghost var stack: seq<Scope>

    ghost function Repr(): set<object>
      reads this, stack
    {
      {this} + (set s: Scope | s in stack) + (set s: Scope | s in stack :: s.buckets)
    }

    ghost predicate Valid()
      reads this, stack, set s: Scope | s in stack :: s.buckets
    {
      && scopeCounter == |stack| - 1 && stack[0] == currentScope && Linked(stack, globalScope, hash)
      && forall i :: 0 <= i < |stack| ==> stack[i].Valid()
    }

    ghost function Table(): Codegen.Table
      requires Valid()
      reads this, stack, set s: Scope | s in stack :: s.buckets
    {
      Codegen.Table(Abstract(stack), scopeCounter, tempCounter, currentFunction)
    }

    constructor (hash: string -> nat)
      ensures Valid() && fresh(Repr())
      ensures Table() == Codegen.Table(Base(map[]), 0, 0, None)
    {
      this.hash := hash;
      var g := new Scope(hash, 0, null);
      globalScope := g;
      currentScope := g;
      scopeCounter := 0;
      tempCounter := 0;
      currentFunction := None;
      stack := [g];
    }

    method EnterScope()
      requires Valid()
      modifies this
      ensures Valid() && Table() == Codegen.EnterScope(old(Table()))
      ensures fresh(Repr() - old(Repr()))
    {
      hide Lookup, Linked;
      scopeCounter := scopeCounter + 1;
      var s := new Scope(hash, scopeCounter, currentScope);
      LinkedPush(s, stack, globalScope, hash);
      currentScope := s;
      stack := [s] + stack;
      assert stack[1..] == old(stack);
    }

    /** The file scope is never left. */
    method ExitScope()
      requires Valid()
      modifies this
      ensures Valid() && Table() == Codegen.ExitScope(old(Table()))
      ensures Repr() <= old(Repr())
    {
      OnlyFileScope(stack, globalScope, hash);
      if currentScope == globalScope {
        return;
      }
      currentScope := currentScope.parent;
      scopeCounter := scopeCounter - 1;
      stack := stack[1..];
    }

    method SetCurrentFunction(f: Option<string>)
      requires Valid()
      modifies this`currentFunction
      ensures Valid() && Table() == old(Table()).(fn := f)
    {
      currentFunction := f;
    }

    method GenerateUniqueName(x: string) returns (name: UniqueName)
      requires Valid()
      modifies this`tempCounter
      ensures Valid() && Table() == old(Table()).(uid := old(Table()).uid + 1)
      ensures name == UniqueNameFor(old(Table()), x)
    {
      tempCounter := tempCounter + 1;
      if currentFunction.Some? {
        name := InFunction(currentFunction.value, x, currentScope.level, tempCounter);
      } else {
        name := AtFileScope(x, tempCounter);
      }
    }

    method InsertHere(x: string, sym: Symbol)
      requires Valid() && x !in currentScope.contents
      modifies currentScope, currentScope.buckets
      ensures Valid()
      ensures Abstract(stack) == Bind(old(Abstract(stack)), x, sym)
    {
      hide Lookup;
      currentScope.Insert(x, sym);
      if |stack| > 1 {
        forall s | s in stack[1..]
          ensures s.contents == old(s.contents)
        {
          assert s != stack[0];
        }
        SameBelow(stack[1..]);
      }
    }

    /** Fails exactly when the innermost scope has the name already. */
    method AddSymbol(x: string, kind: SymbolKind, isParameter: bool) returns (added: bool)
      requires Valid()
      modifies Repr()
      ensures Valid() && Table() == Codegen.AddSymbol(old(Table()), x, kind, isParameter)
      ensures added <==> x !in old(Table()).scopes.vars
      ensures Repr() == old(Repr())
    {
      hide Lookup, Linked;
      var found := currentScope.FindSymbolInScope(x);
      if found.Some? {
        return false;
      }
      OnlyFileScope(stack, globalScope, hash);
      var name := GenerateUniqueName(x);
      var sym := Symbol(kind, name, currentScope == globalScope, isParameter);
      InsertHere(x, sym);
      added := true;
    }

    /** The innermost binding of the name. */
    method FindSymbol(x: string) returns (r: Option<Symbol>)
      requires Valid()
      ensures r == Find(Table().scopes, x)
    {
      var scope: Scope? := currentScope;
      ghost var rest := stack;
      assert stack[0..] == stack;
      while scope != null
        invariant forall s :: s in rest ==> s.Valid()
        invariant scope == null || (rest != [] && scope == rest[0] && Linked(rest, globalScope, hash))
        invariant Find(Table().scopes, x) == if scope == null then None else Find(Abstract(rest), x)
        decreases if scope == null then 0 else |rest|
      {
        r := scope.FindSymbolInScope(x);
        if r.Some? {
          return;
        }
        scope := scope.parent;
        rest := rest[1..];
      }
      r := None;
    }
  }

  // ----- Runs of the table -----

  datatype Op = Enter | Exit | Add(name: string, kind: SymbolKind, isParameter: bool)

  function Apply(t: Table, op: Op): Table {
    match op
    case Enter => EnterScope(t)
    case Exit => ExitScope(t)
    case Add(x, k, p) => Codegen.AddSymbol(t, x, k, p)
  }

  function Run(t: Table, ops: seq<Op>): Table
    decreases ops
  {
    if ops == [] then t else Run(Apply(t, ops[0]), ops[1..])
  }

  /** No two symbols in view share a number, and none is past the counter. */
  ghost predicate Numbered(t: Scopes<Symbol>, uid: nat)
    decreases t
  {
    && (forall x :: x in t.vars ==> t.vars[x].llvm.uid <= uid)
    && Relation.DistinctUids(t.vars)
    && (t.Inner? ==> (forall x :: x in t.vars ==> t.vars[x].llvm.uid !in AllUids(t.outer)) && Numbered(t.outer, uid))
  }

  ghost function AllUids(t: Scopes<Symbol>): set<nat> {
    (set x | x in t.vars :: t.vars[x].llvm.uid) + if t.Base? then {} else AllUids(t.outer)
  }

  /** After any run the level is the depth. */
  lemma {:induction false} LevelIsDepth(t: Table, ops: seq<Op>)
    requires t.level == Depth(t.scopes)
    ensures Run(t, ops).level == Depth(Run(t, ops).scopes)
    decreases ops
  {
    if ops != [] {
      LevelIsDepth(Apply(t, ops[0]), ops[1..]);
    }
  }

  /** The run never leaves the scope it starts in. */
  predicate StaysInside(ops: seq<Op>, depth: nat)
    decreases ops
  {
    ops == [] ||
    match ops[0]
    case Enter => StaysInside(ops[1..], depth + 1)
    case Exit => depth > 0 && StaysInside(ops[1..], depth - 1)
    case Add(_, _, _) => StaysInside(ops[1..], depth)
  }

  function NetDepth(ops: seq<Op>, depth: nat): nat
    requires StaysInside(ops, depth)
    decreases ops
  {
    if ops == [] then depth
    else match ops[0]
      case Enter => NetDepth(ops[1..], depth + 1)
      case Exit => NetDepth(ops[1..], depth - 1)
      case Add(_, _, _) => NetDepth(ops[1..], depth)
  }

  function DropScopes(t: Scopes<Symbol>, n: nat): Scopes<Symbol>
    decreases n
  {
    if n == 0 || t.Base? then t else DropScopes(t.outer, n - 1)
  }

  /** A run inside a scope leaves everything below that scope as it was. */
  lemma {:induction false} OuterUntouched(t: Table, ops: seq<Op>, depth: nat)
    requires StaysInside(ops, depth) && Depth(t.scopes) > depth
    ensures
      var t' := Run(t, ops);
      && Depth(t'.scopes) == Depth(t.scopes) - depth + NetDepth(ops, depth)
      && DropScopes(t'.scopes, NetDepth(ops, depth) + 1) == DropScopes(t.scopes, depth + 1)
    decreases ops
  {
    if ops != [] {
      match ops[0]
      case Enter => OuterUntouched(Apply(t, ops[0]), ops[1..], depth + 1);
      case Exit => OuterUntouched(Apply(t, ops[0]), ops[1..], depth - 1);
      case Add(_, _, _) => OuterUntouched(Apply(t, ops[0]), ops[1..], depth);
    }
  }

  /** Whatever happens inside a block, leaving it restores the view before it. */
  lemma BlockRestoresView(t: Table, ops: seq<Op>)
    requires StaysInside(ops, 0) && NetDepth(ops, 0) == 0
    ensures ExitScope(Run(EnterScope(t), ops)).scopes == t.scopes
  {
    OuterUntouched(EnterScope(t), ops, 0);
    var s := Run(EnterScope(t), ops).scopes;
    assert DropScopes(s, 1) == s.outer && DropScopes(Push(t.scopes), 1) == t.scopes;
  }

  /** Names are never handed out twice among the symbols in view. */
  lemma {:induction false} NamesStayDistinct(t: Table, ops: seq<Op>)
    requires Numbered(t.scopes, t.uid)
    ensures Numbered(Run(t, ops).scopes, Run(t, ops).uid)
    decreases ops
  {
    if ops != [] {
      OneOpNumbered(t, ops[0]);
      NamesStayDistinct(Apply(t, ops[0]), ops[1..]);
    }
  }

  lemma {:induction false} MoreNumbers(t: Scopes<Symbol>, uid: nat, uid': nat)
    requires Numbered(t, uid) && uid <= uid'
    ensures Numbered(t, uid') && forall u :: u in AllUids(t) ==> u <= uid
    decreases t
  {
    if t.Inner? {
      MoreNumbers(t.outer, uid, uid');
    }
  }

  lemma OneOpNumbered(t: Table, op: Op)
    requires Numbered(t.scopes, t.uid)
    ensures Numbered(Apply(t, op).scopes, Apply(t, op).uid)
  {
    MoreNumbers(t.scopes, t.uid, t.uid + 1);
    if op.Add? && op.name !in t.scopes.vars {
      var s := Apply(t, op).scopes;
      assert t.scopes.Inner? ==> s.outer == t.scopes.outer && Numbered(s.outer, t.uid + 1);
      if t.scopes.Inner? {
        MoreNumbers(t.scopes.outer, t.uid, t.uid + 1);
      }
    }
  }
}
