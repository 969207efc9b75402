/** A stack of scopes: the innermost map first, the file scope last.  The
    generator keeps symbols in one, a running C program keeps values in one. */
module Scopes {
  import opened Options

  datatype Scopes<V> =
    | Base(vars: map<string, V>)
    | Inner(vars: map<string, V>, outer: Scopes<V>)

  function Push<V>(s: Scopes<V>): Scopes<V> { Inner(map[], s) }

  /** Leaving the file scope is a no-op, as in exit_scope. */
  function Pop<V>(s: Scopes<V>): Scopes<V> { if s.Inner? then s.outer else s }

  function Depth<V>(s: Scopes<V>): nat {
    match s
    case Base(_) => 0
    case Inner(_, o) => 1 + Depth(o)
  }

  /** The innermost binding of a name. */
  function Find<V>(s: Scopes<V>, x: string): Option<V> {
    if x in s.vars then Some(s.vars[x])
    else if s.Base? then None
    else Find(s.outer, x)
  }

  function Bind<V>(s: Scopes<V>, x: string, v: V): Scopes<V> {
    s.(vars := s.vars[x := v])
  }

  /** Replaces the innermost binding of a name. */
  function Update<V>(s: Scopes<V>, x: string, v: V): Scopes<V> {
    if x in s.vars then Bind(s, x, v)
    else if s.Base? then s
    else Inner(s.vars, Update(s.outer, x, v))
  }

  function Globals<V>(s: Scopes<V>): map<string, V> {
    match s
    case Base(g) => g
    case Inner(_, o) => Globals(o)
  }

  function WithGlobals<V>(s: Scopes<V>, g: map<string, V>): Scopes<V> {
    match s
    case Base(_) => Base(g)
    case Inner(vars, o) => Inner(vars, WithGlobals(o, g))
  }

  /** Binds each name to the value in the same place. */
  function Zip<V>(names: seq<string>, vs: seq<V>): map<string, V>
    requires |names| == |vs|
  {
    if names == [] then map[]
    else Zip(names[..|names| - 1], vs[..|vs| - 1])[names[|names| - 1] := vs[|vs| - 1]]
  }
}
