/** The interpreter's lexical scope: a parent-linked chain of insertion-ordered frames. */
module Scopes {
  import opened Values

  datatype Scope = NoScope | Scope(entries: seq<(string, Value)>, parent: Scope)

  function Child(sc: Scope): Scope {
    Scope([], sc)
  }

  // Writes land in the top frame, shadowing any outer binding.
  function SetName(sc: Scope, x: string, v: Value): Scope
    requires sc.Scope?
  {
    sc.(entries := Put(sc.entries, x, v))
  }

  // Reads fall through the parent chain.
  function Get(sc: Scope, x: string): Option<Value> {
    if sc.NoScope? then None
    else if Lookup(sc.entries, x).Some? then Lookup(sc.entries, x)
    else Get(sc.parent, x)
  }

  // The visible names, outermost frame first, each at its first-seen position.
  function Names(sc: Scope): seq<string> {
    if sc.NoScope? then [] else AddNames(Names(sc.parent), Keys(sc.entries))
  }

  // A run of writes, in order.
  function SetAll(sc: Scope, es: seq<(string, Value)>): (r: Scope)
    requires sc.Scope?
    ensures r.Scope? && r.parent == sc.parent
  {
    if es == [] then sc
    else SetName(SetAll(sc, es[..|es| - 1]), es[|es| - 1].0, es[|es| - 1].1)
  }
}
