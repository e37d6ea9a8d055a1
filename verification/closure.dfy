/** The walk that decides whether a render may stream: it must find every slot construct and every
    unprovable reference a render could reach. */
module Closure {

  // What a template's preparation recorded: whether it uses a deferred slot, whether it holds a
  // reference with a dynamic source, and its static references in source order.
  datatype Info = Info(usesSlots: bool, hasDynamicRef: bool, staticRefs: seq<string>)

  // What the loader serves under a name it knows.
  datatype Entry = Loads(info: Info) | Broken

  type Loader = map<string, Entry>

  predicate Unprovable(t: Info) { t.usesSlots || t.hasDynamicRef }

  // A slot construct, a dynamic reference or a broken template within n reference steps.
  predicate Tainted(t: Info, loader: Loader, n: nat)
    decreases n, 0
  {
    || Unprovable(t)
    || (n > 0 && exists i | 0 <= i < |t.staticRefs| :: TaintedRef(t.staticRefs[i], loader, n - 1))
  }

  // An unknown name is skipped: the render cannot reach it either.
  predicate TaintedRef(name: string, loader: Loader, n: nat)
    decreases n, 1
  {
    name in loader && (loader[name].Broken? || Tainted(loader[name].info, loader, n))
  }

  // A template every reference of which is among the names.
  predicate Covered(t: Info, names: set<string>) {
    !Unprovable(t) && forall i | 0 <= i < |t.staticRefs| :: t.staticRefs[i] in names
  }

  predicate Settled(name: string, loader: Loader, names: set<string>) {
    name in loader ==> loader[name].Loads? && Covered(loader[name].info, names)
  }

  // A set of settled names taints nothing that refers only into it, through any cycle.
  lemma {:induction false} SettledClean(t: Info, loader: Loader, names: set<string>, n: nat)
    requires Covered(t, names) && forall m :: m in names ==> Settled(m, loader, names)
    ensures !Tainted(t, loader, n)
    decreases n
  {
    if n > 0 {
      forall i | 0 <= i < |t.staticRefs| ensures !TaintedRef(t.staticRefs[i], loader, n - 1) {
        var m := t.staticRefs[i];
        if m in loader { SettledClean(loader[m].info, loader, names, n - 1); }
      }
    }
  }

  class Walker {
    const loader: Loader
    var visited: set<string>

    constructor (l: Loader)
      ensures loader == l && visited == {}
    {
      loader, visited := l, {};
    }

    // True as soon as something unprovable is found; false with every name it visited settled.
    method Walk(t: Info) returns (r: bool)
      modifies this
      ensures old(visited) <= visited
      ensures r ==> exists n: nat :: Tainted(t, loader, n)
      ensures !r ==> Covered(t, visited)
      ensures !r ==> forall m :: m in visited && m !in old(visited) ==> Settled(m, loader, visited)
      decreases |loader.Keys - visited|
    {
      if Unprovable(t) {
        assert Tainted(t, loader, 0);
        return true;
      }
      for i := 0 to |t.staticRefs|
        invariant old(visited) <= visited
        invariant forall k :: 0 <= k < i ==> t.staticRefs[k] in visited
        invariant forall m :: m in visited && m !in old(visited) ==> Settled(m, loader, visited)
      {
        var name := t.staticRefs[i];
        if name in visited { continue; }
        ghost var before := visited;
        visited := visited + {name};
        if name !in loader { continue; }
        if loader[name].Broken? {
          assert TaintedRef(name, loader, 0);
          assert Tainted(t, loader, 1);
          return true;
        }
        Fewer(loader.Keys, old(visited), visited, name);
        var found := Walk(loader[name].info);
        if found {
          ghost var n: nat :| Tainted(loader[name].info, loader, n);
          assert TaintedRef(name, loader, n);
          assert Tainted(t, loader, n + 1);
          return true;
        }
        SettleMore(loader, before, name, visited, old(visited));
      }
      r := false;
    }
  }

  lemma Fewer(all: set<string>, before: set<string>, after: set<string>, name: string)
    requires before <= after && name in all && name in after && name !in before
    ensures |all - after| < |all - before|
  {
    assert all - before == (all - after) + ((all * after) - before);
    assert name in (all * after) - before;
  }

  // Names settled against a set stay settled as it grows, and the name just walked is settled too.
  lemma SettleMore(loader: Loader, before: set<string>, name: string, after: set<string>, start: set<string>)
    requires before + {name} <= after && name in loader && loader[name].Loads? && Covered(loader[name].info, after)
    requires forall m :: m in before && m !in start ==> Settled(m, loader, before)
    requires forall m :: m in after && m !in before + {name} ==> Settled(m, loader, after)
    ensures forall m :: m in after && m !in start ==> Settled(m, loader, after)
  {
    forall m | m in after && m !in start ensures Settled(m, loader, after) {
      if m in before { assert Settled(m, loader, before); }
    }
  }

  // The templates a render can go through from t, one static reference after another.
  predicate Path(t: Info, path: seq<string>, loader: Loader)
    decreases path
  {
    path == []
    || (path[0] in t.staticRefs && path[0] in loader && loader[path[0]].Loads?
        && Path(loader[path[0]].info, path[1..], loader))
  }

  // ----- the decision -----

  // The template a path ends in.
  function EndOf(t: Info, path: seq<string>, loader: Loader): Info
    requires Path(t, path, loader)
    decreases path
  {
    if path == [] then t else EndOf(loader[path[0]].info, path[1..], loader)
  }

  // What forbids streaming in a template: a slot construct, a dynamic reference, or a listed name the
  // loader knows and cannot load.
  predicate Forbids(t: Info, loader: Loader) {
    t.usesSlots || t.hasDynamicRef || exists m :: m in t.staticRefs && m in loader && loader[m].Broken?
  }

  ghost predicate ForbiddenAhead(t: Info, loader: Loader) {
    exists path :: Path(t, path, loader) && Forbids(EndOf(t, path, loader), loader)
  }

  lemma {:induction false} TaintedAhead(t: Info, loader: Loader, n: nat) returns (path: seq<string>)
    requires Tainted(t, loader, n)
    ensures Path(t, path, loader) && Forbids(EndOf(t, path, loader), loader)
    decreases n
  {
    path := [];
    if !t.usesSlots && !t.hasDynamicRef {
      var i :| 0 <= i < |t.staticRefs| && TaintedRef(t.staticRefs[i], loader, n - 1);
      var m := t.staticRefs[i];
      if loader[m].Loads? {
        var rest := TaintedAhead(loader[m].info, loader, n - 1);
        path := [m] + rest;
        assert path[1..] == rest;
      }
    }
  }

  lemma {:induction false} AheadTainted(t: Info, loader: Loader, path: seq<string>)
    requires Path(t, path, loader) && Forbids(EndOf(t, path, loader), loader)
    ensures exists n: nat :: Tainted(t, loader, n)
    decreases path
  {
    if path == [] {
      if t.usesSlots || t.hasDynamicRef {
        assert Tainted(t, loader, 0);
      } else {
        var m :| m in t.staticRefs && m in loader && loader[m].Broken?;
        assert TaintedRef(m, loader, 0);
        assert Tainted(t, loader, 1);
      }
    } else {
      AheadTainted(loader[path[0]].info, loader, path[1..]);
      var n: nat :| Tainted(loader[path[0]].info, loader, n);
      assert TaintedRef(path[0], loader, n);
      assert Tainted(t, loader, n + 1);
    }
  }

  lemma TaintedExactly(t: Info, loader: Loader)
    ensures (exists n: nat :: Tainted(t, loader, n)) <==> ForbiddenAhead(t, loader)
  {
    if n: nat :| Tainted(t, loader, n) { var path := TaintedAhead(t, loader, n); }
    if path :| Path(t, path, loader) && Forbids(EndOf(t, path, loader), loader) { AheadTainted(t, loader, path); }
  }

  // The decision is exact: buffering is chosen precisely when some path of static references, through
  // any cycle, ends in a template that forbids streaming.
  method ClosureUsesSlots(t: Info, loader: Loader) returns (r: bool)
    ensures r <==> ForbiddenAhead(t, loader)
  {
    var w := new Walker(loader);
    r := w.Walk(t);
    TaintedExactly(t, loader);
    if !r {
      forall n: nat ensures !Tainted(t, loader, n) { SettledClean(t, loader, w.visited, n); }
    }
  }

  // A render that streams meets no slot construct and no dynamic reference anywhere it can go.
  lemma {:induction false} StreamedPathClean(t: Info, path: seq<string>, loader: Loader)
    requires Path(t, path, loader) && !ForbiddenAhead(t, loader)
    ensures !t.usesSlots && !t.hasDynamicRef
    ensures forall i :: 0 <= i < |path| ==>
      && path[i] in loader && loader[path[i]].Loads?
      && !loader[path[i]].info.usesSlots && !loader[path[i]].info.hasDynamicRef
    decreases path
  {
    assert Path(t, [], loader) && EndOf(t, [], loader) == t;
    if path != [] {
      var u := loader[path[0]].info;
      if q :| Path(u, q, loader) && Forbids(EndOf(u, q, loader), loader) {
        var p := [path[0]] + q;
        assert p[1..] == q && Path(t, p, loader) && EndOf(t, p, loader) == EndOf(u, q, loader);
      }
      StreamedPathClean(u, path[1..], loader);
      assert forall i :: 0 < i < |path| ==> path[i] == path[1..][i - 1];
    }
  }
}
