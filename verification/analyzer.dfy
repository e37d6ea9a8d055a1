/** The escape analyzer as the compiler runs it: one object whose fields the walk updates, and the
    loop that closes the materialization set. */
module Analyzer {
  import opened Values
  import opened Syntax
  import opened Safety
  import opened Lowering
  import opened LoopOpt

  class LoopAnalyzer {
    var stack: AStack
    var visited: seq<nat>
    var materialized: set<nat>
    var parents: map<nat, seq<nat>>
    var chains: seq<ChainRead>
    var noInline: set<nat>

    constructor ()
      ensures stack == ARoot && State() == Walk([], {}, map[], [], {})
    {
      stack, visited, materialized, parents, chains, noInline := ARoot, [], {}, map[], [], {};
    }

    function State(): Walk
      reads this
    {
      Walk(visited, materialized, parents, chains, noInline)
    }

    method MarkLoop(n: Option<nat>)
      modifies this
      ensures stack == old(stack) && State() == Mark(old(State()), n)
    {
      if n.Some? { materialized := materialized + {n.value}; }
    }

    method WalkExpr(e: Expr)
      modifies this
      ensures stack == old(stack) && State() == WalkE(e, old(stack), old(State()))
      decreases e, 1
    {
      match e {
        case Name(x) =>
          if x == "loop" {
            var t := AttributeLoop(stack).0;
            if AtLoop(t) { MarkLoop(Some(t.f.node)); }
          }
        case Context => MarkLoop(Innermost(stack));
        case ListLit(items) => WalkElements(items);
        case MapLit(fields) => WalkEntries(fields);
        case Attr(node, r, _, _) =>
          var c := TryChain(e, stack);
          if c.Some? {
            chains := chains + [c.value];
          } else {
            noInline := noInline + {node};
            WalkExpr(r);
          }
        case Not(a) => WalkExpr(a);
        case Bin(_, l, r) => WalkExpr(l); WalkExpr(r);
        case Logic(_, l, r) => WalkExpr(l); WalkExpr(r);
        case Ternary(c, a, b) => WalkExpr(c); WalkExpr(a); WalkExpr(b);
        case Coalesce(l, r) => WalkExpr(l); WalkExpr(r);
        case Elvis(l, r) => WalkExpr(l); WalkExpr(r);
        case Assign(x, a) =>
          if x == "loop" { MarkLoop(Innermost(stack)); }
          WalkExpr(a);
        case Lit(_) =>
      }
    }

    method WalkElements(items: seq<Expr>)
      modifies this
      ensures stack == old(stack) && State() == WalkItems(items, old(stack), old(State()))
      decreases items, 0
    {
      if items != [] {
        WalkExpr(items[0]);
        WalkElements(items[1..]);
      }
    }

    method WalkEntries(fields: seq<Entry>)
      modifies this
      ensures stack == old(stack) && State() == WalkFields(fields, old(stack), old(State()))
      decreases fields, 0
    {
      if fields != [] {
        WalkExpr(fields[0].v);
        WalkEntries(fields[1..]);
      }
    }

    method WalkStmt(s: Stmt)
      modifies this
      ensures stack == old(stack) && State() == WalkS(s, old(stack), old(State()))
      decreases s, 2
    {
      match s {
        case Print(e) => WalkExpr(e);
        case Do(e) => WalkExpr(e);
        case Set(x, e) =>
          if x == "loop" { MarkLoop(Innermost(stack)); }
          WalkExpr(e);
        case Capture(x, body) =>
          if x == "loop" { MarkLoop(Innermost(stack)); }
          WalkStmts(body);
        case If(clauses) => WalkClauses(clauses);
        case With(m, only, body) =>
          WalkExpr(m);
          WalkPushed(if only then AOnly else AWith, body);
        case For(_, _, _, _, _, _, _) => WalkFor(s);
        case Text(_) =>
        case Apply(_) =>
      }
    }

    // A body under one more scope frame.
    method WalkPushed(f: AFrame, body: seq<Stmt>)
      modifies this
      ensures stack == old(stack) && State() == WalkL(body, APush(f, old(stack)), old(State()))
      decreases body, 1
    {
      stack := APush(f, stack);
      WalkStmts(body);
      stack := stack.below;
    }

    method EnterFor(s: Stmt)
      requires s.For?
      modifies this
      ensures stack == old(stack) && State() == Enter(s, old(stack), old(State()))
    {
      if s.id in visited { MarkLoop(Some(s.id)); } else { visited := visited + [s.id]; }
      var p := NearestLoop(stack);
      if p.Some? {
        parents := parents[s.id := (if s.id in parents then parents[s.id] else []) + [p.value]];
      }
      if "loop" in TargetNames(s.t1, s.t2) { MarkLoop(Some(s.id)); }
    }

    method WalkFor(s: Stmt)
      requires s.For?
      modifies this
      ensures stack == old(stack) && State() == WalkS(s, old(stack), old(State()))
      decreases s, 1
    {
      WalkExpr(s.iter);
      EnterFor(s);
      if s.filter.Some? {
        stack := APush(AFilter(FilterBindsLoop(s.t1, s.t2, s.filter.value)), stack);
        WalkExpr(s.filter.value);
        stack := stack.below;
      }
      WalkPushed(ALoop(s.id), s.body);
      WalkStmts(s.els);
    }

    method WalkStmts(ss: seq<Stmt>)
      modifies this
      ensures stack == old(stack) && State() == WalkL(ss, old(stack), old(State()))
      decreases ss, 0
    {
      if ss != [] {
        WalkStmt(ss[0]);
        WalkStmts(ss[1..]);
      }
    }

    method WalkClauses(cl: seq<Clause>)
      modifies this
      ensures stack == old(stack) && State() == WalkC(cl, old(stack), old(State()))
      decreases cl, 0
    {
      if cl != [] {
        match cl[0] {
          case When(c, body) => WalkExpr(c); WalkStmts(body);
          case Otherwise(body) => WalkStmts(body);
        }
        WalkClauses(cl[1..]);
      }
    }

    // The closure loop: the least set holding the seeds and closed under both rules.
    method Fixpoint()
      requires forall r :: r in chains ==> r.chain != []
      modifies this`materialized
      ensures Least(old(State()), materialized)
    {
      ghost var w := State();
      Seed(w);
      var changed := true;
      while changed
        invariant Seeded(w, materialized) && Bounded(w, materialized) && materialized <= Reach(w)
        invariant !changed ==> Closed(w, materialized)
        decreases |Reach(w) - materialized|, changed
      {
        ghost var before := materialized;
        var c1 := PropagateParents(w);
        var c2 := PropagateChains(w);
        changed := c1 || c2;
        if changed { Shrinks(Reach(w), before, materialized); }
      }
    }

    // The bases of the reads whose node some visit could not approve.
    method Seed(ghost w: Walk)
      requires w == State() && forall r :: r in chains ==> r.chain != []
      modifies this`materialized
      ensures Seeded(w, materialized) && Bounded(w, materialized) && materialized <= Reach(w)
    {
      for i := 0 to |chains|
        invariant w.marks <= materialized <= Reach(w) && Bounded(w, materialized)
        invariant forall k :: 0 <= k < i && Disapproved(w, chains[k].node) ==> chains[k].chain[0] in materialized
      {
        var r := chains[i];
        if r.node in noInline || Differing(chains, r.node) {
          assert Disapproved(w, r.node) && r in w.chains;
          materialized := materialized + {r.chain[0]};
        }
      }
    }

    // One pass of the outward parent-link rule.
    method PropagateParents(ghost w: Walk) returns (changed: bool)
      requires w.visited == visited && w.parents == parents
      requires Bounded(w, materialized) && materialized <= Reach(w)
      modifies this`materialized
      ensures old(materialized) <= materialized <= Reach(w) && Bounded(w, materialized)
      ensures changed == (materialized != old(materialized))
      ensures !changed ==> forall n, p :: n in w.visited && n in materialized && ParentOf(w, n, p) ==> p in materialized
    {
      changed := false;
      for i := 0 to |visited|
        invariant old(materialized) <= materialized <= Reach(w) && Bounded(w, materialized)
        invariant changed == (materialized != old(materialized))
        invariant !changed ==>
          forall k, p :: 0 <= k < i && visited[k] in materialized && ParentOf(w, visited[k], p) ==> p in materialized
      {
        var n := visited[i];
        if n in materialized && n in parents {
          var ps := parents[n];
          for j := 0 to |ps|
            invariant old(materialized) <= materialized <= Reach(w) && Bounded(w, materialized) && n in materialized
            invariant changed == (materialized != old(materialized))
            invariant !changed ==>
              forall k, p :: 0 <= k < i && visited[k] in materialized && ParentOf(w, visited[k], p) ==>
                  p in materialized
            invariant !changed ==> forall k :: 0 <= k < j ==> ps[k] in materialized
          {
            if ps[j] !in materialized {
              assert ParentOf(w, n, ps[j]);
              materialized := materialized + {ps[j]};
              changed := true;
            }
          }
        }
      }
    }

    // One pass of the chain rule.
    method PropagateChains(ghost w: Walk) returns (changed: bool)
      requires w.chains == chains && forall r :: r in chains ==> r.chain != []
      requires Bounded(w, materialized) && materialized <= Reach(w)
      modifies this`materialized
      ensures old(materialized) <= materialized <= Reach(w) && Bounded(w, materialized)
      ensures changed == (materialized != old(materialized))
      ensures !changed ==> forall r, l :: r in w.chains && r.chain != [] && l in r.chain[1..] && l in materialized ==>
          r.chain[0] in materialized
    {
      changed := false;
      for i := 0 to |chains|
        invariant old(materialized) <= materialized <= Reach(w) && Bounded(w, materialized)
        invariant changed == (materialized != old(materialized))
        invariant !changed ==> forall k, l :: 0 <= k < i && l in chains[k].chain[1..] && l in materialized ==>
            chains[k].chain[0] in materialized
      {
        var r := chains[i];
        if r.chain[0] !in materialized {
          var hit := Touches(r.chain[1..]);
          if hit.Some? {
            assert r in w.chains;
            materialized := materialized + {r.chain[0]};
            changed := true;
          }
        }
      }
    }

    // The first materialized loop of a chain's tail.
    method Touches(tail: seq<nat>) returns (hit: Option<nat>)
      ensures hit.Some? ==> hit.value in tail && hit.value in materialized
      ensures hit.None? ==> forall l :: l in tail ==> l !in materialized
    {
      hit := None;
      for j := 0 to |tail|
        invariant forall k :: 0 <= k < j ==> tail[k] !in materialized
      {
        if tail[j] in materialized {
          return Some(tail[j]);
        }
      }
    }
  }

  // The analysis of a module.
  method AnalyzeLoops(ss: seq<Stmt>, lenient: bool) returns (plan: Plan, m: set<nat>)
    ensures Least(WalkModule(ss), m) && plan == PlanOf(WalkModule(ss), m, lenient)
    ensures forall other :: Least(WalkModule(ss), other) ==> other == m
  {
    var a := new LoopAnalyzer();
    a.WalkStmts(ss);
    a.Fixpoint();
    m := a.materialized;
    var approved: map<nat, (nat, string)> := map[];
    for i := 0 to |a.chains|
      invariant approved == Approve(a.chains[..i], m, a.noInline)
    {
      var r := a.chains[i];
      if r.chain != [] && r.chain[0] !in m && r.node !in a.noInline {
        approved := approved[r.node := (r.chain[|r.chain| - 1], r.field)];
      }
      assert a.chains[..i + 1][..i] == a.chains[..i];
    }
    assert a.chains[..|a.chains|] == a.chains;
    plan := Plan(lenient, (set n | n in a.visited && n !in m), approved);
    forall other | Least(WalkModule(ss), other) ensures other == m { LeastUnique(WalkModule(ss), other, m); }
  }

  // Every loop the analysis can materialize.
  ghost function Reach(w: Walk): set<nat> {
    w.marks + (set n, p | n in w.parents && p in w.parents[n] :: p)
    + (set r | r in w.chains && r.chain != [] :: r.chain[0])
  }

  lemma Shrinks(all: set<nat>, before: set<nat>, after: set<nat>)
    requires before < after <= all
    ensures |all - after| < |all - before|
  {
    assert all - before == (all - after) + (after - before);
  }
}
