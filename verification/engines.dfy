/** The two engines with every optimization on: compiled code under the loop analysis, and the
    interpreter recycling loop memory under its own analysis. */
module Engines {
  import opened Values
  import opened Syntax
  import opened Scopes
  import opened Target
  import opened Lowering
  import opened Agreement
  import opened LoopOpt
  import opened LoopSafe
  import opened Nodes
  import opened Reuse
  import opened ReuseSim
  import opened ReuseRun
  import opened Escape
  import opened ModuleSim
  import Optimized
  import I = Interp

  // The same output and names, or the same error after the same output.
  ghost predicate SameEngines(c: RunR, r: HeapR) {
    match r
    case HFail(e, o) => c == RFail(e, o)
    case HOk(sc, _, o) => c.ROk? && c.s.out == o && c.s.qNames == Names(sc)
  }

  lemma {:induction false} VarsSolid(order: seq<string>, vars: map<string, Value>)
    requires forall x :: x in vars ==> Solid(vars[x])
    ensures SolidEntries(VarEntries(order, vars))
  {
    if order != [] { VarsSolid(order[..|order| - 1], vars); }
  }

  // On every module without an applied body, and every map of ordinary variables, the optimized
  // compiled code and the recycling interpreter agree, whatever buffers the pool hands out.
  lemma EnginesAgree(ss: seq<Stmt>, m: set<nat>, escapes: set<nat>, lenient: bool, pick: Heap -> nat,
                     order: seq<string>,
                     vars: map<string, Value>)
    requires NoApplyL(ss) && ProperL(ss) && Identified(ss)
    requires Least(WalkModule(ss), m) && LeastLinked(escapes, ScanModule(ss))
    requires Listed(order, vars) && forall x :: x in vars ==> Solid(vars[x])
    ensures SameEngines(Run(LowerModule(ss, PlanOf(WalkModule(ss), m, lenient)).code, Start(order), vars),
                        ExecList(ss, RootScope(order, vars), EMPTY, "",
                                 Config(lenient, SafeOf(ScanModule(ss), escapes), pick)))
  {
    Optimized.OptimizedRenders(ss, m, lenient, order, vars);
    VarsSolid(order, vars);
    AnalysisSound(ss, escapes, RootScope(order, vars), lenient, pick);
  }
}
