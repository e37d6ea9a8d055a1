/** Whole modules: the two engines give the same bytes and the same errors. */
module ModuleSim {
  import opened Values
  import opened Syntax
  import opened Scopes
  import opened Interp
  import opened Scan
  import opened Target
  import opened Lowering
  import opened Agreement
  import opened BindSim
  import opened Safety
  import opened ExprSim
  import opened ContextSim
  import EvalSim
  import Failures
  import opened FilterSim
  import opened StmtSim
  import ExecSim

  // The variables of a render, in their order.
  ghost predicate Listed(order: seq<string>, vars: Vars) {
    NoDup(order) && forall x :: x in order <==> x in vars
  }

  function VarEntries(order: seq<string>, vars: Vars): seq<(string, Value)> {
    if order == [] then []
    else VarEntries(order[..|order| - 1], vars) + [(order[|order| - 1], VarsAt(vars, order[|order| - 1]))]
  }

  // The interpreter's root scope.
  function RootScope(order: seq<string>, vars: Vars): Scope {
    Scope(VarEntries(order, vars), NoScope)
  }

  function Start(order: seq<string>): State { State(map[], map[], order, "") }

  function RootShape(ss: seq<Stmt>): Frames {
    Frames(ShapeFrame(KRoot, "loop" in BindNames(ss), None), Bottom)
  }

  lemma {:induction false} VarKeys(order: seq<string>, vars: Vars)
    ensures Keys(VarEntries(order, vars)) == order
  {
    if order != [] {
      var init, last := order[..|order| - 1], order[|order| - 1];
      var es := VarEntries(order, vars);
      VarKeys(init, vars);
      assert es[..|es| - 1] == VarEntries(init, vars);
      assert order == init + [last];
    }
  }

  lemma {:induction false} VarLookup(order: seq<string>, vars: Vars, x: string)
    ensures Lookup(VarEntries(order, vars), x) == if x in order then Some(VarsAt(vars, x)) else None
  {
    if order != [] {
      var es := VarEntries(order, vars);
      VarLookup(order[..|order| - 1], vars, x);
      assert es[..|es| - 1] == VarEntries(order[..|order| - 1], vars);
      ContextSim.InSnoc(order, x);
    }
  }

  lemma RootAgrees(order: seq<string>, vars: Vars, f: CFrame, s: State)
    requires Listed(order, vars) && f.kind == KRoot && f.definite == {} && f.loop.NoLoop?
    requires LocalsOf(s, f.id) == Locals(map[], {}, []) && s.qNames == order
    ensures Agree(RootScope(order, vars), Frames(f, Bottom), s, vars, {})
  {
    RootGets(order, vars, f, s);
    assert TopReady(f, s, {}) && OrdReady(f, s);
  }

  lemma RootGets(order: seq<string>, vars: Vars, f: CFrame, s: State)
    requires Listed(order, vars) && f.kind == KRoot && LocalsOf(s, f.id) == Locals(map[], {}, []) && s.qNames == order
    ensures forall x :: Get(RootScope(order, vars), x) == CGet(Frames(f, Bottom), s, vars, x)
    ensures Names(RootScope(order, vars)) == CNames(Frames(f, Bottom), s, vars)
  {
    var fs := Frames(f, Bottom);
    forall x ensures Get(RootScope(order, vars), x) == CGet(fs, s, vars, x) {
      VarLookup(order, vars, x);
      assert CGet(fs, s, vars, x) == Own(f, s, vars, x) == if x in vars then Some(vars[x]) else None;
    }
    VarKeys(order, vars);
    AddNamesFresh(order);
    assert CNames(fs, s, vars) == CBase(fs, s, vars) == order;
  }

  // What a compiled render produced is what the interpreter produced.
  ghost predicate SameRender(r: RunR, x: ExecR) {
    match x
    case XFail(e, o) => r == RFail(e, o)
    case XOk(sc, o) => r.ROk? && r.s.out == o && r.s.qNames == Names(sc)
  }

  // A module renders to the same output, or fails with the same error after the same output; the
  // names left visible are the same, in the same order.
  lemma ModuleRenders(ss: seq<Stmt>, plan: Plan, order: seq<string>, vars: Vars)
    requires Listed(order, vars) && SafeL(ss, RootShape(ss), plan)
    ensures SameRender(Run(LowerModule(ss, plan).code, Start(order), vars),
                       ExecList(ss, RootScope(order, vars), "", plan.lenient))
  {
    var f := NewFrame(1, KRoot, BindNames(ss), GConst(Null), NoLoop);
    RootFrameFacts(ss, f);
    ModuleIn(ss, plan, f, order, vars);
  }

  // The plain lowering, which gives every loop its loop value, renders every module as the
  // interpreter does, for every variable map.
  lemma PlainRenders(ss: seq<Stmt>, lenient: bool, order: seq<string>, vars: Vars)
    requires Listed(order, vars)
    ensures SameRender(Run(LowerModule(ss, PlainPlan(lenient)).code, Start(order), vars),
                       ExecList(ss, RootScope(order, vars), "", lenient))
  {
    PlainL(ss, RootShape(ss), lenient);
    ModuleRenders(ss, PlainPlan(lenient), order, vars);
  }

  lemma RootFrameFacts(ss: seq<Stmt>, f: CFrame)
    requires f.order == AddNames([], BindNames(ss)) && f.kind == KRoot && f.loop.NoLoop?
    ensures EvalSim.Scanned(ListBinds(ss), f.order) && Frames(ShapeOf(f), Bottom) == RootShape(ss)
  {
    AddNamesAll([], ListBinds(ss));
    AddNamesAll([], BindNames(ss));
  }

  lemma ModuleIn(ss: seq<Stmt>, plan: Plan, f: CFrame, order: seq<string>, vars: Vars)
    requires Listed(order, vars) && f.id == 1 && f.kind == KRoot && f.definite == {} && f.loop.NoLoop?
        && f.withG == GConst(Null)
    requires SafeL(ss, Frames(ShapeOf(f), Bottom), plan) && EvalSim.Scanned(ListBinds(ss), f.order)
    ensures SameRender(Run([Declare(1)] + LowerList(ss, CS(Frames(f, Bottom), 0, 1, 0), plan).code, Start(order), vars),
                       ExecList(ss, RootScope(order, vars), "", plan.lenient))
  {
    var cs := CS(Frames(f, Bottom), 0, 1, 0);
    var s1 := PutLocals(Start(order), 1, Locals(map[], {}, []));
    RunOne(Declare(1), Start(order), vars);
    RunAppend([Declare(1)], LowerList(ss, cs, plan).code, Start(order), vars);
    RootAgrees(order, vars, f, s1);
    var s' := ExecSim.SimList(ss, cs, plan, RootScope(order, vars), s1, vars);
    var xr := ExecList(ss, RootScope(order, vars), "", plan.lenient);
    if xr.XOk? { RootNames(xr.sc, LowerList(ss, cs, plan).cs, s', vars); }
  }

  lemma RootNames(sc: Scope, cs: CS, s: State, vars: Vars)
    requires Inv(cs, sc, s, vars) && Top(cs).kind == KRoot
    ensures s.qNames == Names(sc)
  {
    assert Agree(sc, cs.frames, s, vars, {}) && CNames(cs.frames, s, vars) == CBase(cs.frames, s, vars);
  }

  lemma DefiniteIs(cs: CS, sc: Scope, s: State, vars: Vars, x: string)
    requires Inv(cs, sc, s, vars) && x in Top(cs).definite && x in Top(cs).order
    ensures x in LocalsOf(s, Top(cs).id).flags && Get(sc, x) == Some(VarVal(s, x, Top(cs).id))
  {
    assert Agree(sc, cs.frames, s, vars, {});
    assert CGet(cs.frames, s, vars, x) == Own(Top(cs), s, vars, x);
  }

  // Whenever lowering marks a name definite, the code has bound it, to the value the scope chain
  // reads.
  lemma DefiniteBound(ss: seq<Stmt>, cs: CS, plan: Plan, sc: Scope, s: State, vars: Vars, x: string)
    requires Inv(cs, sc, s, vars) && PreL(ss, cs, plan) && x in Top(LowerList(ss, cs, plan).cs).definite
    requires x in Top(cs).order && ExecList(ss, sc, s.out, plan.lenient).XOk?
    ensures var r := Run(LowerList(ss, cs, plan).code, s, vars);
      && r.ROk? && x in LocalsOf(r.s, Top(cs).id).flags
      && Get(ExecList(ss, sc, s.out, plan.lenient).sc, x) == Some(VarVal(r.s, x, Top(cs).id))
  {
    var s' := ExecSim.SimList(ss, cs, plan, sc, s, vars);
    DefiniteIs(LowerList(ss, cs, plan).cs, ExecList(ss, sc, s.out, plan.lenient).sc, s', vars, x);
  }

  // The prescan covers every bind: lowered code never reaches an internal failure.
  lemma NoPanic(ss: seq<Stmt>, plan: Plan, order: seq<string>, vars: Vars)
    requires Listed(order, vars) && SafeL(ss, RootShape(ss), plan)
    ensures var r := Run(LowerModule(ss, plan).code, Start(order), vars); r.ROk? || r.error != CompilerPanic
  {
    ModuleRenders(ss, plan, order, vars);
    Failures.ListFails(ss, RootScope(order, vars), "", plan.lenient);
  }
}
