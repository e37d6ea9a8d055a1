/** Statements: how simulated parts compose into a simulated statement. */
module StmtSim {
  import opened Values
  import opened Syntax
  import opened Scopes
  import opened Interp
  import opened Scan
  import opened Target
  import opened Lowering
  import opened Agreement
  import opened Resolution
  import opened BindSim
  import opened Safety
  import opened ExprSim
  import opened ContextSim
  import opened EvalSim
  import opened CopySim
  import opened LoopSim
  import opened FilterSim

  // The code of lowered statements simulates an execution: the same scope and output, or the same
  // error after the same partial output.
  ghost predicate SimS(ls: LS, xr: ExecR, cs: CS, s: State, s': State, vars: Vars)
    requires cs.frames.Frames?
  {
    match xr
    case XFail(x, o) => Run(ls.code, s, vars) == RFail(x, o)
    case XOk(sc', o) =>
      && Run(ls.code, s, vars) == ROk(s') && Inv(ls.cs, sc', s', vars) && Keep(s, s', cs) && s'.out == o
  }

  ghost predicate PreL(ss: seq<Stmt>, cs: CS, plan: Plan) {
    cs.frames.Frames? && SafeL(ss, Shape(cs.frames), plan) && Scanned(ListBinds(ss), Top(cs).order)
  }

  ghost predicate PreS(st: Stmt, cs: CS, plan: Plan) {
    cs.frames.Frames? && SafeS(st, Shape(cs.frames), plan) && Scanned(StmtBinds(st), Top(cs).order)
  }

  ghost predicate PreC(cl: seq<Clause>, cs: CS, plan: Plan) {
    cs.frames.Frames? && SafeC(cl, Shape(cs.frames), plan) && Scanned(ClausesBinds(cl), Top(cs).order)
  }

  lemma PreCons(ss: seq<Stmt>, a: CS, b: CS, plan: Plan)
    requires ss != [] && PreL(ss, a, plan) && Evolves(a, b)
    ensures PreS(ss[0], a, plan) && PreL(ss[1..], b, plan)
  {
    ShapeEvolves(a, b);
    assert ListBinds(ss) == StmtBinds(ss[0]) + ListBinds(ss[1..]);
  }

  lemma PreListLater(ss: seq<Stmt>, a: CS, b: CS, plan: Plan)
    requires PreL(ss, a, plan) && Evolves(a, b)
    ensures PreL(ss, b, plan)
  {
    ShapeEvolves(a, b);
  }

  lemma PreClauses(cl: seq<Clause>, a: CS, b: CS, plan: Plan)
    requires cl != [] && PreC(cl, a, plan) && Evolves(a, b)
    ensures cl[0].Otherwise? ==> PreL(cl[0].body, b, plan)
    ensures cl[0].When? ==> Pre(cl[0].cond, a, plan) && PreL(cl[0].body, b, plan) && PreC(cl[1..], b, plan)
  {
    ShapeEvolves(a, b);
  }

  // ----- composition -----

  lemma ListThen(a: LS, xa: ExecR, b: LS, xb: ExecR, cs: CS, s: State, s1: State, s': State, vars: Vars)
    requires cs.frames.Frames? && Evolves(cs, a.cs) && SimS(a, xa, cs, s, s1, vars)
    requires xa.XOk? ==> SimS(b, xb, a.cs, s1, s', vars)
    ensures SimS(LS(a.code + b.code, b.cs), if xa.XFail? then xa else xb, cs, s, s', vars)
  {
    RunAppend(a.code, b.code, s, vars);
    if xa.XOk? && xb.XOk? { KeepTrans(s, s1, s', cs, a.cs); }
  }

  lemma ExprThen(a: LE, er: EvalR, b: LS, xb: ExecR, cs: CS, s: State, s1: State, s': State, vars: Vars)
    requires cs.frames.Frames? && Evolves(cs, a.cs) && SimR(a, er, cs, s, s1, vars)
    requires er.EOk? ==> SimS(b, xb, a.cs, s1, s', vars)
    ensures SimS(LS(a.code + b.code, b.cs), if er.EFail? then XFail(er.err, s.out) else xb, cs, s, s', vars)
  {
    RunAppend(a.code, b.code, s, vars);
    if er.EOk? && xb.XOk? { KeepTrans(s, s1, s', cs, a.cs); }
  }

  // A prefix that ran, then a simulated continuation.
  lemma CodeThen(code: Code, mid: CS, s1: State, b: LS, xb: ExecR, cs: CS, s: State, s': State, vars: Vars)
    requires cs.frames.Frames? && mid.frames.Frames? && Evolves(cs, mid)
    requires Run(code, s, vars) == ROk(s1) && Keep(s, s1, cs) && SimS(b, xb, mid, s1, s', vars)
    ensures SimS(LS(code + b.code, b.cs), xb, cs, s, s', vars)
  {
    RunAppend(code, b.code, s, vars);
    if xb.XOk? { KeepTrans(s, s1, s', cs, mid); }
  }

  // ----- output -----

  lemma SimOutput(c: Instr, r: Result<string>, cs: CS, sc: Scope, s: State, vars: Vars) returns (s': State)
    requires Inv(cs, sc, s, vars)
    requires Step(c, s, vars) == match r case Ok(t) => ROk(s.(out := s.out + t)) case Err(e) => RFail(e, s.out)
    ensures SimS(LS([c], cs), match r case Ok(t) => XOk(sc, s.out + t) case Err(e) => XFail(e, s.out), cs, s, s', vars)
  {
    RunOne(c, s, vars);
    s' := s;
    if r.Ok? {
      s' := s.(out := s.out + r.value);
      InvOut(cs, sc, s, s.out + r.value, vars);
    }
  }

  // A bind after its value was computed.
  lemma SimSet(x: string, g: GExpr, cs: CS, sc: Scope, s: State, vars: Vars) returns (s': State)
    requires Inv(cs, sc, s, vars) && x in Top(cs).order && Bindable(cs.frames, x)
    ensures SimS(BindName(x, g, cs), XOk(SetName(sc, x, GVal(g, s, vars)), s.out), cs, s, s', vars)
  {
    s' := SimBind(x, g, cs, sc, s, vars);
  }

  // A body rendered aside: its output is held in temporary t, or its error raised with nothing written.
  ghost predicate Captured(t: nat, r: LS, xr: ExecR, cs: CS, s: State, s': State, vars: Vars)
    requires cs.frames.Frames?
  {
    match xr
    case XFail(x, _) => Run([CaptureInto(t, r.code)], s, vars) == RFail(x, s.out)
    case XOk(sc, text) =>
      && Run([CaptureInto(t, r.code)], s, vars) == ROk(s') && Inv(r.cs, sc, s', vars)
      && Tmp(s', t) == Str(text) && Keep(s, s', cs) && s'.out == s.out
  }

  // The captured output of a body lands in a temporary; the output itself is untouched.
  lemma SimCaptured(r: LS, xr: ExecR, cs: CS, s: State, s1: State, vars: Vars) returns (s': State)
    requires cs.frames.Frames? && StackOK(cs.frames, cs.tmpN, cs.frameN) && Evolves(Fresh(cs, 1), r.cs)
    requires SimS(r, xr, Fresh(cs, 1), s.(out := ""), s1, vars)
    ensures Captured(cs.tmpN, r, xr, cs, s, s', vars)
  {
    RunOne(CaptureInto(cs.tmpN, r.code), s, vars);
    s' := s1;
    if xr.XOk? {
      s' := PutTmp(s1, cs.tmpN, Str(s1.out)).(out := s.out);
      PutOlder(cs, r.cs, xr.sc, s1, cs.tmpN, Str(s1.out), vars);
      InvOut(r.cs, xr.sc, PutTmp(s1, cs.tmpN, Str(s1.out)), s.out, vars);
      CapturedKeep(cs, s, s1, Str(s1.out));
    }
  }

  lemma CapturedKeep(cs: CS, s: State, s1: State, v: Value)
    requires cs.frames.Frames? && Keep(s.(out := ""), s1, Fresh(cs, 1))
    ensures Keep(s, PutTmp(s1, cs.tmpN, v).(out := s.out), cs)
  {
    var s0, s' := s.(out := ""), PutTmp(s1, cs.tmpN, v).(out := s.out);
    assert forall t: nat :: Tmp(s, t) == Tmp(s0, t);
    assert forall id: nat :: LocalsOf(s, id) == LocalsOf(s0, id) && LocalsOf(s', id) == LocalsOf(s1, id);
  }

  lemma CaptureThen(r: LS, xr: ExecR, b: LS, xb: ExecR, cs: CS, s: State, s1: State, s': State, vars: Vars)
    requires cs.frames.Frames? && Evolves(Fresh(cs, 1), r.cs)
    requires Captured(cs.tmpN, r, xr, cs, s, s1, vars)
    requires xr.XOk? ==> SimS(b, xb, r.cs, s1, s', vars)
    ensures SimS(LS([CaptureInto(cs.tmpN, r.code)] + b.code, b.cs), if xr.XFail? then XFail(xr.error, s.out) else xb,
                 cs, s, s', vars)
  {
    RunAppend([CaptureInto(cs.tmpN, r.code)], b.code, s, vars);
    if xr.XOk? && xb.XOk? { KeepTrans(s, s1, s', cs, r.cs); }
  }

  // ----- conditionals -----

  // A taken arm, under a conditional depth of its own.
  lemma SimTaken(c: Cond, b: LS, xb: ExecR, els: Code, after: CS, cond: nat, start: CS, s: State, s': State, vars: Vars)
    requires start.frames.Frames? && start.cond > 0 && Evolves(start, b.cs) && Evolves(b.cs, after)
    requires CVal(c, s, vars) && SimS(b, xb, start, s, s', vars)
    ensures SimS(LS([Branch(c, b.code, els)], Shallower(after, cond)), xb, start, s, s', vars)
  {
    RunOne(Branch(c, b.code, els), s, vars);
    if xb.XOk? { InvLater(b.cs, after, xb.sc, s', vars); }
  }

  lemma SimRefused(c: Cond, thn: Code, b: LS, xb: ExecR, cond: nat, start: CS, s: State, s': State, vars: Vars)
    requires start.frames.Frames? && !CVal(c, s, vars) && SimS(b, xb, start, s, s', vars)
    ensures SimS(LS([Branch(c, thn, b.code)], Shallower(b.cs, cond)), xb, start, s, s', vars)
  {
    RunOne(Branch(c, thn, b.code), s, vars);
  }

  // ----- with -----

  // A body simulated in a pushed frame; the scope below is as it was.
  lemma SimPushed(f: CFrame, b: LS, xr: ExecR, cs: CS, sc: Scope, s: State, s': State, vars: Vars)
    requires Inv(cs, sc, s, vars) && f.id == cs.frameN + 1 && f.kind != KRoot
    requires var inner := CS(Frames(f, cs.frames), cs.tmpN, f.id, 0);
      Evolves(inner, b.cs) && SimS(b, xr, inner, Declared(s, f.id), s', vars)
    ensures SimS(LS([Declare(f.id)] + b.code, CS(b.cs.frames.below, b.cs.tmpN, b.cs.frameN, cs.cond)),
                 if xr.XFail? then xr else XOk(sc, xr.out), cs, s, s', vars)
  {
    RunAppend([Declare(f.id)], b.code, s, vars);
    RunOne(Declare(f.id), s, vars);
    if xr.XOk? {
      DeclaredSame(s, cs);
      PushedKeep(Declared(s, f.id), s', CS(Frames(f, cs.frames), cs.tmpN, f.id, 0), cs);
      SameTrans(s, Declared(s, f.id), s', cs.tmpN, cs.frameN);
      PopInv(cs, sc, s, s', b.cs.tmpN, b.cs.frameN, cs.cond, vars);
      SameKeep(s, s', cs);
    }
  }

  // ----- loops -----

  // The frame of a loop over the pairs in its pair temporary, pushed on cs.
  ghost predicate LoopSite(st: Stmt, f: CFrame, cs: CS, plan: Plan) {
    && st.For? && cs.frames.Frames? && StackOK(cs.frames, cs.tmpN, cs.frameN)
    && f.kind == KLoop && Undetermined(f, cs, cs.tmpN + 1)
    && f.loop.iT == cs.tmpN && f.loop.pT < cs.tmpN && f.loop.parT < cs.tmpN
    && Targets(st.t1, st.t2, Frames(f, cs.frames))
    && SafeL(st.body, Shape(Frames(f, cs.frames)), plan) && Scanned(ListBinds(st.body), f.order)
  }

  // What holds between iterations: the loop frame agrees but for the value of loop.
  ghost predicate Iterating(f: CFrame, ps: seq<(string, Value)>, parent: Value, cs: CS, lc: Scope, s: State,
                            vars: Vars) {
    && f.loop.LoopInfo?
    && lc.Scope? && Tracks(lc, Frames(f, cs.frames), s, vars, {"loop"})
    && Tmp(s, f.loop.pT) == Arr(ps) && Tmp(s, f.loop.parT) == parent
  }

  function IterCS(f: CFrame, cs: CS): CS
    requires f.loop.LoopInfo?
  {
    CS(Frames(f, cs.frames), f.loop.iT + 1, f.id, 0)
  }

  ghost function IterScope(st: Stmt, ps: seq<(string, Value)>, k: nat, parent: Value, lc: Scope): (r: Scope)
    requires st.For? && k < |ps| && lc.Scope?
    ensures r.Scope?
  {
    SetName(BindTargets(lc, st.t1, st.t2, ps[k]), "loop", Loop(k, ps, parent))
  }

  lemma LoopStack(f: CFrame, cs: CS)
    requires cs.frames.Frames? && StackOK(cs.frames, cs.tmpN, cs.frameN) && f.kind == KLoop
        && Undetermined(f, cs, cs.tmpN + 1)
    ensures StackOK(Frames(f, cs.frames), cs.tmpN + 1, f.id)
  {
    StackWiden(cs.frames, cs.tmpN, cs.frameN, cs.tmpN + 1, cs.frameN);
  }

  // The binds of one iteration, from the advanced counter.
  lemma RunHead(st: Stmt, f: CFrame, ps: seq<(string, Value)>, k: nat, parent: Value, cs: CS, lc: Scope, s: State,
                vars: Vars)
    returns (s1: State, t: LS, l: LS)
    requires st.For? && cs.frames.Frames? && StackOK(cs.frames, cs.tmpN, cs.frameN) && f.kind == KLoop
        && Undetermined(f, cs, cs.tmpN + 1)
    requires f.loop.iT == cs.tmpN && f.loop.pT < cs.tmpN && f.loop.parT < cs.tmpN
        && Targets(st.t1, st.t2, Frames(f, cs.frames))
    requires Iterating(f, ps, parent, cs, lc, s, vars) && k < |ps|
    ensures t == LowerTargets(st.t1, st.t2, f.loop.pT, f.loop.iT, IterCS(f, cs)) && l == LowerLoopBind(f.loop, t.cs)
    ensures var s0 := PutTmp(s, f.loop.iT, Int(k));
      && Run(t.code + l.code, s0, vars) == ROk(s1) && Keep(s0, s1, IterCS(f, cs)) && s1.out == s.out
      && Evolves(IterCS(f, cs), l.cs) && Inv(l.cs, IterScope(st, ps, k, parent, lc), s1, vars)
  {
    var s0 := PutTmp(s, f.loop.iT, Int(k));
    LoopStack(f, cs);
    CounterAgree(lc, f, cs, cs.tmpN + 1, s, cs.tmpN, Int(k), vars, {"loop"});
    t := LowerTargets(st.t1, st.t2, f.loop.pT, f.loop.iT, IterCS(f, cs));
    var st1, left := RunTargets(st.t1, st.t2, f.loop.pT, f.loop.iT, ps, k, IterCS(f, cs), lc, s0, vars, {"loop"});
    s1, l := RunHeadLoop(f, ps, k, parent, t.cs, IterCS(f, cs), BindTargets(lc, st.t1, st.t2, ps[k]), s0, st1, left,
                         vars);
    RunAppend(t.code, l.code, s0, vars);
  }

  lemma RunHeadLoop(f: CFrame, ps: seq<(string, Value)>, k: nat, parent: Value, t: CS, start: CS, sc: Scope, s0: State,
                    s: State,
                    left: set<string>, vars: Vars) returns (s1: State, l: LS)
    requires start.frames.Frames? && start.frames.f == f && StackOK(start.frames, start.tmpN, start.frameN)
    requires Evolves(start, t) && start.cond == 0 && f.loop.LoopInfo? && f.kind == KLoop
    requires Agree(sc, t.frames, s, vars, left) && left <= {"loop"} && Keep(s0, s, start) && s.tmps == s0.tmps
    requires Element(f.loop.pT, f.loop.iT, ps, k, s0) && Tmp(s0, f.loop.parT) == parent
    ensures l == LowerLoopBind(f.loop, t) && Run(l.code, s, vars) == ROk(s1)
    ensures Keep(s0, s1, start) && s1.out == s.out && Evolves(start, l.cs)
    ensures Inv(l.cs, SetName(sc, "loop", Loop(k, ps, parent)), s1, vars)
  {
    l := LowerLoopBind(f.loop, t);
    StackEvolves(start, t);
    Widen(sc, t.frames, s, vars, left);
    s1 := RunLoopBind(f.loop, t, sc, s, vars, ps, k, parent);
    StackEvolves(t, l.cs);
    KeepTrans(s0, s, s1, start, t);
  }

  // The state after one iteration is a state between iterations.
  lemma IterationDone(f: CFrame, ps: seq<(string, Value)>, parent: Value, k: nat, cs: CS, b: CS, lc: Scope, s: State,
                      s': State, vars: Vars)
    requires cs.frames.Frames? && f.kind == KLoop && Undetermined(f, cs, cs.tmpN + 1)
    requires f.loop.iT == cs.tmpN && f.loop.pT < cs.tmpN && f.loop.parT < cs.tmpN
    requires Tmp(s, f.loop.pT) == Arr(ps) && Tmp(s, f.loop.parT) == parent
    requires Evolves(IterCS(f, cs), b) && Inv(b, lc, s', vars) && Keep(PutTmp(s, f.loop.iT, Int(k)), s', IterCS(f, cs))
    ensures Iterating(f, ps, parent, cs, lc, s', vars) && SameUpTo(s, s', cs.tmpN, cs.frameN)
  {
    var s0 := PutTmp(s, f.loop.iT, Int(k));
    Forget(lc, f, b.frames.f, cs.frames, s', vars, {});
    PushedKeep(s0, s', IterCS(f, cs), cs);
    TmpsPut(s, f.loop.iT, Int(k), cs.tmpN);
    SameTrans(s, s0, s', cs.tmpN, cs.frameN);
  }

  ghost predicate Iterated(r: RunR, xr: ExecR, f: CFrame, ps: seq<(string, Value)>, parent: Value, cs: CS, s: State,
                           s': State, vars: Vars) {
    match xr
    case XFail(x, o) => r == RFail(x, o)
    case XOk(lc, o) =>
      && r == ROk(s') && Iterating(f, ps, parent, cs, lc, s', vars) && SameUpTo(s, s', cs.tmpN, cs.frameN)
          && s'.out == o
  }

  // One iteration, its body simulated.
  lemma SimIteration(f: CFrame, ps: seq<(string, Value)>, parent: Value, k: nat, head: Code, l: CS, b: LS, xr: ExecR,
                     cs: CS,
                     s: State, s1: State, s': State, vars: Vars)
    requires cs.frames.Frames? && f.kind == KLoop && Undetermined(f, cs, cs.tmpN + 1)
    requires f.loop.iT == cs.tmpN && f.loop.pT < cs.tmpN && f.loop.parT < cs.tmpN
    requires Tmp(s, f.loop.pT) == Arr(ps) && Tmp(s, f.loop.parT) == parent
    requires var s0 := PutTmp(s, f.loop.iT, Int(k));
      Run(head, s0, vars) == ROk(s1) && Keep(s0, s1, IterCS(f, cs))
    requires Evolves(IterCS(f, cs), l) && Evolves(l, b.cs) && SimS(b, xr, l, s1, s', vars)
    ensures Iterated(Run(head + b.code, PutTmp(s, f.loop.iT, Int(k)), vars), xr, f, ps, parent, cs, s, s', vars)
  {
    var s0 := PutTmp(s, f.loop.iT, Int(k));
    RunAppend(head, b.code, s0, vars);
    if xr.XOk? {
      KeepTrans(s0, s1, s', IterCS(f, cs), l);
      IterationDone(f, ps, parent, k, cs, b.cs, xr.sc, s, s', vars);
    }
  }

  // One iteration, then the rest of the loop.
  lemma SimRange(st: Stmt, code: Code, f: CFrame, ps: seq<(string, Value)>, parent: Value, k: nat, cs: CS, lc: Scope,
                 lenient: bool,
                 s: State, s1: State, s': State, out: string, vars: Vars)
    requires st.For? && f.loop.LoopInfo? && lc.Scope? && k < |ps|
    requires var xr := ExecList(st.body, IterScope(st, ps, k, parent, lc), out, lenient);
      && Iterated(Run(code, PutTmp(s, f.loop.iT, Int(k)), vars), xr, f, ps, parent, cs, s, s1, vars)
      && (xr.XOk? ==> Iterated(RunRange(f.loop.iT, f.loop.pT, code, |ps|, k + 1, s1, vars),
                               ExecIter(st.body, st.t1, st.t2, ps, k + 1, parent, xr.sc, xr.out, lenient),
                               f, ps, parent, cs, s1, s', vars))
    ensures Iterated(RunRange(f.loop.iT, f.loop.pT, code, |ps|, k, s, vars),
                     ExecIter(st.body, st.t1, st.t2, ps, k, parent, lc, out, lenient), f, ps, parent, cs, s, s', vars)
  {
    if RunRange(f.loop.iT, f.loop.pT, code, |ps|, k, s, vars).ROk? { SameTrans(s, s1, s', cs.tmpN, cs.frameN); }
  }
}
