/** The simulation of execution, by structure of the statements. */
module ExecSim {
  import opened Values
  import opened Syntax
  import opened Scopes
  import opened Interp
  import opened Scan
  import opened Target
  import opened Lowering
  import opened Agreement
  import opened Resolution
  import opened BindSim
  import opened Safety
  import opened ExprSim
  import opened ContextSim
  import opened EvalSim
  import opened CopySim
  import opened LoopSim
  import opened FilterSim
  import opened StmtSim

  // Statements lowered in a state that agrees with the scope run as the interpreter executes them.
  lemma {:induction false} SimList(ss: seq<Stmt>, cs: CS, plan: Plan, sc: Scope, s: State,
                                   vars: Vars) returns (s': State)
    requires Inv(cs, sc, s, vars) && PreL(ss, cs, plan)
    ensures SimS(LowerList(ss, cs, plan), ExecList(ss, sc, s.out, plan.lenient), cs, s, s', vars)
    decreases ss, 0
  {
    s' := s;
    if ss != [] {
      PreCons(ss, cs, cs, plan);
      var a, xa := LowerS(ss[0], cs, plan), Exec(ss[0], sc, s.out, plan.lenient);
      var s1 := SimStmt(ss[0], cs, plan, sc, s, vars);
      s' := s1;
      if xa.XOk? {
        PreCons(ss, cs, a.cs, plan);
        s' := SimList(ss[1..], a.cs, plan, xa.sc, s1, vars);
        ListThen(a, xa, LowerList(ss[1..], a.cs, plan), ExecList(ss[1..], xa.sc, xa.out, plan.lenient), cs, s, s1, s',
                 vars);
      } else {
        ListThen(a, xa, LowerList(ss[1..], a.cs, plan), xa, cs, s, s1, s', vars);
      }
    }
  }

  lemma {:induction false} SimStmt(st: Stmt, cs: CS, plan: Plan, sc: Scope, s: State, vars: Vars) returns (s': State)
    requires Inv(cs, sc, s, vars) && PreS(st, cs, plan)
    ensures SimS(LowerS(st, cs, plan), Exec(st, sc, s.out, plan.lenient), cs, s, s', vars)
    decreases st, 9
  {
    match st {
      case Text(t) => s' := SimOutput(WriteText(t), Ok(t), cs, sc, s, vars);
      case Print(_) => s' := SimPrint(st, cs, plan, sc, s, vars);
      case Do(e) => s' := SimE(e, false, cs, plan, sc, s, vars);
      case Set(_, _) => s' := SimAssigned(st, cs, plan, sc, s, vars);
      case Capture(_, _) => s' := SimCapture(st, cs, plan, sc, s, vars);
      case Apply(_) => s' := SimApply(st, cs, plan, sc, s, vars);
      case If(clauses) => s' := SimClauses(clauses, cs, plan, sc, s, vars);
      case With(_, _, _) => s' := SimWith(st, cs, plan, sc, s, vars);
      case For(_, _, _, _, _, _, _) => s' := SimFor(st, cs, plan, sc, s, vars);
    }
  }

  lemma SimPrint(st: Stmt, cs: CS, plan: Plan, sc: Scope, s: State, vars: Vars) returns (s': State)
    requires st.Print? && Inv(cs, sc, s, vars) && PreS(st, cs, plan)
    ensures SimS(LowerS(st, cs, plan), Exec(st, sc, s.out, plan.lenient), cs, s, s', vars)
  {
    var a, er := LowerE(st.e, false, cs, plan), Eval(st.e, sc, false, plan.lenient);
    var s1 := SimE(st.e, false, cs, plan, sc, s, vars);
    s' := s1;
    if er.EOk? {
      s' := SimOutput(Write(a.g), ToText(er.v), a.cs, er.sc, s1, vars);
      ExprThen(a, er, LS([Write(a.g)], a.cs),
               match ToText(er.v) case Ok(t) => XOk(er.sc, s1.out + t) case Err(e) => XFail(e, s1.out),
               cs, s, s1, s', vars);
    } else {
      ExprThen(a, er, LS([Write(a.g)], a.cs), XFail(er.err, s.out), cs, s, s1, s', vars);
    }
  }

  lemma SimAssigned(st: Stmt, cs: CS, plan: Plan, sc: Scope, s: State, vars: Vars) returns (s': State)
    requires st.Set? && Inv(cs, sc, s, vars) && PreS(st, cs, plan)
    ensures SimS(LowerS(st, cs, plan), Exec(st, sc, s.out, plan.lenient), cs, s, s', vars)
  {
    assert StmtBinds(st) == [st.x] + ExprBinds(st.e);
    var a, er := LowerE(st.e, false, cs, plan), Eval(st.e, sc, false, plan.lenient);
    var s1 := SimE(st.e, false, cs, plan, sc, s, vars);
    s' := s1;
    if er.EOk? {
      s' := SimSet(st.x, a.g, a.cs, er.sc, s1, vars);
      ExprThen(a, er, BindName(st.x, a.g, a.cs), XOk(SetName(er.sc, st.x, er.v), s1.out), cs, s, s1, s', vars);
    } else {
      ExprThen(a, er, BindName(st.x, a.g, a.cs), XFail(er.err, s.out), cs, s, s1, s', vars);
    }
  }

  // A body run into a temporary.
  lemma {:induction false} SimInto(body: seq<Stmt>, cs: CS, plan: Plan, sc: Scope, s: State, vars: Vars)
    returns (r: LS, xr: ExecR, s': State)
    requires Inv(cs, sc, s, vars) && PreL(body, cs, plan)
    ensures r == LowerList(body, Fresh(cs, 1), plan) && xr == ExecList(body, sc, "", plan.lenient)
    ensures xr.XOk? ==> xr.sc.Scope?
    ensures Captured(cs.tmpN, r, xr, cs, s, s', vars)
    decreases body, 1
  {
    var s0 := s.(out := "");
    PopInv(cs, sc, s, s0, cs.tmpN + 1, cs.frameN, cs.cond, vars);
    var s1 := SimList(body, Fresh(cs, 1), plan, sc, s0, vars);
    r, xr := LowerList(body, Fresh(cs, 1), plan), ExecList(body, sc, "", plan.lenient);
    s' := SimCaptured(r, xr, cs, s, s1, vars);
  }

  lemma {:induction false} SimCapture(st: Stmt, cs: CS, plan: Plan, sc: Scope, s: State, vars: Vars) returns (s': State)
    requires st.Capture? && Inv(cs, sc, s, vars) && PreS(st, cs, plan)
    ensures SimS(LowerS(st, cs, plan), Exec(st, sc, s.out, plan.lenient), cs, s, s', vars)
    decreases st, 8
  {
    assert StmtBinds(st) == [st.x] + ListBinds(st.body);
    var r, xr, s1 := SimInto(st.body, cs, plan, sc, s, vars);
    var b := BindName(st.x, GTmp(cs.tmpN), r.cs);
    s' := s1;
    if xr.XOk? {
      ShapeEvolves(Fresh(cs, 1), r.cs);
      s' := SimSet(st.x, GTmp(cs.tmpN), r.cs, xr.sc, s1, vars);
      CaptureThen(r, xr, b, XOk(SetName(xr.sc, st.x, Str(xr.out)), s.out), cs, s, s1, s', vars);
    } else {
      CaptureThen(r, xr, b, XFail(xr.error, s.out), cs, s, s1, s', vars);
    }
  }

  lemma {:induction false} SimApply(st: Stmt, cs: CS, plan: Plan, sc: Scope, s: State, vars: Vars) returns (s': State)
    requires st.Apply? && Inv(cs, sc, s, vars) && PreS(st, cs, plan)
    ensures SimS(LowerS(st, cs, plan), Exec(st, sc, s.out, plan.lenient), cs, s, s', vars)
    decreases st, 8
  {
    var r, xr, s1 := SimInto(st.body, cs, plan, sc, s, vars);
    s' := WriteCaptured(r, xr, cs, s, s1, vars);
  }

  // The captured output of a body is written.
  lemma WriteCaptured(r: LS, xr: ExecR, cs: CS, s: State, s1: State, vars: Vars) returns (s': State)
    requires cs.frames.Frames? && Evolves(Fresh(cs, 1), r.cs)
    requires Captured(cs.tmpN, r, xr, cs, s, s1, vars)
    ensures SimS(LS([CaptureInto(cs.tmpN, r.code)] + [Write(GTmp(cs.tmpN))], r.cs),
                 if xr.XFail? then XFail(xr.error, s.out) else XOk(xr.sc, s.out + xr.out), cs, s, s', vars)
  {
    var b := LS([Write(GTmp(cs.tmpN))], r.cs);
    s' := s1;
    if xr.XOk? {
      s' := SimOutput(Write(GTmp(cs.tmpN)), Ok(xr.out), r.cs, xr.sc, s1, vars);
      CaptureThen(r, xr, b, XOk(xr.sc, s.out + xr.out), cs, s, s1, s', vars);
    } else {
      CaptureThen(r, xr, b, XFail(xr.error, s.out), cs, s, s1, s', vars);
    }
  }

  lemma {:induction false} SimClauses(cl: seq<Clause>, cs: CS, plan: Plan, sc: Scope, s: State,
                                      vars: Vars) returns (s': State)
    requires Inv(cs, sc, s, vars) && PreC(cl, cs, plan)
    ensures SimS(LowerClauses(cl, cs, plan), ExecIf(cl, sc, s.out, plan.lenient), cs, s, s', vars)
    decreases cl, 0
  {
    s' := s;
    if cl != [] {
      match cl[0] {
        case Otherwise(body) =>
          PreClauses(cl, cs, cs, plan);
          s' := SimList(body, Deeper(cs), plan, sc, s, vars);
        case When(_, _) => s' := SimWhen(cl, cs, plan, sc, s, vars);
      }
    }
  }

  lemma {:induction false} SimWhen(cl: seq<Clause>, cs: CS, plan: Plan, sc: Scope, s: State, vars: Vars)
    returns (s': State)
    requires cl != [] && cl[0].When? && Inv(cs, sc, s, vars) && PreC(cl, cs, plan)
    ensures SimS(LowerClauses(cl, cs, plan), ExecIf(cl, sc, s.out, plan.lenient), cs, s, s', vars)
    decreases cl, 0, 1
  {
    PreClauses(cl, cs, cs, plan);
    var a, er := LowerE(cl[0].cond, false, cs, plan), Eval(cl[0].cond, sc, false, plan.lenient);
    var s1 := SimE(cl[0].cond, false, cs, plan, sc, s, vars);
    s' := s1;
    if er.EOk? {
      PreClauses(cl, cs, a.cs, plan);
      s' := SimArmsOf(cl, a, cs.cond, plan, er.sc, s1, vars);
      ExprThen(a, er, ClauseTail(cl, a, cs.cond, plan), ExecClause(cl, Truthy(er.v), er.sc, s1.out, plan.lenient), cs,
               s,
               s1, s', vars);
    } else {
      ExprThen(a, er, ClauseTail(cl, a, cs.cond, plan), XFail(er.err, s.out), cs, s, s1, s', vars);
    }
  }

  function ClauseTail(cl: seq<Clause>, a: LE, cond: nat, plan: Plan): LS
    requires cl != [] && cl[0].When? && a.cs.frames.Frames?
  {
    var b := LowerList(cl[0].body, Deeper(a.cs), plan);
    var rest := LowerClauses(cl[1..], b.cs, plan);
    LS([Branch(CTruthy(a.g), b.code, rest.code)], Shallower(rest.cs, cond))
  }

  ghost function ExecClause(cl: seq<Clause>, taken: bool, sc: Scope, out: string, lenient: bool): ExecR
    requires cl != [] && cl[0].When? && sc.Scope?
  {
    if taken then ExecList(cl[0].body, sc, out, lenient) else ExecIf(cl[1..], sc, out, lenient)
  }

  // The guarded arm or the later clauses.
  lemma {:induction false} SimArmsOf(cl: seq<Clause>, a: LE, cond: nat, plan: Plan, sc: Scope, s: State,
                                     vars: Vars) returns (s': State)
    requires cl != [] && cl[0].When? && Inv(a.cs, sc, s, vars)
    requires PreL(cl[0].body, a.cs, plan) && PreC(cl[1..], a.cs, plan)
    ensures SimS(ClauseTail(cl, a, cond, plan), ExecClause(cl, Truthy(GVal(a.g, s, vars)), sc, s.out, plan.lenient),
                 a.cs, s, s', vars)
    decreases cl, 0, 0, 2
  {
    if Truthy(GVal(a.g, s, vars)) { s' := SimThen(cl, a, cond, plan, sc, s, vars); }
    else { s' := SimElse(cl, a, cond, plan, sc, s, vars); }
  }

  lemma {:induction false} SimThen(cl: seq<Clause>, a: LE, cond: nat, plan: Plan, sc: Scope, s: State, vars: Vars)
    returns (s': State)
    requires cl != [] && cl[0].When? && Inv(a.cs, sc, s, vars) && Truthy(GVal(a.g, s, vars))
    requires PreL(cl[0].body, a.cs, plan)
    ensures SimS(ClauseTail(cl, a, cond, plan), ExecList(cl[0].body, sc, s.out, plan.lenient), a.cs, s, s', vars)
    decreases cl, 0, 0, 0
  {
    var start := Deeper(a.cs);
    var b := LowerList(cl[0].body, start, plan);
    s' := SimList(cl[0].body, start, plan, sc, s, vars);
    SimTaken(CTruthy(a.g), b, ExecList(cl[0].body, sc, s.out, plan.lenient), LowerClauses(cl[1..], b.cs, plan).code,
             LowerClauses(cl[1..], b.cs, plan).cs, cond, start, s, s', vars);
  }

  lemma {:induction false} SimElse(cl: seq<Clause>, a: LE, cond: nat, plan: Plan, sc: Scope, s: State, vars: Vars)
    returns (s': State)
    requires cl != [] && cl[0].When? && Inv(a.cs, sc, s, vars) && !Truthy(GVal(a.g, s, vars))
    requires PreC(cl[1..], a.cs, plan)
    ensures SimS(ClauseTail(cl, a, cond, plan), ExecIf(cl[1..], sc, s.out, plan.lenient), a.cs, s, s', vars)
    decreases cl, 0, 0, 1
  {
    var b := LowerList(cl[0].body, Deeper(a.cs), plan);
    s' := SimLater(cl, a, b.cs, plan, sc, s, vars);
    SimRefused(CTruthy(a.g), b.code, LowerClauses(cl[1..], b.cs, plan), ExecIf(cl[1..], sc, s.out, plan.lenient),
               cond, b.cs, s, s', vars);
  }

  // The later clauses, lowered after the arm they follow.
  lemma {:induction false} SimLater(cl: seq<Clause>, a: LE, mid: CS, plan: Plan, sc: Scope, s: State, vars: Vars)
    returns (s': State)
    requires cl != [] && Inv(a.cs, sc, s, vars) && PreC(cl[1..], a.cs, plan) && Evolves(Deeper(a.cs), mid)
    ensures SimS(LowerClauses(cl[1..], mid, plan), ExecIf(cl[1..], sc, s.out, plan.lenient), mid, s, s', vars)
    decreases cl, 0, 0, 0
  {
    InvLater(Deeper(a.cs), mid, sc, s, vars);
    ShapeEvolves(Deeper(a.cs), mid);
    s' := SimClauses(cl[1..], mid, plan, sc, s, vars);
  }

  // An expression whose value is spilled.
  lemma SimSpilled(e: Expr, cs: CS, plan: Plan, sc: Scope, s: State, vars: Vars) returns (head: LE, er: EvalR,
      s': State)
    requires Inv(cs, sc, s, vars) && Pre(e, cs, plan)
    ensures var a := LowerE(e, false, cs, plan); var p := Spill(a.g, a.cs);
      head == LE(a.code + p.code, p.g, p.cs)
    ensures er == Eval(e, sc, false, plan.lenient) && (er.EOk? ==> er.sc.Scope? && Spilled(head.g))
    ensures Evolves(cs, head.cs) && SimR(head, er, cs, s, s', vars)
  {
    er := Eval(e, sc, false, plan.lenient);
    var a := LowerE(e, false, cs, plan);
    var s1 := SimE(e, false, cs, plan, sc, s, vars);
    s' := SimSpill(a, er, cs, s, s1, vars);
    head := LE(a.code + Spill(a.g, a.cs).code, Spill(a.g, a.cs).g, Spill(a.g, a.cs).cs);
  }

  lemma {:induction false} SimWith(st: Stmt, cs: CS, plan: Plan, sc: Scope, s: State, vars: Vars) returns (s': State)
    requires st.With? && Inv(cs, sc, s, vars) && PreS(st, cs, plan)
    ensures SimS(LowerS(st, cs, plan), Exec(st, sc, s.out, plan.lenient), cs, s, s', vars)
    decreases st, 8
  {
    var head, er, s2 := SimSpilled(st.m, cs, plan, sc, s, vars);
    var b := WithParts(st, head, er, cs, plan, sc, s.out);
    s' := s2;
    if er.EOk? {
      s' := SimWithIn(st, head, cs, plan, er.sc, s2, vars);
      ExprThen(head, er, b, ExecWith(st.body, st.only, er.v, er.sc, s2.out, plan.lenient), cs, s, s2, s', vars);
    } else {
      ExprThen(head, er, b, XFail(er.err, s.out), cs, s, s2, s', vars);
    }
  }

  // The code and the execution of a with, by its map.
  lemma WithParts(st: Stmt, head: LE, er: EvalR, cs: CS, plan: Plan, sc: Scope, out: string) returns (b: LS)
    requires st.With? && cs.frames.Frames? && sc.Scope? && er == Eval(st.m, sc, false, plan.lenient)
    requires var a := LowerE(st.m, false, cs, plan); var p := Spill(a.g, a.cs); head == LE(a.code + p.code, p.g, p.cs)
    ensures head.cs.frames.Frames?
    ensures b == LowerWithBody(st.body, WithFrame(st.body, st.only, head.g, head.cs), head.cs, plan)
    ensures LowerS(st, cs, plan) == LS(head.code + b.code, b.cs)
    ensures Exec(st, sc, out, plan.lenient)
         == if er.EFail? then XFail(er.err, out) else ExecWith(st.body, st.only, er.v, er.sc, out, plan.lenient)
  {
    b := LowerWithBody(st.body, WithFrame(st.body, st.only, head.g, head.cs), head.cs, plan);
  }

  lemma {:induction false} SimWithIn(st: Stmt, head: LE, cs: CS, plan: Plan, sc: Scope, s: State, vars: Vars)
    returns (s': State)
    requires st.With? && PreS(st, cs, plan) && Evolves(cs, head.cs) && Inv(head.cs, sc, s, vars)
    requires Spilled(head.g) && Within(head.g, head.cs.tmpN)
    ensures SimS(LowerWithBody(st.body, WithFrame(st.body, st.only, head.g, head.cs), head.cs, plan),
                 ExecWith(st.body, st.only, GVal(head.g, s, vars), sc, s.out, plan.lenient), head.cs, s, s', vars)
    decreases st, 7
  {
    ShapeEvolves(cs, head.cs);
    WithFrameFacts(st.body, st.only, head.g, head.cs);
    s' := SimWithBody(st.body, st.only, WithFrame(st.body, st.only, head.g, head.cs), head.cs, plan, sc, s, vars);
  }

  ghost function ExecWith(body: seq<Stmt>, only: bool, v: Value, sc: Scope, out: string, lenient: bool): ExecR {
    var r := ExecList(body, WithScope(sc, only, WithEntries(v)), out, lenient);
    if r.XFail? then r else XOk(sc, r.out)
  }

  lemma WithFrameFacts(body: seq<Stmt>, only: bool, g: GExpr, cs: CS)
    ensures var f := WithFrame(body, only, g, cs);
      && f.id == cs.frameN + 1 && f.kind == (if only then KOnly else KWith)
      && f.definite == {} && f.loop.NoLoop? && f.withG == g
      && Scanned(ListBinds(body), f.order)
      && ShapeOf(f) == ShapeFrame(if only then KOnly else KWith, "loop" in BindNames(body), None)
  {
    AddNamesAll([], ListBinds(body));
    AddNamesAll([], BindNames(body));
  }

  lemma {:induction false} SimWithBody(body: seq<Stmt>, only: bool, f: CFrame, cs: CS, plan: Plan, sc: Scope, s: State,
                                       vars: Vars)
    returns (s': State)
    requires Inv(cs, sc, s, vars) && f.id == cs.frameN + 1 && f.kind == (if only then KOnly else KWith)
    requires f.definite == {} && f.loop.NoLoop? && Spilled(f.withG) && Within(f.withG, cs.tmpN)
    requires SafeL(body, Frames(ShapeOf(f), Shape(cs.frames)), plan) && Scanned(ListBinds(body), f.order)
    ensures SimS(LowerWithBody(body, f, cs, plan),
                 ExecWith(body, only, GVal(f.withG, s, vars), sc, s.out, plan.lenient), cs, s, s', vars)
    decreases body, 1
  {
    var inner := CS(Frames(f, cs.frames), cs.tmpN, f.id, 0);
    var scope := WithScope(sc, only, WithEntries(GVal(f.withG, s, vars)));
    PushWith(cs, f, only, sc, s, vars);
    s' := SimList(body, inner, plan, scope, Declared(s, f.id), vars);
    SimPushed(f, LowerList(body, inner, plan), ExecList(body, scope, s.out, plan.lenient), cs, sc, s, s', vars);
  }

  // ----- loops -----

  lemma {:induction false} SimFor(st: Stmt, cs: CS, plan: Plan, sc: Scope, s: State, vars: Vars) returns (s': State)
    requires st.For? && Inv(cs, sc, s, vars) && PreS(st, cs, plan)
    ensures SimS(LowerS(st, cs, plan), Exec(st, sc, s.out, plan.lenient), cs, s, s', vars)
    decreases st, 8
  {
    var a, er := LowerE(st.iter, false, cs, plan), Eval(st.iter, sc, false, plan.lenient);
    ForPre(st, cs, plan);
    var s1 := SimE(st.iter, false, cs, plan, sc, s, vars);
    s' := s1;
    if er.EOk? {
      PreForLater(st, cs, a.cs, plan);
      var tail, x;
      tail, x, s' := SimForTail(st, a.g, er.v, a.cs, plan, er.sc, s1, vars);
      ExprThen(a, er, tail, x, cs, s, s1, s', vars);
    } else {
      ExprThen(a, er, ForTail(st, a.g, a.cs, plan), XFail(er.err, s.out), cs, s, s1, s', vars);
    }
    ForParts(st, cs, plan, sc, s.out);
  }

  // A for lowered and interpreted: the iterable, then the traversal.
  lemma ForParts(st: Stmt, cs: CS, plan: Plan, sc: Scope, out: string)
    requires st.For? && cs.frames.Frames? && sc.Scope?
    ensures var a := LowerE(st.iter, false, cs, plan); var tail := ForTail(st, a.g, a.cs, plan);
      LowerS(st, cs, plan) == LS(a.code + tail.code, tail.cs)
    ensures var er := Eval(st.iter, sc, false, plan.lenient);
      Exec(st, sc, out, plan.lenient)
      == if er.EFail? then XFail(er.err, out) else ExecFor(st, er.v, er.sc, out, plan.lenient)
  {
  }

  // What a for needs of the state its parts after the iterand are lowered in.
  ghost predicate PreFor(st: Stmt, cs: CS, plan: Plan) {
    && st.For? && cs.frames.Frames?
    && (st.filter.Some? ==>
          SafeE(st.filter.value, Frames(ShapeFrame(KFilter, FilterBindsLoop(st.t1, st.t2, st.filter.value), None),
                                        Shape(cs.frames)), plan))
    && PreL(st.els, cs, plan)
    && PreBody(st, cs, plan)
  }

  ghost predicate PreBody(st: Stmt, cs: CS, plan: Plan)
    requires st.For? && cs.frames.Frames?
  {
    var lf := Frames(ShapeFrame(KLoop, true, Some((st.id, st.id in plan.inline))), Shape(cs.frames));
    && (st.id !in plan.inline ==> LoopClear(cs.frames))
    && Bindable(lf, st.t1) && (st.t2.Some? ==> Bindable(lf, st.t2.value)) && SafeL(st.body, lf, plan)
    && Scanned(Rebound(st), Top(cs).order)
  }

  lemma ForPre(st: Stmt, cs: CS, plan: Plan)
    requires st.For? && PreS(st, cs, plan)
    ensures Pre(st.iter, cs, plan) && PreFor(st, cs, plan)
  {
    ClearShape(cs.frames);
    assert StmtBinds(st) == ExprBinds(st.iter) + Rebound(st) + ListBinds(st.els);
  }

  lemma PreForLater(st: Stmt, a: CS, b: CS, plan: Plan)
    requires PreFor(st, a, plan) && Evolves(a, b)
    ensures PreFor(st, b, plan)
  {
    ShapeEvolves(a, b);
    ClearShape(a.frames);
    ClearShape(b.frames);
  }

  function ForTail(st: Stmt, g: GExpr, cs: CS, plan: Plan): LS
    requires st.For? && cs.frames.Frames?
  {
    var r := ForRest(st, cs, plan);
    LS([CallTraverse(cs.tmpN, g, plan.lenient)] + r.code, r.cs)
  }

  // The filter and the arms, over the pairs in the next temporary.
  function ForRest(st: Stmt, cs: CS, plan: Plan): LS
    requires st.For? && cs.frames.Frames?
  {
    var fl := LowerPairs(st, cs.tmpN, Fresh(cs, 1), plan);
    var arms := LowerArms(st, cs.tmpN, fl.cs, plan);
    LS(fl.code + arms.code, arms.cs)
  }

  lemma ForOver(st: Stmt, v: Value, sc: Scope, out: string, lenient: bool)
    requires st.For? && sc.Scope?
    ensures Traverse(v, lenient).Err? ==>
        ExecFor(st, v, sc, out, lenient) == XFail(Traverse(v, lenient).error, out)
    ensures Traverse(v, lenient).Ok? ==>
        ExecFor(st, v, sc, out, lenient)
        == ExecPairs(st, PairsOf(st, Traverse(v, lenient).value, sc, lenient), sc, out, lenient)
  {
  }

  lemma {:induction false} SimForTail(st: Stmt, g: GExpr, v: Value, cs: CS, plan: Plan, sc: Scope, s: State, vars: Vars)
    returns (r: LS, x: ExecR, s': State)
    requires Inv(cs, sc, s, vars) && PreFor(st, cs, plan) && v == GVal(g, s, vars)
    ensures r == ForTail(st, g, cs, plan) && x == ExecFor(st, v, sc, s.out, plan.lenient)
    ensures SimS(r, x, cs, s, s', vars)
    decreases st, 7
  {
    ForOver(st, v, sc, s.out, plan.lenient);
    match Traverse(v, plan.lenient) {
      case Err(e) =>
        s' := s;
        r, x := ForTail(st, g, cs, plan), XFail(e, s.out);
        TraverseFails(g, v, plan.lenient, ForRest(st, cs, plan), e, cs, s, s', vars);
      case Ok(ps) =>
        TraverseOk(g, v, ps, cs, plan.lenient, sc, s, vars);
        r, x, s' := SimTraversed(st, g, ps, cs, plan, sc, s, vars);
    }
  }

  lemma {:induction false} SimTraversed(st: Stmt, g: GExpr, ps: seq<(string, Value)>, cs: CS, plan: Plan, sc: Scope,
                                        s: State, vars: Vars)
    returns (r: LS, x: ExecR, s': State)
    requires cs.frames.Frames? && PreFor(st, cs, plan)
    requires var s1 := PutTmp(s, cs.tmpN, Arr(ps));
      && Run([CallTraverse(cs.tmpN, g, plan.lenient)], s, vars) == ROk(s1)
      && Inv(cs, sc, s1, vars) && Keep(s, s1, cs)
    ensures r == ForTail(st, g, cs, plan) && x == ExecPairs(st, PairsOf(st, ps, sc, plan.lenient), sc, s.out,
                                                            plan.lenient)
    ensures SimS(r, x, cs, s, s', vars)
    decreases st, 6, 1
  {
    var s1 := PutTmp(s, cs.tmpN, Arr(ps));
    var rest;
    rest, x, s' := SimPairsThen(st, ps, cs, plan, sc, s1, vars);
    CodeThen([CallTraverse(cs.tmpN, g, plan.lenient)], cs, s1, rest, x, cs, s, s', vars);
    r := LS([CallTraverse(cs.tmpN, g, plan.lenient)] + rest.code, rest.cs);
  }

  lemma TraverseFails(g: GExpr, v: Value, lenient: bool, rest: LS, e: Error, cs: CS, s: State, s': State, vars: Vars)
    requires cs.frames.Frames? && v == GVal(g, s, vars) && Traverse(v, lenient) == Err(e)
    ensures SimS(LS([CallTraverse(cs.tmpN, g, lenient)] + rest.code, rest.cs), XFail(e, s.out), cs, s, s', vars)
  {
    RunOne(CallTraverse(cs.tmpN, g, lenient), s, vars);
    RunAppend([CallTraverse(cs.tmpN, g, lenient)], rest.code, s, vars);
  }

  lemma TraverseOk(g: GExpr, v: Value, ps: seq<(string, Value)>, cs: CS, lenient: bool, sc: Scope, s: State, vars: Vars)
    requires Inv(cs, sc, s, vars) && v == GVal(g, s, vars) && Traverse(v, lenient) == Ok(ps)
    ensures var s1 := PutTmp(s, cs.tmpN, Arr(ps));
      && Run([CallTraverse(cs.tmpN, g, lenient)], s, vars) == ROk(s1)
      && Inv(cs, sc, s1, vars) && Keep(s, s1, cs)
  {
    RunOne(CallTraverse(cs.tmpN, g, lenient), s, vars);
    PutFresh(cs, 0, sc, s, cs.tmpN, Arr(ps), vars);
    assert Fresh(cs, 0) == cs;
  }

  ghost function PairsOf(st: Stmt, ps: seq<(string, Value)>, sc: Scope, lenient: bool): FilterR
    requires st.For? && sc.Scope?
  {
    if st.filter.Some? then FilterPairs(st.filter.value, st.t1, st.t2, ps, Child(sc), [], lenient) else FOk(ps)
  }

  ghost function ExecPairs(st: Stmt, fr: FilterR, sc: Scope, out: string, lenient: bool): ExecR
    requires st.For? && sc.Scope?
  {
    match fr
    case FFail(x) => XFail(x, out)
    case FOk(kept) => ExecArms(st, kept, sc, out, lenient)
  }

  lemma {:induction false} SimPairsThen(st: Stmt, ps: seq<(string, Value)>, cs: CS, plan: Plan, sc: Scope, s: State,
                                        vars: Vars)
    returns (r: LS, x: ExecR, s': State)
    requires Inv(cs, sc, s, vars) && PreFor(st, cs, plan) && Tmp(s, cs.tmpN) == Arr(ps)
    ensures r == ForRest(st, cs, plan) && x == ExecPairs(st, PairsOf(st, ps, sc, plan.lenient), sc, s.out, plan.lenient)
    ensures SimS(r, x, cs, s, s', vars)
    decreases st, 6, 0
  {
    var fl, s1 := SimPairs(st, ps, cs, plan, sc, s, vars);
    var fr := PairsOf(st, ps, sc, plan.lenient);
    var arms := LowerArms(st, cs.tmpN, fl.cs, plan);
    r, x := LS(fl.code + arms.code, arms.cs), ExecPairs(st, fr, sc, s.out, plan.lenient);
    s' := s1;
    if fr.FOk? {
      PreForLater(st, Fresh(cs, 1), fl.cs, plan);
      s' := SimArmsFor(st, cs.tmpN, fr.kept, fl.cs, plan, sc, s1, vars);
      PairsThen(fl, fr, arms, ExecArms(st, fr.kept, sc, s.out, plan.lenient), cs, sc, s, s1, s', vars);
    } else {
      PairsThen(fl, fr, arms, XFail(fr.ferr, s.out), cs, sc, s, s1, s', vars);
    }
  }

  lemma PairsThen(fl: LS, fr: FilterR, arms: LS, xa: ExecR, cs: CS, sc: Scope, s: State, s1: State, s': State,
                  vars: Vars)
    requires cs.frames.Frames? && Evolves(Fresh(cs, 1), fl.cs)
    requires Filtered(Run(fl.code, s, vars), fr, fl.cs, cs.tmpN, sc, s, s1, cs, vars)
    requires if fr.FOk? then SimS(arms, xa, fl.cs, s1, s', vars) else xa == XFail(fr.ferr, s.out)
    ensures SimS(LS(fl.code + arms.code, arms.cs), xa, cs, s, s', vars)
  {
    RunAppend(fl.code, arms.code, s, vars);
    if fr.FOk? && xa.XOk? {
      SameKeep(s, s1, cs);
      KeepTrans(s, s1, s', cs, fl.cs);
    }
  }

  // The pairs of a loop, filtered when it is fused.
  lemma SimPairs(st: Stmt, ps: seq<(string, Value)>, cs: CS, plan: Plan, sc: Scope, s: State,
                 vars: Vars) returns (r: LS, s': State)
    requires Inv(cs, sc, s, vars) && PreFor(st, cs, plan) && Tmp(s, cs.tmpN) == Arr(ps)
    ensures r == LowerPairs(st, cs.tmpN, Fresh(cs, 1), plan)
    ensures Filtered(Run(r.code, s, vars), PairsOf(st, ps, sc, plan.lenient), r.cs, cs.tmpN, sc, s, s', cs, vars)
  {
    var cs1 := Fresh(cs, 1);
    if st.filter.Some? {
      StackWiden(cs.frames, cs.tmpN, cs.frameN, cs1.tmpN, cs1.frameN);
      FilterFrameSite(st.filter.value, st.t1, st.t2, cs.tmpN, cs1, plan);
      r, s' := SimFilter(FilterFrame(st.filter.value, st.t1, st.t2, cs1), st.filter.value, st.t1, st.t2, ps, cs, cs1,
                         plan, sc, s, vars);
    } else {
      r, s' := LS([], cs1), s;
      PopInv(cs, sc, s, s, cs1.tmpN, cs1.frameN, cs1.cond, vars);
    }
  }

  // The arms of a for over its surviving pairs.
  lemma {:induction false} SimArmsFor(st: Stmt, p: nat, ps: seq<(string, Value)>, cs: CS, plan: Plan, sc: Scope,
                                      s: State, vars: Vars)
    returns (s': State)
    requires Inv(cs, sc, s, vars) && PreFor(st, cs, plan) && Tmp(s, p) == Arr(ps) && p < cs.tmpN
    ensures SimS(LowerArms(st, p, cs, plan), ExecArms(st, ps, sc, s.out, plan.lenient), cs, s, s', vars)
    decreases st, 5
  {
    var e := LowerList(st.els, Deeper(cs), plan);
    var mid := Shallower(e.cs, cs.cond);
    var b := LowerBody(st, p, mid, plan);
    if ps == [] {
      s' := SimList(st.els, Deeper(cs), plan, sc, s, vars);
      EmptyArm(st, p, e, b.code, mid, ExecList(st.els, sc, s.out, plan.lenient), cs, plan, s, s', vars);
    } else {
      var r, x;
      r, x, s' := SimFull(st, p, ps, e, cs, plan, sc, s, vars);
    }
  }

  lemma {:induction false} SimFull(st: Stmt, p: nat, ps: seq<(string, Value)>, e: LS, cs: CS, plan: Plan, sc: Scope,
                                   s: State, vars: Vars)
    returns (b: LS, x: ExecR, s': State)
    requires Inv(cs, sc, s, vars) && PreFor(st, cs, plan) && Tmp(s, p) == Arr(ps) && p < cs.tmpN && ps != []
    requires Evolves(Deeper(cs), e.cs)
    ensures b == LowerBody(st, p, Shallower(e.cs, cs.cond), plan) && x == ExecLoop(st, ps, sc, s.out, plan.lenient)
    ensures SimS(LS([Branch(CEmpty(p), e.code, b.code)], b.cs), x, cs, s, s', vars)
    decreases st, 4, 1
  {
    var mid := Shallower(e.cs, cs.cond);
    InvLater(cs, mid, sc, s, vars);
    PreForLater(st, cs, mid, plan);
    b, x, s' := SimBody(st, p, ps, mid, plan, sc, s, vars);
    FullArm(b, x, p, ps, e, cs, s, s', vars);
  }

  lemma FullArm(b: LS, x: ExecR, p: nat, ps: seq<(string, Value)>, e: LS, cs: CS, s: State, s': State, vars: Vars)
    requires cs.frames.Frames? && Evolves(Deeper(cs), e.cs) && Tmp(s, p) == Arr(ps) && ps != []
    requires SimS(b, x, Shallower(e.cs, cs.cond), s, s', vars)
    ensures SimS(LS([Branch(CEmpty(p), e.code, b.code)], b.cs), x, cs, s, s', vars)
  {
    RunOne(Branch(CEmpty(p), e.code, b.code), s, vars);
  }

  lemma EmptyArm(st: Stmt, p: nat, e: LS, code: Code, mid: CS, xe: ExecR, cs: CS, plan: Plan, s: State, s': State,
                 vars: Vars)
    requires st.For? && cs.frames.Frames? && Evolves(Deeper(cs), e.cs) && mid == Shallower(e.cs, cs.cond)
    requires SimS(e, xe, Deeper(cs), s, s', vars) && Tmp(s, p) == Arr([])
    ensures SimS(LS([Branch(CEmpty(p), e.code, code)], LowerBody(st, p, mid, plan).cs), xe, cs, s, s', vars)
  {
    RunOne(Branch(CEmpty(p), e.code, code), s, vars);
    if xe.XOk? {
      BodyDefinite(st, p, mid, plan);
      InvLater(mid, LowerBody(st, p, mid, plan).cs, xe.sc, s', vars);
    }
  }

  // A loop body determines nothing of the frame the loop stands in.
  lemma BodyDefinite(st: Stmt, p: nat, cs: CS, plan: Plan)
    requires st.For? && cs.frames.Frames?
    ensures Top(LowerBody(st, p, cs, plan).cs).definite == Top(cs).definite
  {
    var par := LowerParent(st.id in plan.inline, cs);
    var f := LoopFrame(st, p, ParentTmp(st.id in plan.inline, cs), par.cs, plan);
    var b := LowerIter(st, f, par.cs.frames, plan);
    CopyBackDefinite(Rebound(st), Top(b.cs), CS(b.cs.frames.below, b.cs.tmpN, b.cs.frameN, cs.cond));
  }

  lemma {:induction false} SimBody(st: Stmt, p: nat, ps: seq<(string, Value)>, cs: CS, plan: Plan, sc: Scope, s: State,
                                   vars: Vars)
    returns (r: LS, x: ExecR, s': State)
    requires Inv(cs, sc, s, vars) && PreFor(st, cs, plan) && Tmp(s, p) == Arr(ps) && p < cs.tmpN && ps != []
    ensures r == LowerBody(st, p, cs, plan) && x == ExecLoop(st, ps, sc, s.out, plan.lenient)
    ensures SimS(r, x, cs, s, s', vars)
    decreases st, 4, 0
  {
    var inline := st.id in plan.inline;
    var par := LowerParent(inline, cs);
    var s1 := RunParent(inline, cs, sc, s, vars);
    KeepTmps(s, s1, cs);
    LoopFrameSite(st, p, ParentTmp(inline, cs), par.cs, plan);
    var l;
    l, x, s' := SimLoop(st, LoopFrame(st, p, ParentTmp(inline, cs), par.cs, plan), ps, par.cs, plan, sc, s1, vars);
    CodeThen(par.code, par.cs, s1, l, x, cs, s, s', vars);
    r := LS(par.code + l.code, l.cs);
  }

  // What the copy-back needs of the loop frame's names.
  ghost predicate CopySite(st: Stmt, f: CFrame, cs: CS)
    requires st.For? && cs.frames.Frames?
  {
    && NoDup(Rebound(st))
    && (forall x :: x in Rebound(st) ==> x in Top(cs).order && x in f.order && x !in LoopControls(st.t1, st.t2))
    && (forall x :: x in f.order ==> x in Rebound(st) || x in LoopControls(st.t1, st.t2))
  }

  lemma {:induction false} WithoutFacts(names: seq<string>, bound: set<string>)
    requires NoDup(names)
    ensures NoDup(Without(names, bound))
    ensures forall x :: x in Without(names, bound) <==> x in names && x !in bound
  {
    if names != [] {
      var rest := names[1..];
      assert names == [names[0]] + rest;
      assert NoDup(rest) by { forall i, j | 0 <= i < j < |rest| ensures rest[i] != rest[j] {
          assert names[i + 1] != names[j + 1]; } }
      assert names[0] !in rest by { forall j | 0 <= j < |rest| ensures rest[j] != names[0] {
          assert names[j + 1] != names[0]; } }
      WithoutFacts(rest, bound);
    }
  }

  // The frame a for pushes is a loop site.
  lemma LoopFrameSite(st: Stmt, p: nat, par: nat, cs: CS, plan: Plan)
    requires cs.frames.Frames? && StackOK(cs.frames, cs.tmpN, cs.frameN) && PreFor(st, cs, plan) && p < cs.tmpN
        && par < cs.tmpN
    ensures var f := LoopFrame(st, p, par, cs, plan);
      LoopSite(st, f, cs, plan) && CopySite(st, f, cs) && f.loop.parT == par && f.loop.pT == p
  {
    var f := LoopFrame(st, p, par, cs, plan);
    LoopFrameNames(st, f);
    assert ShapeOf(f) == ShapeFrame(KLoop, true, Some((st.id, st.id in plan.inline)));
  }

  lemma LoopFrameNames(st: Stmt, f: CFrame)
    requires st.For? && f.order == AddNames([], TargetNames(st.t1, st.t2) + ["loop"] + BindNames(st.body))
    ensures forall x :: x in f.order <==> x in Rebound(st) || x in LoopControls(st.t1, st.t2)
    ensures NoDup(Rebound(st)) && (forall x :: x in Rebound(st) ==> x !in LoopControls(st.t1, st.t2))
    ensures Scanned(ListBinds(st.body), f.order)
  {
    AddNamesAll([], ListBinds(st.body));
    AddNamesAll([], TargetNames(st.t1, st.t2) + ["loop"] + BindNames(st.body));
    AddNamesNoDup([], ListBinds(st.body));
    WithoutFacts(BindNames(st.body), LoopControls(st.t1, st.t2));
  }

  ghost function ExecLoop(st: Stmt, ps: seq<(string, Value)>, sc: Scope, out: string, lenient: bool): ExecR
    requires st.For? && sc.Scope?
  {
    LoopExit(st, sc, ExecIter(st.body, st.t1, st.t2, ps, 0, Get(sc, "loop").GetOr(Null), Child(sc), out, lenient))
  }

  ghost function LoopExit(st: Stmt, sc: Scope, xr: ExecR): ExecR
    requires st.For? && sc.Scope? && (xr.XOk? ==> xr.sc.Scope?)
  {
    match xr
    case XFail(x, o) => XFail(x, o)
    case XOk(lc, o) => XOk(CopyBack(Names(sc), LoopControls(st.t1, st.t2), lc.entries, sc), o)
  }

  lemma {:induction false} SimLoop(st: Stmt, f: CFrame, ps: seq<(string, Value)>, cs: CS, plan: Plan, sc: Scope,
                                   s: State, vars: Vars)
    returns (l: LS, x: ExecR, s': State)
    requires LoopSite(st, f, cs, plan) && CopySite(st, f, cs) && Inv(cs, sc, s, vars)
    requires Tmp(s, f.loop.pT) == Arr(ps) && Tmp(s, f.loop.parT) == Get(sc, "loop").GetOr(Null)
    ensures l == LowerLoop(st, f, cs, plan) && x == ExecLoop(st, ps, sc, s.out, plan.lenient)
    ensures SimS(l, x, cs, s, s', vars)
    decreases st, 3
  {
    var parent := Get(sc, "loop").GetOr(Null);
    var s1 := Declared(s, f.id);
    DeclaredSame(s, cs);
    PushLoop(cs, f, cs.tmpN + 1, sc, s, vars);
    var b := LowerIter(st, f, cs.frames, plan);
    var xr := ExecIter(st.body, st.t1, st.t2, ps, 0, parent, Child(sc), s.out, plan.lenient);
    var s2 := SimIters(st, f, ps, 0, parent, cs, plan, Child(sc), s1, b.code, vars);
    s' := SimExit(st, f, ps, parent, b, xr, cs, sc, s, s2, vars);
    l, x := LowerLoop(st, f, cs, plan), ExecLoop(st, ps, sc, s.out, plan.lenient);
  }

  lemma RunLoop(id: nat, i: nat, p: nat, code: Code, c: Code, ps: seq<(string, Value)>, s: State, vars: Vars)
    requires Tmp(s, p) == Arr(ps)
    ensures Run([Declare(id), Range(i, p, code)] + c, s, vars)
        == Then(RunRange(i, p, code, |ps|, 0, Declared(s, id), vars), c, vars)
  {
    RunAppend([Declare(id), Range(i, p, code)], c, s, vars);
    RunTwo(Declare(id), Range(i, p, code), s, vars);
  }

  // The exit of a loop whose iterations were simulated.
  lemma SimExit(st: Stmt, f: CFrame, ps: seq<(string, Value)>, parent: Value, b: LS, xr: ExecR, cs: CS, sc: Scope,
                s: State,
                s2: State, vars: Vars) returns (s': State)
    requires st.For? && Inv(cs, sc, s, vars) && CopySite(st, f, cs) && f.kind == KLoop && f.loop.LoopInfo?
        && f.id == cs.frameN + 1
    requires Tmp(s, f.loop.pT) == Arr(ps) && Evolves(IterCS(f, cs), b.cs) && f.loop.iT == cs.tmpN
    requires Iterated(RunRange(f.loop.iT, f.loop.pT, b.code, |ps|, 0, Declared(s, f.id), vars), xr, f, ps, parent, cs,
                      Declared(s, f.id), s2, vars)
    requires xr.XOk? ==> xr.sc.Scope? && xr.sc.parent == sc
    ensures var c := CopyBackCode(Rebound(st), Top(b.cs), CS(cs.frames, b.cs.tmpN, b.cs.frameN, cs.cond));
      SimS(LS([Declare(f.id), Range(f.loop.iT, f.loop.pT, b.code)] + c.code, c.cs), LoopExit(st, sc, xr), cs, s, s',
           vars)
  {
    var out := CS(cs.frames, b.cs.tmpN, b.cs.frameN, cs.cond);
    var c := CopyBackCode(Rebound(st), Top(b.cs), out);
    RunLoop(f.id, f.loop.iT, f.loop.pT, b.code, c.code, ps, s, vars);
    s' := s2;
    if xr.XOk? {
      DeclaredSame(s, cs);
      SameTrans(s, Declared(s, f.id), s2, cs.tmpN, cs.frameN);
      PopInv(cs, sc, s, s2, b.cs.tmpN, b.cs.frameN, cs.cond, vars);
      s' := SimCopyBack(st, f, Top(b.cs), xr.sc, out, sc, s2, vars);
      SameKeep(s, s2, cs);
      KeepTrans(s, s2, s', cs, out);
    }
  }

  // Copying back the rebound names reaches a scope that agrees with the interpreter's.
  lemma SimCopyBack(st: Stmt, f: CFrame, lf: CFrame, lc: Scope, cs: CS, sc: Scope, s: State,
                    vars: Vars) returns (s': State)
    requires st.For? && Inv(cs, sc, s, vars) && CopySite(st, f, cs) && f.kind == KLoop && f.id > Top(cs).id
    requires lf.id == f.id && lf.order == f.order
    requires Agree(lc, Frames(f, cs.frames), s, vars, {"loop"}) && lc.parent == sc
    ensures var c := CopyBackCode(Rebound(st), lf, cs);
      && Run(c.code, s, vars) == ROk(s') && Keep(s, s', cs) && s'.out == s.out
      && Inv(c.cs, CopyBack(Names(sc), LoopControls(st.t1, st.t2), lc.entries, sc), s', vars)
  {
    var names := Rebound(st);
    LoopPending(names, f, lf, lc, cs, sc, s, vars);
    s' := RunCopyBack(names, lf, cs, lc, sc, s, vars);
    LoopUntouched(st, f, lc, cs, sc, s, vars);
    CopySame(names, LoopControls(st.t1, st.t2), lc, sc);
    AgreeSame(CopyListed(names, lc, sc), CopyBack(Names(sc), LoopControls(st.t1, st.t2), lc.entries, sc),
              CopyBackCode(names, lf, cs).cs.frames, s', vars, {});
  }

  lemma LoopPending(names: seq<string>, f: CFrame, lf: CFrame, lc: Scope, cs: CS, sc: Scope, s: State, vars: Vars)
    requires Inv(cs, sc, s, vars) && f.kind == KLoop && lf.id == f.id && lf.order == f.order
    requires Agree(lc, Frames(f, cs.frames), s, vars, {"loop"})
    requires forall x :: x in names ==> x in f.order && x != "loop"
    ensures Pending(names, lf, lc, sc, s)
  {
    forall x | x in names
      ensures Get(lc, x) == if x in LocalsOf(s, lf.id).flags then Some(VarVal(s, x, lf.id)) else Get(sc, x)
    {
      InvGet(cs, sc, s, vars, x);
      assert CGet(Frames(f, cs.frames), s, vars, x) == Get(lc, x);
    }
  }

  // A name the loop frame has no local for reads through it.
  lemma LoopUntouched(st: Stmt, f: CFrame, lc: Scope, cs: CS, sc: Scope, s: State, vars: Vars)
    requires st.For? && Inv(cs, sc, s, vars) && CopySite(st, f, cs) && f.kind == KLoop
    requires Agree(lc, Frames(f, cs.frames), s, vars, {"loop"})
    ensures forall x :: x !in Rebound(st) && x !in LoopControls(st.t1, st.t2) ==> Get(lc, x) == Get(sc, x)
  {
    forall x | x !in Rebound(st) && x !in LoopControls(st.t1, st.t2) ensures Get(lc, x) == Get(sc, x) {
      InvGet(cs, sc, s, vars, x);
      assert CGet(Frames(f, cs.frames), s, vars, x) == CGet(cs.frames, s, vars, x);
    }
  }

  lemma {:induction false} SimIters(st: Stmt, f: CFrame, ps: seq<(string, Value)>, k: nat, parent: Value, cs: CS,
                                    plan: Plan,
                                    lc: Scope, s: State, code: Code, vars: Vars) returns (s': State)
    requires LoopSite(st, f, cs, plan) && Iterating(f, ps, parent, cs, lc, s, vars) && k <= |ps|
    requires code == LowerIter(st, f, cs.frames, plan).code
    ensures Iterated(RunRange(f.loop.iT, f.loop.pT, code, |ps|, k, s, vars),
                     ExecIter(st.body, st.t1, st.t2, ps, k, parent, lc, s.out, plan.lenient), f, ps, parent, cs, s, s',
                         vars)
    decreases st, 2, |ps| - k
  {
    if k == |ps| {
      s' := s;
      SimDone(st, f, ps, parent, cs, plan.lenient, lc, s, code, vars);
    } else {
      var s1, xr := SimOnce(st, f, ps, k, parent, cs, plan, lc, s, vars);
      s' := s1;
      if xr.XOk? {
        IterNext(Run(code, PutTmp(s, f.loop.iT, Int(k)), vars), xr, f, ps, parent, cs, s, s1, vars);
        s' := SimIters(st, f, ps, k + 1, parent, cs, plan, xr.sc, s1, code, vars);
      }
      SimRange(st, code, f, ps, parent, k, cs, lc, plan.lenient, s, s1, s', s.out, vars);
    }
  }

  // No iteration left.
  lemma SimDone(st: Stmt, f: CFrame, ps: seq<(string, Value)>, parent: Value, cs: CS, lenient: bool, lc: Scope,
                s: State, code: Code, vars: Vars)
    requires st.For? && cs.frames.Frames? && lc.Scope? && Iterating(f, ps, parent, cs, lc, s, vars)
    ensures Iterated(RunRange(f.loop.iT, f.loop.pT, code, |ps|, |ps|, s, vars),
                     ExecIter(st.body, st.t1, st.t2, ps, |ps|, parent, lc, s.out, lenient), f, ps, parent, cs, s, s,
                     vars)
  {
  }

  lemma IterNext(r: RunR, xr: ExecR, f: CFrame, ps: seq<(string, Value)>, parent: Value, cs: CS, s: State, s1: State,
                 vars: Vars)
    requires xr.XOk? && Iterated(r, xr, f, ps, parent, cs, s, s1, vars)
    ensures Iterating(f, ps, parent, cs, xr.sc, s1, vars) && s1.out == xr.out && xr.sc.Scope?
  {
  }

  lemma {:induction false} SimOnce(st: Stmt, f: CFrame, ps: seq<(string, Value)>, k: nat, parent: Value, cs: CS,
                                   plan: Plan,
                                   lc: Scope, s: State, vars: Vars) returns (s': State, xr: ExecR)
    requires LoopSite(st, f, cs, plan) && Iterating(f, ps, parent, cs, lc, s, vars) && k < |ps|
    ensures xr == ExecList(st.body, IterScope(st, ps, k, parent, lc), s.out, plan.lenient)
    ensures Iterated(Run(LowerIter(st, f, cs.frames, plan).code, PutTmp(s, f.loop.iT, Int(k)), vars), xr, f, ps,
                     parent, cs, s, s', vars)
    decreases st, 1
  {
    var s1, t, l := RunHead(st, f, ps, k, parent, cs, lc, s, vars);
    PreListLater(st.body, IterCS(f, cs), l.cs, plan);
    s' := SimList(st.body, l.cs, plan, IterScope(st, ps, k, parent, lc), s1, vars);
    xr := ExecList(st.body, IterScope(st, ps, k, parent, lc), s.out, plan.lenient);
    var b := LowerList(st.body, l.cs, plan);
    IterCode(st, f, cs, plan, t, l);
    SimIteration(f, ps, parent, k, t.code + l.code, l.cs, b, xr, cs, s, s1, s', vars);
  }

  lemma IterCode(st: Stmt, f: CFrame, cs: CS, plan: Plan, t: LS, l: LS)
    requires st.For? && f.loop.LoopInfo?
    requires t == LowerTargets(st.t1, st.t2, f.loop.pT, f.loop.iT, IterCS(f, cs)) && l == LowerLoopBind(f.loop, t.cs)
    ensures LowerIter(st, f, cs.frames, plan).code == t.code + l.code + LowerList(st.body, l.cs, plan).code
  {
  }
}
