/** The fused filter: the emitted pre-pass keeps the pairs the interpreter keeps. */
module FilterSim {
  import opened Values
  import opened Syntax
  import opened Scopes
  import opened Interp
  import opened Scan
  import opened Target
  import opened Lowering
  import opened Agreement
  import opened Resolution
  import opened BindSim
  import opened Safety
  import opened ExprSim
  import opened EvalSim
  import opened LoopSim

  lemma {:induction false} AddNamesAll(names: seq<string>, more: seq<string>)
    ensures forall x :: x in AddNames(names, more) <==> x in names || x in more
  {
    forall x ensures x in AddNames(names, more) <==> x in names || x in more { AddNamesHas(names, more, x); }
  }

  // A filter over the pairs in p, in frame f pushed on cs.
  ghost predicate FilterSite(f: CFrame, cond: Expr, t1: string, t2: Option<string>, p: nat, cs: CS, plan: Plan) {
    && cs.frames.Frames? && StackOK(cs.frames, cs.tmpN, cs.frameN) && p < cs.tmpN
    && SafeE(cond, Shape(Frames(f, cs.frames)), plan) && Scanned(ExprBinds(cond), f.order)
    && f.kind == KFilter && Undetermined(f, cs, cs.tmpN) && Targets(t1, t2, Frames(f, cs.frames))
  }

  function Inner(f: CFrame, cs: CS): CS { CS(Frames(f, cs.frames), cs.tmpN + 2, f.id, 0) }

  // The state of a filter loop with the candidates before some index examined.
  ghost predicate Filtering(f: CFrame, p: nat, ps: seq<(string, Value)>, kept: seq<(string, Value)>, cs: CS, lc: Scope,
                            s: State, vars: Vars) {
    lc.Scope? && Tracks(lc, Frames(f, cs.frames), s, vars, {}) && Tmp(s, p) == Arr(ps) && Tmp(s, cs.tmpN) == Arr(kept)
  }

  // The targets of one candidate.
  lemma SimBinds(f: CFrame, t1: string, t2: Option<string>, p: nat, ps: seq<(string, Value)>, k: nat, cs: CS, lc: Scope,
                 s: State, vars: Vars) returns (s1: State)
    requires StackOK(Frames(f, cs.frames), cs.tmpN + 2, f.id) && Targets(t1, t2, Frames(f, cs.frames))
    requires Element(p, cs.tmpN + 1, ps, k, s) && Agree(lc, Frames(f, cs.frames), s, vars, {})
    ensures var a := LowerTargets(t1, t2, p, cs.tmpN + 1, Inner(f, cs));
      && Run(a.code, s, vars) == ROk(s1) && Keep(s, s1, Inner(f, cs)) && s1.out == s.out
      && Inv(a.cs, BindTargets(lc, t1, t2, ps[k]), s1, vars)
  {
    var left;
    s1, left := RunTargets(t1, t2, p, cs.tmpN + 1, ps, k, Inner(f, cs), lc, s, vars, {});
    SettledIn(Inner(f, cs), LowerTargets(t1, t2, p, cs.tmpN + 1, Inner(f, cs)).cs, BindTargets(lc, t1, t2, ps[k]), s1,
              vars, left);
  }

  // Agreement with nothing left pending.
  lemma SettledIn(a: CS, b: CS, lc: Scope, s: State, vars: Vars, left: set<string>)
    requires Evolves(a, b) && StackOK(a.frames, a.tmpN, a.frameN) && Agree(lc, b.frames, s, vars, left) && left <= {}
    ensures Inv(b, lc, s, vars)
  {
    assert left == {};
    StackEvolves(a, b);
  }

  // One candidate.
  lemma SimCandidate(f: CFrame, cond: Expr, t1: string, t2: Option<string>, p: nat, ps: seq<(string, Value)>, k: nat,
                     kept: seq<(string, Value)>, cs: CS, plan: Plan, lc: Scope, s: State, vars: Vars)
    returns (s': State)
    requires FilterSite(f, cond, t1, t2, p, cs, plan) && Filtering(f, p, ps, kept, cs, lc, s, vars) && k < |ps|
    ensures var code := LowerCandidate(f, cond, t1, t2, p, cs.tmpN, cs.frames, plan).code;
      Kept(Run(code, PutTmp(s, cs.tmpN + 1, Int(k)), vars), Eval(cond, BindTargets(lc, t1, t2, ps[k]), false,
                                                                 plan.lenient),
           f, p, ps, k, kept, cs, s, s', vars)
  {
    var a, s1 := SimStart(f, t1, t2, p, ps, k, kept, cs, lc, s, vars);
    s' := SimJudge(f, cond, a, p, ps, k, kept, cs, plan, BindTargets(lc, t1, t2, ps[k]), s, s1, vars);
    CandidateCode(f, cond, t1, t2, p, cs, plan);
  }

  lemma CandidateCode(f: CFrame, cond: Expr, t1: string, t2: Option<string>, p: nat, cs: CS, plan: Plan)
    ensures var a := LowerTargets(t1, t2, p, cs.tmpN + 1, Inner(f, cs)); var c := LowerE(cond, false, a.cs, plan);
      LowerCandidate(f, cond, t1, t2, p, cs.tmpN, cs.frames, plan).code == a.code + (c.code + [KeepCode(c, p, cs.tmpN)])
  {
  }

  lemma InnerStack(f: CFrame, cs: CS)
    requires StackOK(cs.frames, cs.tmpN, cs.frameN) && f.kind == KFilter && Undetermined(f, cs, cs.tmpN)
    ensures StackOK(Frames(f, cs.frames), cs.tmpN + 2, f.id)
  {
    StackWiden(cs.frames, cs.tmpN, cs.frameN, cs.tmpN + 2, cs.frameN);
  }

  lemma SimStart(f: CFrame, t1: string, t2: Option<string>, p: nat, ps: seq<(string, Value)>, k: nat,
                 kept: seq<(string, Value)>, cs: CS, lc: Scope, s: State, vars: Vars) returns (a: LS, s1: State)
    requires StackOK(cs.frames, cs.tmpN, cs.frameN) && p < cs.tmpN && f.kind == KFilter && Undetermined(f, cs, cs.tmpN)
    requires Targets(t1, t2, Frames(f, cs.frames)) && Filtering(f, p, ps, kept, cs, lc, s, vars) && k < |ps|
    ensures a == LowerTargets(t1, t2, p, cs.tmpN + 1, Inner(f, cs))
    ensures var s0 := PutTmp(s, cs.tmpN + 1, Int(k));
      Run(a.code, s0, vars) == ROk(s1) && Keep(s0, s1, Inner(f, cs)) && s1.out == s.out
    ensures Evolves(Inner(f, cs), a.cs) && Inv(a.cs, BindTargets(lc, t1, t2, ps[k]), s1, vars)
  {
    CounterAgree(lc, f, cs, cs.tmpN, s, cs.tmpN + 1, Int(k), vars, {});
    InnerStack(f, cs);
    s1 := SimBinds(f, t1, t2, p, ps, k, cs, lc, PutTmp(s, cs.tmpN + 1, Int(k)), vars);
    a := LowerTargets(t1, t2, p, cs.tmpN + 1, Inner(f, cs));
  }

  // The condition over bound targets.
  lemma SimJudge(f: CFrame, cond: Expr, a: LS, p: nat, ps: seq<(string, Value)>, k: nat, kept: seq<(string, Value)>,
                 cs: CS, plan: Plan, lc: Scope, s: State, s1: State, vars: Vars) returns (s': State)
    requires StackOK(cs.frames, cs.tmpN, cs.frameN) && f.kind == KFilter && Undetermined(f, cs, cs.tmpN)
    requires p < cs.tmpN && k < |ps| && Tmp(s, p) == Arr(ps) && Tmp(s, cs.tmpN) == Arr(kept)
    requires Evolves(Inner(f, cs), a.cs) && Pre(cond, Inner(f, cs), plan)
    requires var s0 := PutTmp(s, cs.tmpN + 1, Int(k));
      Run(a.code, s0, vars) == ROk(s1) && Keep(s0, s1, Inner(f, cs)) && s1.out == s.out
    requires Inv(a.cs, lc, s1, vars)
    ensures var c := LowerE(cond, false, a.cs, plan);
      Kept(Run(a.code + (c.code + [KeepCode(c, p, cs.tmpN)]), PutTmp(s, cs.tmpN + 1, Int(k)), vars),
           Eval(cond, lc, false, plan.lenient), f, p, ps, k, kept, cs, s, s', vars)
  {
    PreLater(cond, Inner(f, cs), a.cs, plan);
    var c, er := LowerE(cond, false, a.cs, plan), Eval(cond, lc, false, plan.lenient);
    var s2 := SimE(cond, false, a.cs, plan, lc, s1, vars);
    s' := SimKept(f, c, er, p, ps, k, kept, cs, a.cs, s, s1, s2, vars);
    RunAppend(a.code, c.code + [KeepCode(c, p, cs.tmpN)], PutTmp(s, cs.tmpN + 1, Int(k)), vars);
  }

  function KeepCode(c: LE, p: nat, n: nat): Instr { Branch(CTruthy(c.g), [AppendPair(n, p, n + 1)], []) }

  ghost predicate Kept(r: RunR, er: EvalR, f: CFrame, p: nat, ps: seq<(string, Value)>, k: nat,
                       kept: seq<(string, Value)>,
                       cs: CS, s: State, s': State, vars: Vars)
    requires k < |ps|
  {
    match er
    case EFail(x) => r == RFail(x, s.out)
    case EOk(v, lc) =>
      && r == ROk(s') && Filtering(f, p, ps, if Truthy(v) then kept + [ps[k]] else kept, cs, lc, s', vars)
      && SameUpTo(s, s', cs.tmpN, cs.frameN) && s'.out == s.out
  }

  // The condition of a candidate, then its survival.
  lemma SimKept(f: CFrame, c: LE, er: EvalR, p: nat, ps: seq<(string, Value)>, k: nat, kept: seq<(string, Value)>,
                cs: CS, a: CS, s: State, s1: State, s2: State, vars: Vars) returns (s': State)
    requires StackOK(cs.frames, cs.tmpN, cs.frameN) && f.kind == KFilter && Undetermined(f, cs, cs.tmpN)
    requires p < cs.tmpN && k < |ps| && Tmp(s, p) == Arr(ps) && Tmp(s, cs.tmpN) == Arr(kept)
    requires Evolves(Inner(f, cs), a) && Keep(PutTmp(s, cs.tmpN + 1, Int(k)), s1, Inner(f, cs)) && s1.out == s.out
    requires Evolves(a, c.cs) && SimR(c, er, a, s1, s2, vars)
    ensures Kept(Run(c.code + [KeepCode(c, p, cs.tmpN)], s1, vars), er, f, p, ps, k, kept, cs, s, s', vars)
  {
    RunAppend(c.code, [KeepCode(c, p, cs.tmpN)], s1, vars);
    s' := s2;
    if er.EOk? {
      KeepTrans(PutTmp(s, cs.tmpN + 1, Int(k)), s1, s2, Inner(f, cs), a);
      CandidateSame(f, cs, s, s2, k);
      Settle(er.sc, f, c.cs.frames, s2, vars);
      s' := RunKeep(f, c, er.v, p, ps, k, kept, cs, er.sc, s2, vars);
      SameTrans(s, s2, s', cs.tmpN, cs.frameN);
    }
  }

  lemma CandidateSame(f: CFrame, cs: CS, s: State, s2: State, k: nat)
    requires cs.frames.Frames? && f.kind == KFilter && f.id == cs.frameN + 1
    requires Keep(PutTmp(s, cs.tmpN + 1, Int(k)), s2, Inner(f, cs))
    ensures SameUpTo(s, s2, cs.tmpN, cs.frameN) && Tmp(s2, cs.tmpN) == Tmp(s, cs.tmpN) && Tmp(s2, cs.tmpN + 1) == Int(k)
  {
    var s0 := PutTmp(s, cs.tmpN + 1, Int(k));
    PushedKeep(s0, s2, Inner(f, cs), cs);
    assert Tmp(s0, cs.tmpN) == Tmp(s2, cs.tmpN) && Tmp(s0, cs.tmpN + 1) == Tmp(s2, cs.tmpN + 1);
    TmpsPut(s, cs.tmpN + 1, Int(k), cs.tmpN);
    assert SameUpTo(s, s0, cs.tmpN, cs.frameN);
  }

  // Appending a survivor.
  lemma RunKeep(f: CFrame, c: LE, v: Value, p: nat, ps: seq<(string, Value)>, k: nat, kept: seq<(string, Value)>,
                cs: CS, lc: Scope, s: State, vars: Vars) returns (s': State)
    requires StackOK(cs.frames, cs.tmpN, cs.frameN) && f.kind == KFilter && Undetermined(f, cs, cs.tmpN)
    requires Filtering(f, p, ps, kept, cs, lc, s, vars) && p < cs.tmpN && k < |ps| && Tmp(s, cs.tmpN + 1) == Int(k)
    requires GVal(c.g, s, vars) == v
    ensures Run([KeepCode(c, p, cs.tmpN)], s, vars) == ROk(s')
    ensures Filtering(f, p, ps, if Truthy(v) then kept + [ps[k]] else kept, cs, lc, s', vars)
    ensures SameUpTo(s, s', cs.tmpN, cs.frameN) && s'.out == s.out
  {
    RunOne(KeepCode(c, p, cs.tmpN), s, vars);
    RunOne(AppendPair(cs.tmpN, p, cs.tmpN + 1), s, vars);
    s' := s;
    if Truthy(v) {
      s' := PutTmp(s, cs.tmpN, Arr(kept + [ps[k]]));
      KeepPut(f, p, ps, kept, kept + [ps[k]], cs, lc, s, vars);
    }
  }

  lemma KeepPut(f: CFrame, p: nat, ps: seq<(string, Value)>, kept: seq<(string, Value)>, more: seq<(string, Value)>,
                cs: CS, lc: Scope, s: State, vars: Vars)
    requires StackOK(cs.frames, cs.tmpN, cs.frameN) && f.kind == KFilter && Undetermined(f, cs, cs.tmpN)
    requires Filtering(f, p, ps, kept, cs, lc, s, vars) && p < cs.tmpN
    ensures var s' := PutTmp(s, cs.tmpN, Arr(more));
      Filtering(f, p, ps, more, cs, lc, s', vars) && SameUpTo(s, s', cs.tmpN, cs.frameN)
  {
    CounterAgree(lc, f, cs, cs.tmpN, s, cs.tmpN, Arr(more), vars, {});
    TmpsPut(s, cs.tmpN, Arr(more), cs.tmpN);
  }

  // The next candidate finds the frame undetermined again.
  lemma Settle(sc: Scope, f: CFrame, fs: Frames, s: State, vars: Vars)
    requires Agree(sc, fs, s, vars, {}) && f.kind == KFilter && f.definite == {}
    requires fs.f == f.(definite := fs.f.definite, ever := fs.f.ever)
    ensures Agree(sc, Frames(f, fs.below), s, vars, {})
  {
    SameFrames(fs, Frames(f, fs.below), s, vars);
  }

  ghost predicate Looped(r: RunR, fr: FilterR, cs: CS, s: State, s': State) {
    match fr
    case FFail(x) => r == RFail(x, s.out)
    case FOk(all) =>
      r == ROk(s') && Tmp(s', cs.tmpN) == Arr(all) && SameUpTo(s, s', cs.tmpN, cs.frameN) && s'.out == s.out
  }

  ghost function FilterRest(er: EvalR, cond: Expr, t1: string, t2: Option<string>, ps: seq<(string, Value)>, k: nat,
                            kept: seq<(string, Value)>, lenient: bool): FilterR
    requires k < |ps| && (er.EOk? ==> er.sc.Scope?)
  {
    if er.EFail? then FFail(er.err)
    else FilterPairs(cond, t1, t2, ps[k + 1..], er.sc, if Truthy(er.v) then kept + [ps[k]] else kept, lenient)
  }

  lemma FilterStep(cond: Expr, t1: string, t2: Option<string>, ps: seq<(string, Value)>, k: nat, lc: Scope,
                   kept: seq<(string, Value)>, lenient: bool)
    requires lc.Scope? && k < |ps|
    ensures FilterPairs(cond, t1, t2, ps[k..], lc, kept, lenient)
         == FilterRest(Eval(cond, BindTargets(lc, t1, t2, ps[k]), false, lenient), cond, t1, t2, ps, k, kept, lenient)
  {
    assert ps[k..][0] == ps[k] && ps[k..][1..] == ps[k + 1..];
  }

  // One candidate, then the rest of the pass.
  lemma SimStep(code: Code, cond: Expr, t1: string, t2: Option<string>, f: CFrame, p: nat, ps: seq<(string, Value)>,
                k: nat,
                kept: seq<(string, Value)>, cs: CS, lc: Scope, lenient: bool, s: State, s1: State, s': State,
                    vars: Vars)
    requires lc.Scope? && k < |ps|
    requires var er := Eval(cond, BindTargets(lc, t1, t2, ps[k]), false, lenient);
      && Kept(Run(code, PutTmp(s, cs.tmpN + 1, Int(k)), vars), er, f, p, ps, k, kept, cs, s, s1, vars)
      && (er.EOk? ==> Looped(RunRange(cs.tmpN + 1, p, code, |ps|, k + 1, s1, vars),
                             FilterPairs(cond, t1, t2, ps[k + 1..], er.sc, if Truthy(er.v) then kept
                                         + [ps[k]] else kept, lenient),
                             cs, s1, s'))
    ensures Looped(RunRange(cs.tmpN + 1, p, code, |ps|, k, s, vars),
                   FilterPairs(cond, t1, t2, ps[k..], lc, kept, lenient),
                   cs, s, s')
  {
    FilterStep(cond, t1, t2, ps, k, lc, kept, lenient);
    if RunRange(cs.tmpN + 1, p, code, |ps|, k, s, vars).ROk? { SameTrans(s, s1, s', cs.tmpN, cs.frameN); }
  }

  // No candidate left.
  lemma FilterDone(f: CFrame, cond: Expr, t1: string, t2: Option<string>, p: nat, ps: seq<(string, Value)>,
                   kept: seq<(string, Value)>, cs: CS, lenient: bool, lc: Scope, s: State, code: Code, vars: Vars)
    requires Filtering(f, p, ps, kept, cs, lc, s, vars)
    ensures Looped(RunRange(cs.tmpN + 1, p, code, |ps|, |ps|, s, vars),
                   FilterPairs(cond, t1, t2, ps[|ps|..], lc, kept, lenient), cs, s, s)
  {
    assert ps[|ps|..] == [];
  }

  lemma {:induction false} SimFilterLoop(f: CFrame, cond: Expr, t1: string, t2: Option<string>, p: nat,
                                         ps: seq<(string, Value)>, rest: seq<(string, Value)>, k: nat,
                                         kept: seq<(string, Value)>, cs: CS, plan: Plan, lc: Scope, s: State,
                                             code: Code,
                                         vars: Vars) returns (s': State)
    requires FilterSite(f, cond, t1, t2, p, cs, plan) && Filtering(f, p, ps, kept, cs, lc, s, vars)
    requires k <= |ps| && rest == ps[k..]
    requires code == LowerCandidate(f, cond, t1, t2, p, cs.tmpN, cs.frames, plan).code
    ensures Looped(RunRange(cs.tmpN + 1, p, code, |ps|, k, s, vars),
                   FilterPairs(cond, t1, t2, rest, lc, kept, plan.lenient), cs, s, s')
    decreases |rest|
  {
    if k == |ps| {
      s' := s;
      FilterDone(f, cond, t1, t2, p, ps, kept, cs, plan.lenient, lc, s, code, vars);
    } else {
      var s1 := SimCandidate(f, cond, t1, t2, p, ps, k, kept, cs, plan, lc, s, vars);
      s' := s1;
      var er := Eval(cond, BindTargets(lc, t1, t2, ps[k]), false, plan.lenient);
      if er.EOk? {
        s' := SimFilterLoop(f, cond, t1, t2, p, ps, ps[k + 1..], k + 1, if Truthy(er.v) then kept + [ps[k]] else kept,
                            cs,
                            plan, er.sc, s1, code, vars);
      }
      SimStep(code, cond, t1, t2, f, p, ps, k, kept, cs, lc, plan.lenient, s, s1, s', vars);
    }
  }

  ghost predicate Filtered(r: RunR, fr: FilterR, next: CS, p: nat, sc: Scope, s: State, s': State, cs: CS, vars: Vars) {
    match fr
    case FFail(x) => r == RFail(x, s.out)
    case FOk(ps) =>
      && r == ROk(s') && Inv(next, sc, s', vars) && Tmp(s', p) == Arr(ps)
      && SameUpTo(s, s', cs.tmpN, cs.frameN) && s'.out == s.out
  }

  // The filter pre-pass over the pairs in the last temporary minted.
  lemma SimFilter(f: CFrame, cond: Expr, t1: string, t2: Option<string>, ps: seq<(string, Value)>, cs: CS, cs1: CS,
                  plan: Plan, sc: Scope, s: State, vars: Vars) returns (r: LS, s': State)
    requires Inv(cs, sc, s, vars) && Tmp(s, cs.tmpN) == Arr(ps) && cs1 == Fresh(cs, 1)
    requires FilterSite(f, cond, t1, t2, cs.tmpN, cs1, plan)
    ensures r == LowerFilter(f, cond, t1, t2, cs.tmpN, cs1, plan)
    ensures Filtered(Run(r.code, s, vars), FilterPairs(cond, t1, t2, ps, Child(sc), [], plan.lenient), r.cs, cs.tmpN,
                     sc, s, s', cs, vars)
  {
    var c := FilterCode(f, cond, t1, t2, cs, cs1, plan);
    r := FilterResult(f.id, c, cs);
    s' := SimFilterOf(f, cond, t1, t2, ps, cs, cs1, plan, sc, c, s, vars);
  }

  // The same for the code of one candidate.
  lemma SimFilterOf(f: CFrame, cond: Expr, t1: string, t2: Option<string>, ps: seq<(string, Value)>, cs: CS, cs1: CS,
                    plan: Plan, sc: Scope, c: LS, s: State, vars: Vars) returns (s': State)
    requires Inv(cs, sc, s, vars) && Tmp(s, cs.tmpN) == Arr(ps) && cs1 == Fresh(cs, 1)
    requires FilterSite(f, cond, t1, t2, cs.tmpN, cs1, plan)
    requires c.code == LowerCandidate(f, cond, t1, t2, cs.tmpN, cs1.tmpN, cs1.frames, plan).code
    requires cs.tmpN <= c.cs.tmpN && cs.frameN <= c.cs.frameN
    ensures Filtered(Run(FilterResult(f.id, c, cs).code, s, vars),
                     FilterPairs(cond, t1, t2, ps, Child(sc), [], plan.lenient),
                     FilterResult(f.id, c, cs).cs, cs.tmpN, sc, s, s', cs, vars)
  {
    StartFilter(f, ps, cs, cs1, sc, s, vars);
    var s2 := Declared(PutTmp(s, cs.tmpN + 1, Arr([])), f.id);
    var fr, s3 := SimPass(f, cond, t1, t2, cs.tmpN, ps, cs1, plan, Child(sc), s2, c.code, vars);
    s' := FinishFilter(f.id, c, fr, cs, cs1, sc, ps, s, s2, s3, vars);
  }

  // All the candidates, from the state the pass starts in.
  lemma SimPass(f: CFrame, cond: Expr, t1: string, t2: Option<string>, p: nat, ps: seq<(string, Value)>, cs: CS,
                plan: Plan,
                lc: Scope, s: State, code: Code, vars: Vars) returns (fr: FilterR, s': State)
    requires FilterSite(f, cond, t1, t2, p, cs, plan) && Filtering(f, p, ps, [], cs, lc, s, vars)
    requires code == LowerCandidate(f, cond, t1, t2, p, cs.tmpN, cs.frames, plan).code
    ensures fr == FilterPairs(cond, t1, t2, ps, lc, [], plan.lenient)
    ensures Looped(RunRange(cs.tmpN + 1, p, code, |ps|, 0, s, vars), fr, cs, s, s')
  {
    assert ps[0..] == ps;
    fr := FilterPairs(cond, t1, t2, ps, lc, [], plan.lenient);
    s' := SimFilterLoop(f, cond, t1, t2, p, ps, ps[0..], 0, [], cs, plan, lc, s, code, vars);
  }

  // The survivors take the place of the pairs.
  lemma FinishFilter(id: nat, c: LS, fr: FilterR, cs: CS, cs1: CS, sc: Scope, ps: seq<(string, Value)>, s: State,
                     s2: State,
                     s3: State, vars: Vars) returns (s': State)
    requires Inv(cs, sc, s, vars) && cs.tmpN <= c.cs.tmpN && cs.frameN <= c.cs.frameN
    requires s2 == Declared(PutTmp(s, cs.tmpN + 1, Arr([])), id) && Tmp(s2, cs.tmpN) == Arr(ps)
        && SameUpTo(s, s2, cs.tmpN, cs.frameN)
    requires cs1 == Fresh(cs, 1) && Looped(RunRange(cs1.tmpN + 1, cs.tmpN, c.code, |ps|, 0, s2, vars), fr, cs1, s2, s3)
    ensures var r := FilterResult(id, c, cs);
      Filtered(Run(r.code, s, vars), fr, r.cs, cs.tmpN, sc, s, s', cs, vars)
  {
    RunFilter(id, cs.tmpN + 1, cs.tmpN, c.code, s, vars);
    s' := s3;
    if fr.FOk? {
      s' := PutTmp(s3, cs.tmpN, Arr(fr.kept));
      FilteredSame(cs, s, s2, s3, Arr(fr.kept));
      PopInv(cs, sc, s, s', c.cs.tmpN, c.cs.frameN, cs.cond, vars);
    }
  }

  function FilterResult(id: nat, c: LS, cs: CS): LS {
    LS([SetTmp(cs.tmpN + 1, GConst(Arr([]))), Declare(id)]
       + [Range(cs.tmpN + 2, cs.tmpN, c.code), SetTmp(cs.tmpN, GTmp(cs.tmpN + 1))],
       CS(cs.frames, c.cs.tmpN, c.cs.frameN, cs.cond))
  }

  lemma FilterCode(f: CFrame, cond: Expr, t1: string, t2: Option<string>, cs: CS, cs1: CS, plan: Plan) returns (c: LS)
    requires cs.frames.Frames? && cs1 == Fresh(cs, 1) && f.id == cs1.frameN + 1
    ensures c.code == LowerCandidate(f, cond, t1, t2, cs.tmpN, cs1.tmpN, cs1.frames, plan).code
    ensures LowerFilter(f, cond, t1, t2, cs.tmpN, cs1, plan) == FilterResult(f.id, c, cs)
    ensures cs.tmpN <= c.cs.tmpN && cs.frameN <= c.cs.frameN
  {
    c := LowerCandidate(f, cond, t1, t2, cs.tmpN, cs.tmpN + 1, cs.frames, plan);
  }

  lemma FilteredSame(cs: CS, s: State, s2: State, s3: State, v: Value)
    requires SameUpTo(s, s2, cs.tmpN, cs.frameN) && SameUpTo(s2, s3, cs.tmpN + 1, cs.frameN)
    ensures SameUpTo(s, PutTmp(s3, cs.tmpN, v), cs.tmpN, cs.frameN)
  {
  }

  ghost function Replaced(r: RunR, surv: nat, p: nat): RunR {
    if r.ROk? then ROk(PutTmp(r.s, p, Tmp(r.s, surv))) else r
  }

  lemma RunFilter(id: nat, surv: nat, p: nat, code: Code, s: State, vars: Vars)
    ensures var s2 := Declared(PutTmp(s, surv, Arr([])), id);
      Run([SetTmp(surv, GConst(Arr([]))), Declare(id)] + [Range(surv + 1, p, code), SetTmp(p, GTmp(surv))], s, vars)
      == Replaced(RunRange(surv + 1, p, code, |PairsAt(s2, p)|, 0, s2, vars), surv, p)
  {
    var s2 := Declared(PutTmp(s, surv, Arr([])), id);
    RunTwo(SetTmp(surv, GConst(Arr([]))), Declare(id), s, vars);
    RunAppend([SetTmp(surv, GConst(Arr([]))), Declare(id)], [Range(surv + 1, p, code), SetTmp(p, GTmp(surv))], s, vars);
    RunAppend([Range(surv + 1, p, code)], [SetTmp(p, GTmp(surv))], s2, vars);
    RunOne(Range(surv + 1, p, code), s2, vars);
    if RunRange(surv + 1, p, code, |PairsAt(s2, p)|, 0, s2, vars).ROk? {
      RunOne(SetTmp(p, GTmp(surv)), Step(Range(surv + 1, p, code), s2, vars).s, vars);
    }
  }

  lemma StartFilter(f: CFrame, ps: seq<(string, Value)>, cs: CS, cs1: CS, sc: Scope, s: State, vars: Vars)
    requires Inv(cs, sc, s, vars) && cs1 == Fresh(cs, 1) && Tmp(s, cs.tmpN) == Arr(ps)
    requires f.kind == KFilter && Undetermined(f, cs1, cs1.tmpN)
    ensures var s2 := Declared(PutTmp(s, cs.tmpN + 1, Arr([])), f.id);
      && Filtering(f, cs.tmpN, ps, [], cs1, Child(sc), s2, vars) && SameUpTo(s, s2, cs.tmpN, cs.frameN)
  {
    var s1 := PutTmp(s, cs1.tmpN, Arr([]));
    PopInv(cs, sc, s, s1, cs1.tmpN, cs1.frameN, cs1.cond, vars);
    PushLoop(cs1, f, cs1.tmpN, sc, s1, vars);
    DeclaredSame(s1, cs1);
  }

  // The frame a filter pushes is a filter site.
  lemma FilterFrameSite(cond: Expr, t1: string, t2: Option<string>, p: nat, cs: CS, plan: Plan)
    requires cs.frames.Frames? && StackOK(cs.frames, cs.tmpN, cs.frameN) && p < cs.tmpN
    requires SafeE(cond, Frames(ShapeFrame(KFilter, FilterBindsLoop(t1, t2, cond), None), Shape(cs.frames)), plan)
    ensures FilterSite(FilterFrame(cond, t1, t2, cs), cond, t1, t2, p, cs, plan)
  {
    var f := FilterFrame(cond, t1, t2, cs);
    AddNamesAll([], TargetNames(t1, t2) + ExprBinds(cond));
    assert ShapeOf(f) == ShapeFrame(KFilter, FilterBindsLoop(t1, t2, cond), None);
  }
}
