/** The compiled loop optimizer against the interpreter: a module lowered under the analysis' own
    decisions renders as the interpreter renders it, and the one construct the walk misses. */
module Optimized {
  import opened Values
  import opened Syntax
  import opened Scopes
  import opened Interp
  import opened Scan
  import opened Target
  import opened Lowering
  import opened Agreement
  import opened Resolution
  import opened BindSim
  import opened Safety
  import opened LoopSim
  import opened LoopOpt
  import opened LoopSafe
  import opened Nodes
  import opened ModuleSim
  import ExecSim

  lemma ModuleSolved(ss: seq<Stmt>, m: set<nat>)
    requires Least(WalkModule(ss), m)
    ensures Solved(WalkModule(ss), m) && At(ARoot, RootShape(ss), Walk([], {}, map[], [], {}), m)
  {
    assert Grows(Walk([], {}, map[], [], {}), WalkModule(ss));
  }

  // The decisions of the analysis are safe exactly when every body its walk skips is out of reach
  // of inline loops, or neither reads loop nor iterates.
  lemma DecisionsSafe(ss: seq<Stmt>, m: set<nat>, lenient: bool)
    requires Least(WalkModule(ss), m) && Identified(ss)
    ensures var plan := PlanOf(WalkModule(ss), m, lenient);
      SafeL(ss, RootShape(ss), plan) <==> ShownL(ss, RootShape(ss), plan)
  {
    ModuleSolved(ss, m);
    IdentifiedSites(ss);
    WalkSafeL(ss, ARoot, RootShape(ss), Walk([], {}, map[], [], {}), WalkModule(ss), m, lenient);
  }

  // A module compiled under its analysis renders as interpreted.
  lemma OptimizedModule(ss: seq<Stmt>, m: set<nat>, lenient: bool, order: seq<string>, vars: Vars)
    requires Least(WalkModule(ss), m) && Identified(ss) && Listed(order, vars)
    requires ShownL(ss, RootShape(ss), PlanOf(WalkModule(ss), m, lenient))
    ensures SameRender(Run(LowerModule(ss, PlanOf(WalkModule(ss), m, lenient)).code, Start(order), vars),
                       ExecList(ss, RootScope(order, vars), "", lenient))
  {
    DecisionsSafe(ss, m, lenient);
    ModuleRenders(ss, PlanOf(WalkModule(ss), m, lenient), order, vars);
  }

  // A module without the construct the walk skips renders as interpreted, with no further condition.
  lemma OptimizedRenders(ss: seq<Stmt>, m: set<nat>, lenient: bool, order: seq<string>, vars: Vars)
    requires NoApplyL(ss) && Least(WalkModule(ss), m) && Identified(ss) && Listed(order, vars)
    ensures SameRender(Run(LowerModule(ss, PlanOf(WalkModule(ss), m, lenient)).code, Start(order), vars),
                       ExecList(ss, RootScope(order, vars), "", lenient))
  {
    NoApplyShownL(ss, RootShape(ss), PlanOf(WalkModule(ss), m, lenient));
    OptimizedModule(ss, m, lenient, order, vars);
  }

  // ----- the skipped construct -----

  // for x in [7] { apply { print loop } }
  const PAIRS: seq<(string, Value)> := [("0", Int(7))]
  const APPLIED: Stmt := Apply([Print(Name("loop"))])
  const LOOP: Stmt := For(1, "x", None, Lit(Arr(PAIRS)), None, [APPLIED], [])
  const SKIPPED: seq<Stmt> := [LOOP]

  // The walk records the loop and nothing against it.
  lemma SkippedWalk()
    ensures WalkModule(SKIPPED) == Walk([1], {}, map[], [], {}) && Least(WalkModule(SKIPPED), {})
    ensures PlanOf(WalkModule(SKIPPED), {}, false) == Plan(false, {1}, map[])
  {
    var w := Walk([1], {}, map[], [], {});
    SkippedLoopWalk();
    assert SKIPPED[1..] == [];
    assert WalkL(SKIPPED, ARoot, Walk([], {}, map[], [], {})) == WalkL([], ARoot, w);
    assert (set n | n in w.visited && n !in {}) == {1};
  }

  lemma SkippedLoopWalk()
    ensures WalkS(LOOP, ARoot, Walk([], {}, map[], [], {})) == Walk([1], {}, map[], [], {})
  {
    var none, w := Walk([], {}, map[], [], {}), Walk([1], {}, map[], [], {});
    assert Enter(LOOP, ARoot, none) == w && WalkE(LOOP.iter, ARoot, none) == none;
    assert [APPLIED][1..] == [] && WalkL([APPLIED], APush(ALoop(1), ARoot), w) == w;
  }

  lemma SkippedHidden()
    ensures !ShownL(SKIPPED, RootShape(SKIPPED), INLINE)
  {
    var lf := Frames(ShapeFrame(KLoop, true, Some((1, true))), RootShape(SKIPPED));
    assert !QuietL([Print(Name("loop"))], false) by { assert !QuietE(Name("loop"), false); }
    assert !ShownL([APPLIED], lf, INLINE);
    assert !ShownS(LOOP, RootShape(SKIPPED), INLINE);
  }

  // The interpreter reads the loop value, which has no text.
  lemma SkippedInterpreted()
    ensures ExecList(SKIPPED, RootScope([], map[]), "", false) == XFail(Unrenderable, "")
  {
    var sc := RootScope([], map[]);
    var lc := SetName(BindTargets(Child(sc), "x", None, PAIRS[0]), "loop", Loop(0, PAIRS, Null));
    SetNameFacts(BindTargets(Child(sc), "x", None, PAIRS[0]), "loop", Loop(0, PAIRS, Null));
    assert Eval(Name("loop"), lc, false, false) == EOk(Loop(0, PAIRS, Null), lc);
    assert ExecList([Print(Name("loop"))], lc, "", false) == XFail(Unrenderable, "");
    assert Exec(APPLIED, lc, "", false) == XFail(Unrenderable, "");
    assert ExecList([APPLIED], lc, "", false) == XFail(Unrenderable, "");
    assert Get(sc, "loop").None?;
    assert ExecIter(LOOP.body, "x", None, PAIRS, 0, Null, Child(sc), "", false) == XFail(Unrenderable, "");
    assert ExecArms(LOOP, PAIRS, sc, "", false) == XFail(Unrenderable, "");
    assert Exec(LOOP, sc, "", false) == ExecFor(LOOP, Arr(PAIRS), sc, "", false);
  }

  // The emitted read: the value local of loop is read, and no code assigned it.
  const LINKS: seq<Link> := [LBind("loop", 2, false), LVars]
  const READ: Code := ProbeCode(LINKS, "loop", 5, 6)

  // Reading an inline loop's unassigned local yields null.
  lemma RunUnassigned(s: State) returns (s': State)
    requires "loop" in LocalsOf(s, 2).flags && VarVal(s, "loop", 2) == Null
    ensures Run(READ, s, map[]) == ROk(s') && s'.out == s.out && Tmp(s', 5) == Null && Tmp(s', 6) == Bool(true)
  {
    assert LinkGet(LINKS[0], s, map[], "loop") == Some(Null);
    s' := RunProbeCode(LINKS, "loop", s, map[], 5);
  }

  const INLINE: Plan := Plan(false, {1}, map[])
  const ROOT: Frames := Frames(CFrame(1, KRoot, [], {}, {}, GConst(Null), NoLoop), Bottom)
  const BODY: CFrame := CFrame(2, KLoop, ["x", "loop"], {}, {}, GConst(Null), LoopInfo(1, true, 3, 0, 1))

  lemma SkippedNames()
    ensures BindNames(SKIPPED) == [] && BindNames(LOOP.body) == [] && Rebound(LOOP) == []
    ensures LoopFrame(LOOP, 0, 1, CS(ROOT, 3, 1, 0), INLINE) == BODY
  {
    OneBinds(Print(Name("loop")));
    OneBinds(APPLIED);
    OneBinds(LOOP);
    assert StmtBinds(APPLIED) == ListBinds([Print(Name("loop"))]);
    assert ListBinds(LOOP.body) == [];
    assert ExprBinds(LOOP.iter) == [] && ListBinds(LOOP.els) == [];
    assert AddNames([], ["x"]) == ["x"] && ["x", "loop"][..1] == ["x"];
    assert TargetNames("x", None) + ["loop"] + [] == ["x", "loop"];
  }

  lemma OneBinds(s: Stmt)
    ensures ListBinds([s]) == StmtBinds(s)
  {
    assert [s][1..] == [];
  }

  // The frame of the body after its binds: loop is flagged, no bind of it is definite.
  ghost predicate Bound2(fs: Frames) {
    && fs.Frames? && fs.f.id == 2 && fs.f.kind == KLoop && fs.f.order == ["x", "loop"] && "loop" !in fs.f.definite
    && fs.below == ROOT
  }

  lemma ReadCode(fs: Frames)
    requires Bound2(fs)
    ensures Chain(fs, "loop") == LINKS && !Terminal(fs, "loop")
    ensures ReadName("loop", CS(fs, 5, 2, 0), false, INLINE).code == READ
        + [Branch(CFalsy(GTmp(6)), [Raise("loop", HintParts(fs))], [])]
    ensures ReadName("loop", CS(fs, 5, 2, 0), false, INLINE).g == GTmp(5)
  {
    assert Chain(ROOT, "loop") == [LVars];
    assert Chain(fs, "loop") == [LBind("loop", 2, false)] + [LVars] == LINKS;
  }

  function Inner(fs: Frames): Code {
    READ + [Branch(CFalsy(GTmp(6)), [Raise("loop", HintParts(fs))], [])] + [Write(GTmp(5))]
  }

  lemma AppliedCode(fs: Frames)
    requires Bound2(fs)
    ensures LowerList([APPLIED], CS(fs, 4, 2, 0), INLINE).code == [CaptureInto(4, Inner(fs)), Write(GTmp(4))]
  {
    var body := [Print(Name("loop"))];
    assert Fresh(CS(fs, 4, 2, 0), 1) == CS(fs, 5, 2, 0);
    ReadCode(fs);
    assert LowerS(body[0], CS(fs, 5, 2, 0), INLINE).code == Inner(fs);
    assert body[1..] == [] && [APPLIED][1..] == [];
    assert LowerList(body, CS(fs, 5, 2, 0), INLINE).code == Inner(fs) + [] == Inner(fs);
    assert LowerS(APPLIED, CS(fs, 4, 2, 0), INLINE).code == [CaptureInto(4, Inner(fs))] + [Write(GTmp(4))];
    assert LowerList([APPLIED], CS(fs, 4, 2, 0), INLINE).code == [CaptureInto(4, Inner(fs))] + [Write(GTmp(4))] + [];
  }

  // What was found is not reported missing, and null prints nothing.
  lemma RunFound(read: Code, hint: seq<Hint>, s: State, s1: State)
    requires Run(read, s, map[]) == ROk(s1) && Tmp(s1, 5) == Null && Tmp(s1, 6) == Bool(true)
    ensures Run(read + [Branch(CFalsy(GTmp(6)), [Raise("loop", hint)], [])] + [Write(GTmp(5))], s, map[]) == ROk(s1)
  {
    var vars: Vars := map[];
    var miss := Branch(CFalsy(GTmp(6)), [Raise("loop", hint)], []);
    RunAppend(read + [miss], [Write(GTmp(5))], s, vars);
    RunAppend(read, [miss], s, vars);
    RunOne(miss, s1, vars);
    RunOne(Write(GTmp(5)), s1, vars);
    assert s1.(out := s1.out + "") == s1;
  }

  lemma RunCaptured(inner: Code, s: State, s1: State)
    requires Run(inner, s, map[]) == ROk(s1) && s.out == "" && s1.out == ""
    ensures var r := Run([CaptureInto(4, inner), Write(GTmp(4))], s, map[]); r.ROk? && r.s.out == ""
  {
    assert s.(out := "") == s;
    RunTwo(CaptureInto(4, inner), Write(GTmp(4)), s, map[]);
  }

  // The captured body prints nothing.
  lemma RunApplied(fs: Frames, s: State)
    requires Bound2(fs) && "loop" in LocalsOf(s, 2).flags && VarVal(s, "loop", 2) == Null && s.out == ""
    ensures var r := Run(LowerList([APPLIED], CS(fs, 4, 2, 0), INLINE).code, s, map[]); r.ROk? && r.s.out == ""
  {
    AppliedCode(fs);
    var s1 := RunUnassigned(s);
    RunFound(READ, HintParts(fs), s, s1);
    RunCaptured(Inner(fs), s, s1);
  }

  // The binds of the iteration flag loop and assign it nothing.
  lemma RunBinds(s: State) returns (s': State, l: CS)
    requires LocalsOf(s, 2) == Locals(map[], {}, []) && s.out == ""
    ensures var t := LowerTargets("x", None, 0, 3, CS(Frames(BODY, ROOT), 4, 2, 0));
    var b := LowerLoopBind(BODY.loop, t.cs);
      Run(t.code + b.code, s, map[]) == ROk(s') && b.cs == l
    ensures Bound2(l.frames) && l == CS(l.frames, 4, 2, 0)
    ensures "loop" in LocalsOf(s', 2).flags && VarVal(s', "loop", 2) == Null && s'.out == ""
  {
    var vars: Vars := map[];
    var start := CS(Frames(BODY, ROOT), 4, 2, 0);
    var t := BindName("x", GElem(0, 3, 0), start);
    var f := Top(t.cs);
    var s1 := RunBindCode("x", GElem(0, 3, 0), start, s, vars, 4);
    s' := RunInlineBind(f, s1, vars);
    RunAppend(t.code, InlineBind(f), s, vars);
    l := WithTop(t.cs, MarkEver(f, "loop"));
  }

  lemma RunSkippedBody(s: State)
    requires LocalsOf(s, 2) == Locals(map[], {}, []) && s.out == ""
    ensures var r := Run(LowerIter(LOOP, BODY, ROOT, INLINE).code, s, map[]); r.ROk? && r.s.out == ""
  {
    var s1, l := RunBinds(s);
    RunApplied(l.frames, s1);
    var t := LowerTargets("x", None, 0, 3, CS(Frames(BODY, ROOT), 4, 2, 0));
    var b := LowerLoopBind(BODY.loop, t.cs);
    RunAppend(t.code + b.code, LowerList([APPLIED], l, INLINE).code, s, map[]);
  }

  // The compiled module succeeds where the interpreter fails.
  lemma SkippedCompiled()
    ensures var r := Run(LowerModule(SKIPPED, INLINE).code, Start([]), map[]); r.ROk? && r.s.out == ""
  {
    var code := LowerBody(LOOP, 0, CS(ROOT, 1, 1, 0), INLINE).code;
    SkippedCode();
    RunSkippedLoop(PutTmp(Declared(Start([]), 1), 0, Arr(PAIRS)));
    RunAround(code);
  }

  lemma RunAround(code: Code)
    requires var r := Run(code, PutTmp(Declared(Start([]), 1), 0, Arr(PAIRS)), map[]); r.ROk? && r.s.out == ""
    ensures var all := [Declare(1)] + [CallTraverse(0, GConst(Arr(PAIRS)), false), Branch(CEmpty(0), [], code)];
      Run(all, Start([]), map[]).ROk? && Run(all, Start([]), map[]).s.out == ""
  {
    var s0 := Declared(Start([]), 1);
    RunTwo(CallTraverse(0, GConst(Arr(PAIRS)), false), Branch(CEmpty(0), [], code), s0, map[]);
    RunOne(Declare(1), Start([]), map[]);
    RunAppend([Declare(1)], [CallTraverse(0, GConst(Arr(PAIRS)), false), Branch(CEmpty(0), [], code)], Start([]),
              map[]);
  }

  lemma SkippedCode()
    ensures LowerModule(SKIPPED, INLINE).code == [Declare(1)] + LowerList(SKIPPED, CS(ROOT, 0, 1, 0), INLINE).code
    ensures LowerList(SKIPPED, CS(ROOT, 0, 1, 0), INLINE).code
         == [CallTraverse(0, GConst(Arr(PAIRS)), false),
             Branch(CEmpty(0), [], LowerBody(LOOP, 0, CS(ROOT, 1, 1, 0), INLINE).code)]
  {
    var cs := CS(ROOT, 0, 1, 0);
    var cs1 := CS(ROOT, 1, 1, 0);
    var b := LowerBody(LOOP, 0, cs1, INLINE);
    SkippedNames();
    assert LowerE(LOOP.iter, false, cs, INLINE) == LE([], GConst(Arr(PAIRS)), cs);
    assert LowerPairs(LOOP, 0, cs1, INLINE) == LS([], cs1);
    assert Shallower(LowerList([], Deeper(cs1), INLINE).cs, 0) == cs1;
    assert LowerArms(LOOP, 0, cs1, INLINE).code == [Branch(CEmpty(0), [], b.code)];
    assert SKIPPED[1..] == [];
    assert LowerList(SKIPPED, cs, INLINE).code == LowerFor(LOOP, cs, INLINE).code + [];
  }

  lemma RunSkippedLoop(s: State)
    requires Tmp(s, 0) == Arr(PAIRS) && s.out == ""
    ensures var r := Run(LowerBody(LOOP, 0, CS(ROOT, 1, 1, 0), INLINE).code, s, map[]); r.ROk? && r.s.out == ""
  {
    var vars: Vars := map[];
    var cs := CS(ROOT, 1, 1, 0);
    var par := LowerParent(true, cs);
    var code := LowerIter(LOOP, BODY, ROOT, INLINE).code;
    SkippedNames();
    var s1 := RunProbeCode(ParentChain(ROOT), "loop", s, vars, 1);
    assert LowerLoop(LOOP, BODY, CS(ROOT, 3, 1, 0), INLINE).code == [Declare(2), Range(3, 0, code)] + [];
    assert LowerBody(LOOP, 0, cs, INLINE).code == par.code + ([Declare(2), Range(3, 0, code)] + []);
    RunAppend(par.code, [Declare(2), Range(3, 0, code)] + [], s, vars);
    ExecSim.RunLoop(2, 3, 0, code, [], PAIRS, s1, vars);
    var s2 := PutTmp(Declared(s1, 2), 3, Int(0));
    RunSkippedBody(s2);
    assert RunRange(3, 0, code, 1, 0, Declared(s1, 2), vars) == Run(code, s2, vars);
  }

  // The two engines differ on the skipped construct, so the exclusion is needed.
  lemma SkippedDiffers()
    ensures Least(WalkModule(SKIPPED), {})
        && !ShownL(SKIPPED, RootShape(SKIPPED), PlanOf(WalkModule(SKIPPED), {}, false))
    ensures ExecList(SKIPPED, RootScope([], map[]), "", false) == XFail(Unrenderable, "")
    ensures Run(LowerModule(SKIPPED, PlanOf(WalkModule(SKIPPED), {}, false)).code, Start([]), map[]).ROk?
  {
    SkippedWalk();
    SkippedInterpreted();
    SkippedCompiled();
    SkippedHidden();
  }
}
