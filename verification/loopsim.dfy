/** Frames that come and go: with-frames, filter frames and the persistent frame of a loop.
    Lower frames are frozen while an upper frame is live. */
module LoopSim {
  import opened Values
  import opened Syntax
  import opened Scopes
  import opened Interp
  import opened Scan
  import opened Target
  import opened Lowering
  import opened Agreement
  import opened Resolution
  import opened BindSim
  import opened Safety
  import opened ExprSim

  // ----- frozen lower frames -----

  lemma SameTrans(a: State, b: State, c: State, n: nat, m: nat)
    requires SameUpTo(a, b, n, m) && SameUpTo(b, c, n, m)
    ensures SameUpTo(a, c, n, m)
  {
  }

  lemma SameKeep(a: State, b: State, cs: CS)
    requires cs.frames.Frames? && SameUpTo(a, b, cs.tmpN, cs.frameN)
    ensures Keep(a, b, cs)
  {
  }

  // A state that differs above cs only still agrees with the scope cs agreed with.
  lemma PopInv(cs: CS, sc: Scope, a: State, b: State, n: nat, m: nat, cond: nat, vars: Vars)
    requires Inv(cs, sc, a, vars) && SameUpTo(a, b, cs.tmpN, cs.frameN) && cs.tmpN <= n && cs.frameN <= m
    ensures Inv(CS(cs.frames, n, m, cond), sc, b, vars)
  {
    AgreeStable(sc, cs.frames, a, b, vars, {}, cs.tmpN, cs.frameN);
    StackWiden(cs.frames, cs.tmpN, cs.frameN, n, m);
  }

  // Work in a pushed frame leaves the frames below alone.
  lemma PushedKeep(a: State, b: State, inner: CS, cs: CS)
    requires inner.frames.Frames? && Keep(a, b, inner) && inner.frames.f.kind != KRoot
    requires inner.frames.f.id == cs.frameN + 1 && inner.frameN > cs.frameN && inner.tmpN >= cs.tmpN
    ensures SameUpTo(a, b, cs.tmpN, cs.frameN)
  {
  }

  function Declared(s: State, id: nat): State { PutLocals(s, id, Locals(map[], {}, [])) }

  lemma DeclaredSame(s: State, cs: CS)
    ensures SameUpTo(s, Declared(s, cs.frameN + 1), cs.tmpN, cs.frameN)
    ensures LocalsOf(Declared(s, cs.frameN + 1), cs.frameN + 1) == Locals(map[], {}, [])
  {
  }

  lemma InvOut(cs: CS, sc: Scope, s: State, o: string, vars: Vars)
    requires Inv(cs, sc, s, vars)
    ensures Inv(cs, sc, s.(out := o), vars)
  {
    PopInv(cs, sc, s, s.(out := o), cs.tmpN, cs.frameN, cs.cond, vars);
  }

  // ----- with frames -----

  lemma {:induction false} SetAllGet(sc: Scope, es: seq<(string, Value)>, x: string)
    requires sc.Scope? && sc.entries == []
    ensures Get(SetAll(sc, es), x) == if Lookup(es, x).Some? then Lookup(es, x) else Get(sc.parent, x)
  {
    if es != [] {
      var init, last := es[..|es| - 1], es[|es| - 1];
      SetAllGet(sc, init, x);
      SetNameAt(SetAll(sc, init), last.0, last.1, x);
    }
  }

  lemma KeysSnoc(es: seq<(string, Value)>)
    requires es != []
    ensures Keys(es) == Keys(es[..|es| - 1]) + [es[|es| - 1].0]
  {
  }

  lemma {:induction false} SetAllNames(sc: Scope, es: seq<(string, Value)>)
    requires sc.Scope? && sc.entries == []
    ensures Names(SetAll(sc, es)) == AddNames(Names(sc.parent), Keys(es))
  {
    if es != [] {
      var init, last := es[..|es| - 1], es[|es| - 1];
      SetAllNames(sc, init);
      SetNameNames(SetAll(sc, init), last.0, last.1);
      KeysSnoc(es);
      AddNamesSnoc(Names(sc.parent), Keys(init), last.0);
    }
  }

  function WithScope(sc: Scope, only: bool, es: seq<(string, Value)>): (r: Scope)
    ensures r.Scope?
  {
    SetAll(Child(if only then NoScope else sc), es)
  }

  // Entering a with frame.
  lemma PushWith(cs: CS, f: CFrame, only: bool, sc: Scope, s: State, vars: Vars)
    requires Inv(cs, sc, s, vars)
    requires f.id == cs.frameN + 1 && f.kind == (if only then KOnly else KWith)
    requires f.definite == {} && f.loop.NoLoop? && Spilled(f.withG) && Within(f.withG, cs.tmpN)
    ensures Inv(CS(Frames(f, cs.frames), cs.tmpN, f.id, 0), WithScope(sc, only, WithEntries(GVal(f.withG, s, vars))),
                Declared(s, f.id), vars)
  {
    var s1 := Declared(s, f.id);
    var es := WithEntries(GVal(f.withG, s, vars));
    DeclaredSame(s, cs);
    AgreeStable(sc, cs.frames, s, s1, vars, {}, cs.tmpN, cs.frameN);
    PushWithAgree(cs.frames, f, only, sc, s1, vars, es);
  }

  lemma PushWithAgree(fs: Frames, f: CFrame, only: bool, sc: Scope, s: State, vars: Vars, es: seq<(string, Value)>)
    requires Agree(sc, fs, s, vars, {}) && es == WithEntries(GVal(f.withG, s, vars))
    requires f.kind == (if only then KOnly else KWith)
    requires f.definite == {} && f.loop.NoLoop? && LocalsOf(s, f.id) == Locals(map[], {}, [])
    ensures Agree(WithScope(sc, only, es), Frames(f, fs), s, vars, {})
  {
    var r := WithScope(sc, only, es);
    PushWithGets(fs, f, only, sc, s, vars, es);
    assert TopReady(f, s, {}) && OrdReady(f, s);
    assert r.parent == if only then NoScope else sc;
  }

  lemma PushWithGets(fs: Frames, f: CFrame, only: bool, sc: Scope, s: State, vars: Vars, es: seq<(string, Value)>)
    requires (forall x :: Get(sc, x) == CGet(fs, s, vars, x)) && Names(sc) == CNames(fs, s, vars)
    requires es == WithEntries(GVal(f.withG, s, vars)) && f.kind == (if only then KOnly else KWith)
    requires LocalsOf(s, f.id) == Locals(map[], {}, [])
    ensures forall x :: Get(WithScope(sc, only, es), x) == CGet(Frames(f, fs), s, vars, x)
    ensures Names(WithScope(sc, only, es)) == CNames(Frames(f, fs), s, vars)
  {
    var base := Child(if only then NoScope else sc);
    SetAllNames(base, es);
    forall x ensures Get(WithScope(sc, only, es), x) == CGet(Frames(f, fs), s, vars, x) {
      SetAllGet(base, es, x);
      assert Own(f, s, vars, x) == Lookup(es, x);
    }
    assert CNames(Frames(f, fs), s, vars) == CBase(Frames(f, fs), s, vars);
  }

  // ----- loop and filter frames -----

  // A frame as a loop or filter iteration finds it: nothing determined.
  ghost predicate Undetermined(f: CFrame, cs: CS, n: nat) {
    && (f.kind == KLoop || f.kind == KFilter) && f.id == cs.frameN + 1 && f.definite == {} && f.ever == {}
    && f.withG == GConst(Null) && cs.tmpN <= n
    && (f.kind == KLoop <==> f.loop.LoopInfo?)
    && (f.kind == KLoop ==> "loop" in f.order && f.loop.iT < n && f.loop.pT < n && f.loop.parT < n)
  }

  // The top frame's determination may be forgotten.
  lemma Forget(sc: Scope, f: CFrame, g: CFrame, below: Frames, s: State, vars: Vars, skip: set<string>)
    requires Agree(sc, Frames(g, below), s, vars, skip) && skip <= {"loop"}
    requires g == f.(definite := g.definite, ever := g.ever) && f.definite == {} && f.kind != KRoot
    ensures Agree(sc, Frames(f, below), s, vars, {"loop"})
  {
    SameFrames(Frames(g, below), Frames(f, below), s, vars);
  }

  // Entering a loop or filter frame.
  lemma PushLoop(cs: CS, f: CFrame, n: nat, sc: Scope, s: State, vars: Vars)
    requires Inv(cs, sc, s, vars) && Undetermined(f, cs, n)
    requires InlineFrame(f) ==> f.loop.parT < cs.tmpN && Tmp(s, f.loop.parT) == Get(sc, "loop").GetOr(Null)
    ensures Agree(Child(sc), Frames(f, cs.frames), Declared(s, f.id), vars, if f.kind == KLoop then {"loop"} else {})
  {
    var s1 := Declared(s, f.id);
    DeclaredSame(s, cs);
    AgreeStable(sc, cs.frames, s, s1, vars, {}, cs.tmpN, cs.frameN);
    CGetStable(cs.frames, s, s1, vars, cs.tmpN, cs.frameN, "loop");
    PushLoopAgree(cs.frames, f, cs, n, sc, s1, vars);
  }

  // A frame that has bound nothing shows what the stack below it shows.
  lemma PushLoopAgree(below: Frames, f: CFrame, cs: CS, n: nat, sc: Scope, s: State, vars: Vars)
    requires sc.Scope? && below == cs.frames && Agree(sc, below, s, vars, {}) && Undetermined(f, cs, n)
    requires LocalsOf(s, f.id) == Locals(map[], {}, [])
    requires InlineFrame(f) ==> Tmp(s, f.loop.parT) == CGet(below, s, vars, "loop").GetOr(Null)
    ensures Agree(Child(sc), Frames(f, below), s, vars, if f.kind == KLoop then {"loop"} else {})
  {
    assert Keys([]) == [];
    forall x ensures CGet(Frames(f, below), s, vars, x) == CGet(below, s, vars, x) {
      UnboundShows(below, f, cs, n, s, vars, x);
    }
    UnboundShows(below, f, cs, n, s, vars, "loop");
    assert Tracks(sc, below, s, vars, {});
  }

  lemma UnboundShows(below: Frames, f: CFrame, cs: CS, n: nat, s: State, vars: Vars, x: string)
    requires Undetermined(f, cs, n) && LocalsOf(s, f.id) == Locals(map[], {}, [])
    ensures CGet(Frames(f, below), s, vars, x) == CGet(below, s, vars, x)
    ensures CNames(Frames(f, below), s, vars) == CNames(below, s, vars)
  {
  }

  // Advancing the counter, or any other temporary the frame's own bindings do not live in, keeps
  // the agreement but for the loop value.
  lemma CounterAgree(sc: Scope, f: CFrame, cs: CS, n: nat, s: State, t: nat, v: Value, vars: Vars, skip: set<string>)
    requires StackOK(cs.frames, cs.tmpN, cs.frameN) && Undetermined(f, cs, n)
    requires Agree(sc, Frames(f, cs.frames), s, vars, skip)
    requires cs.tmpN <= t && (f.kind == KLoop ==> "loop" in skip) && (InlineFrame(f) ==> f.loop.parT < cs.tmpN)
    ensures Agree(sc, Frames(f, cs.frames), PutTmp(s, t, v), vars, skip)
  {
    var s1 := PutTmp(s, t, v);
    TmpsPut(s, t, v, cs.tmpN);
    assert SameUpTo(s, s1, cs.tmpN, cs.frameN);
    AgreeStable(sc.parent, cs.frames, s, s1, vars, {}, cs.tmpN, cs.frameN);
    CNamesStable(cs.frames, s, s1, vars, cs.tmpN, cs.frameN);
    CGetStable(cs.frames, s, s1, vars, cs.tmpN, cs.frameN, "loop");
    CounterGets(f, cs, s, s1, vars);
    var fs := Frames(f, cs.frames);
    assert CBase(fs, s1, vars) == CBase(fs, s, vars);
    assert CNames(fs, s1, vars) == CNames(fs, s, vars);
  }

  lemma CounterGets(f: CFrame, cs: CS, s: State, s1: State, vars: Vars)
    requires StackOK(cs.frames, cs.tmpN, cs.frameN) && (f.kind == KLoop || f.kind == KFilter)
    requires s1 == s.(tmps := s1.tmps) && SameUpTo(s, s1, cs.tmpN, cs.frameN)
    ensures forall x :: CGet(Frames(f, cs.frames), s, vars, x).Some? == CGet(Frames(f, cs.frames), s1, vars, x).Some?
    ensures forall x :: x != "loop" || f.kind != KLoop ==>
      CGet(Frames(f, cs.frames), s, vars, x) == CGet(Frames(f, cs.frames), s1, vars, x)
  {
    var fs := Frames(f, cs.frames);
    forall x
      ensures CGet(fs, s, vars, x).Some? == CGet(fs, s1, vars, x).Some?
      ensures x != "loop" || f.kind != KLoop ==> CGet(fs, s, vars, x) == CGet(fs, s1, vars, x)
    {
      CGetStable(cs.frames, s, s1, vars, cs.tmpN, cs.frameN, x);
      assert x in f.order && x in LocalsOf(s, f.id).flags ==> CGet(fs, s, vars, x) == Some(OwnVal(f, s, x));
      assert x in f.order && x in LocalsOf(s, f.id).flags ==> CGet(fs, s1, vars, x) == Some(OwnVal(f, s1, x));
    }
  }

  // ----- the binds of an iteration -----

  ghost predicate Element(p: nat, i: nat, ps: seq<(string, Value)>, k: nat, s: State) {
    k < |ps| && Tmp(s, p) == Arr(ps) && Tmp(s, i) == Int(k)
  }

  lemma ElementVal(p: nat, i: nat, ps: seq<(string, Value)>, k: nat, s: State, vars: Vars)
    requires Element(p, i, ps, k, s)
    ensures GVal(GElem(p, i, 0), s, vars) == ps[k].1 && GVal(GKey(p, i), s, vars) == KeyValue(ps[k].0)
  {
  }

  ghost predicate Targets(t1: string, t2: Option<string>, fs: Frames) {
    && fs.Frames? && t1 in fs.f.order && Bindable(fs, t1)
    && (t2.Some? ==> t2.value in fs.f.order && Bindable(fs, t2.value))
  }

  // The emitted target binds are the interpreter's.
  lemma RunTargets(t1: string, t2: Option<string>, p: nat, i: nat, ps: seq<(string, Value)>, k: nat, cs: CS, sc: Scope,
                   s: State, vars: Vars, skip: set<string>) returns (s': State, left: set<string>)
    requires cs.frames.Frames? && StackOK(cs.frames, cs.tmpN, cs.frameN) && Agree(sc, cs.frames, s, vars, skip)
    requires skip <= {"loop"} && cs.cond == 0 && Targets(t1, t2, cs.frames) && Element(p, i, ps, k, s)
    ensures var r := LowerTargets(t1, t2, p, i, cs);
      && Run(r.code, s, vars) == ROk(s') && s'.tmps == s.tmps && s'.out == s.out && Keep(s, s', cs)
      && left <= skip && Agree(BindTargets(sc, t1, t2, ps[k]), r.cs.frames, s', vars, left)
  {
    ElementVal(p, i, ps, k, s, vars);
    if t2.None? {
      s' := RunBind(t1, GElem(p, i, 0), cs, sc, s, vars, skip);
      left := skip - {t1};
    } else {
      var a := BindName(t1, GKey(p, i), cs);
      var s1 := RunBind(t1, GKey(p, i), cs, sc, s, vars, skip);
      StackEvolves(cs, a.cs);
      ElementVal(p, i, ps, k, s1, vars);
      s' := RunBind(t2.value, GElem(p, i, 0), a.cs, SetName(sc, t1, KeyValue(ps[k].0)), s1, vars, skip - {t1});
      left := skip - {t1} - {t2.value};
      RunAppend(a.code, BindName(t2.value, GElem(p, i, 0), a.cs).code, s, vars);
      KeepTrans(s, s1, s', cs, a.cs);
    }
  }

  lemma Widen(sc: Scope, fs: Frames, s: State, vars: Vars, skip: set<string>)
    requires Agree(sc, fs, s, vars, skip) && skip <= {"loop"}
    ensures Agree(sc, fs, s, vars, {"loop"})
  {
  }

  // The inline bind of loop: the order and the flag, no value.
  function InlineBind(f: CFrame): Code {
    (if HasOrd(f) then [Branch(CNoFlag("loop", f.id), [AddOrd("loop", f.id)], [])] else [])
    + [SetFlag("loop", f.id)]
  }

  lemma RunInlineBind(f: CFrame, s: State, vars: Vars) returns (s': State)
    requires "loop" in f.order && f.kind == KLoop
    ensures Run(InlineBind(f), s, vars) == ROk(s')
    ensures var a := AfterOrder("loop", f, s, vars);
      s' == PutLocals(a, f.id, LocalsOf(a, f.id).(flags := LocalsOf(s, f.id).flags + {"loop"}))
  {
    var ord := [Branch(CNoFlag("loop", f.id), [AddOrd("loop", f.id)], [])];
    var a := AfterOrder("loop", f, s, vars);
    RunOne(AddOrd("loop", f.id), s, vars);
    RunOne(ord[0], s, vars);
    RunAppend(ord, [SetFlag("loop", f.id)], s, vars);
    RunOne(SetFlag("loop", f.id), a, vars);
    s' := Step(SetFlag("loop", f.id), a, vars).s;
  }

  // The locals after an inline bind of loop: one flag more, perhaps one order entry more.
  lemma InlineState(f: CFrame, s: State, s': State, vars: Vars)
    requires f.kind == KLoop
    requires var a := AfterOrder("loop", f, s, vars);
      s' == PutLocals(a, f.id, LocalsOf(a, f.id).(flags := LocalsOf(s, f.id).flags + {"loop"}))
    ensures s'.tmps == s.tmps && s'.out == s.out && s'.qNames == s.qNames
    ensures forall id: nat | id != f.id ::
      LocalsOf(s', id) == LocalsOf(s, id) == LocalsOf(AfterOrder("loop", f, s, vars), id)
    ensures LocalsOf(s', f.id).flags == LocalsOf(s, f.id).flags + {"loop"} && LocalsOf(s', f.id).vals
        == LocalsOf(s, f.id).vals
    ensures LocalsOf(s', f.id).ord == LocalsOf(AfterOrder("loop", f, s, vars), f.id).ord
  {
  }

  lemma InlineWritten(fs: Frames, g: CFrame, s: State, a: State, s': State, vars: Vars, n: nat, m: nat)
    requires StackOK(fs, n, m) && InlineFrame(fs.f) && "loop" in fs.f.order && g == MarkEver(fs.f, "loop")
    requires a.tmps == s'.tmps == s.tmps && a.qNames == s'.qNames == s.qNames
    requires forall id: nat | id != fs.f.id :: LocalsOf(s', id) == LocalsOf(s, id) == LocalsOf(a, id)
    requires LocalsOf(s', fs.f.id).flags == LocalsOf(s, fs.f.id).flags + {"loop"}
    requires LocalsOf(s', fs.f.id).vals == LocalsOf(s, fs.f.id).vals && LocalsOf(s', fs.f.id).ord
        == LocalsOf(a, fs.f.id).ord
    requires CNames(fs, a, vars) == AddName(CNames(fs, s, vars), "loop")
    ensures Written(fs, Frames(g, fs.below), s, s', vars, "loop", OwnVal(fs.f, s, "loop"))
  {
    FlagNames(fs, Frames(g, fs.below), a, s', vars, n, m);
  }

  lemma InlineAgree(fs: Frames, g: CFrame, sc: Scope, s: State, s': State, v: Value, vars: Vars, n: nat, m: nat)
    requires StackOK(fs, n, m) && Agree(sc, fs, s, vars, {"loop"}) && InlineFrame(fs.f) && "loop" in fs.f.order
    requires g == MarkEver(fs.f, "loop")
    requires var a := AfterOrder("loop", fs.f, s, vars);
      s' == PutLocals(a, fs.f.id, LocalsOf(a, fs.f.id).(flags := LocalsOf(s, fs.f.id).flags + {"loop"}))
    requires v == OwnVal(fs.f, s, "loop")
    ensures Agree(SetName(sc, "loop", v), Frames(g, fs.below), s', vars, {})
  {
    BindVisible("loop", sc, fs, s, vars, {"loop"});
    OrderNames("loop", fs, s, vars, n, m);
    InlineState(fs.f, s, s', vars);
    InlineWritten(fs, g, s, AfterOrder("loop", fs.f, s, vars), s', vars, n, m);
    InlineReady(fs.f, g, s, s', vars);
    assert {"loop"} - {"loop"} == {};
    WrittenAgree(sc, fs, Frames(g, fs.below), s, s', vars, {"loop"}, "loop", v, n, m);
  }

  lemma InlineReady(f: CFrame, g: CFrame, s: State, s': State, vars: Vars)
    requires TopReady(f, s, {"loop"}) && OrdReady(f, s) && InlineFrame(f) && g == MarkEver(f, "loop")
        && "loop" in f.order
    requires var a := AfterOrder("loop", f, s, vars);
      s' == PutLocals(a, f.id, LocalsOf(a, f.id).(flags := LocalsOf(s, f.id).flags + {"loop"}))
    ensures TopReady(g, s', {}) && OrdReady(g, s')
  {
  }

  // The per-iteration bind of loop.
  lemma RunLoopBind(li: LoopInfo, cs: CS, sc: Scope, s: State, vars: Vars, ps: seq<(string, Value)>, k: nat,
                    parent: Value)
    returns (s': State)
    requires cs.frames.Frames? && StackOK(cs.frames, cs.tmpN, cs.frameN) && Agree(sc, cs.frames, s, vars, {"loop"})
    requires li.LoopInfo? && Top(cs).loop == li && Top(cs).kind == KLoop && cs.cond == 0
    requires Element(li.pT, li.iT, ps, k, s) && Tmp(s, li.parT) == parent
    ensures var r := LowerLoopBind(li, cs);
      && Run(r.code, s, vars) == ROk(s') && s'.tmps == s.tmps && s'.out == s.out && Keep(s, s', cs)
      && Agree(SetName(sc, "loop", Loop(k, ps, parent)), r.cs.frames, s', vars, {})
  {
    if li.inline {
      s' := RunInlineLoop(li, cs, sc, s, vars, ps, k, parent);
    } else {
      assert GVal(GNewLoop(li.iT, li.pT, li.parT), s, vars) == Loop(k, ps, parent);
      s' := RunBind("loop", GNewLoop(li.iT, li.pT, li.parT), cs, sc, s, vars, {"loop"});
      assert {"loop"} - {"loop"} == {};
    }
  }

  lemma RunInlineLoop(li: LoopInfo, cs: CS, sc: Scope, s: State, vars: Vars, ps: seq<(string, Value)>, k: nat,
                      parent: Value)
    returns (s': State)
    requires cs.frames.Frames? && StackOK(cs.frames, cs.tmpN, cs.frameN) && Agree(sc, cs.frames, s, vars, {"loop"})
    requires li.LoopInfo? && Top(cs).loop == li && Top(cs).kind == KLoop && li.inline
    requires Element(li.pT, li.iT, ps, k, s) && Tmp(s, li.parT) == parent
    ensures Run(InlineBind(Top(cs)), s, vars) == ROk(s') && s'.tmps == s.tmps && s'.out == s.out && Keep(s, s', cs)
    ensures Agree(SetName(sc, "loop", Loop(k, ps, parent)), Frames(MarkEver(Top(cs), "loop"), cs.frames.below), s',
                  vars, {})
  {
    s' := RunInlineBind(Top(cs), s, vars);
    InlineKeep(cs, s, s', vars);
    InlineValue(Top(cs), ps, k, parent, s);
    InlineAgree(cs.frames, MarkEver(Top(cs), "loop"), sc, s, s', Loop(k, ps, parent), vars, cs.tmpN, cs.frameN);
  }

  lemma InlineKeep(cs: CS, s: State, s': State, vars: Vars)
    requires cs.frames.Frames? && Top(cs).kind == KLoop
    requires var a := AfterOrder("loop", Top(cs), s, vars);
      s' == PutLocals(a, Top(cs).id, LocalsOf(a, Top(cs).id).(flags := LocalsOf(s, Top(cs).id).flags + {"loop"}))
    ensures s'.tmps == s.tmps && s'.out == s.out && Keep(s, s', cs)
  {
    InlineState(Top(cs), s, s', vars);
  }

  lemma InlineValue(f: CFrame, ps: seq<(string, Value)>, k: nat, parent: Value, s: State)
    requires f.loop.LoopInfo? && f.kind == KLoop && f.loop.inline
    requires Element(f.loop.pT, f.loop.iT, ps, k, s) && Tmp(s, f.loop.parT) == parent
    ensures OwnVal(f, s, "loop") == Loop(k, ps, parent)
  {
  }

  // ----- the parent probe -----

  lemma RunParent(inline: bool, cs: CS, sc: Scope, s: State, vars: Vars) returns (s': State)
    requires Inv(cs, sc, s, vars) && (!inline ==> LoopClear(cs.frames))
    ensures var r := LowerParent(inline, cs);
      && Run(r.code, s, vars) == ROk(s') && TmpsOnly(s, s', cs.tmpN) && Inv(r.cs, sc, s', vars)
      && r.cs.frames == cs.frames && ParentTmp(inline, cs) < r.cs.tmpN && r.cs.frameN == cs.frameN
      && Tmp(s', ParentTmp(inline, cs)) == Get(sc, "loop").GetOr(Null)
  {
    if inline { s' := RunParentChain(cs, sc, s, vars); } else { s' := RunParentProbe(cs, sc, s, vars); }
  }

  // An inline loop reads its parent into a temporary of its own.
  lemma RunParentChain(cs: CS, sc: Scope, s: State, vars: Vars) returns (s': State)
    requires Inv(cs, sc, s, vars)
    ensures var r := LowerParent(true, cs);
      && Run(r.code, s, vars) == ROk(s') && TmpsOnly(s, s', cs.tmpN) && Inv(r.cs, sc, s', vars)
      && Tmp(s', ParentTmp(true, cs)) == Get(sc, "loop").GetOr(Null)
  {
    InvGet(cs, sc, s, vars, "loop");
    ParentWithin(cs.frames, cs.tmpN, cs.frameN);
    ParentGet(cs.frames, s, vars, cs.tmpN, cs.frameN);
    s' := RunProbeCode(ParentChain(cs.frames), "loop", s, vars, cs.tmpN);
    InvTmps(cs, Fresh(cs, 2), sc, s, s', vars);
  }

  lemma RunParentProbe(cs: CS, sc: Scope, s: State, vars: Vars) returns (s': State)
    requires Inv(cs, sc, s, vars) && LoopClear(cs.frames)
    ensures var r := LowerParent(false, cs);
      && Run(r.code, s, vars) == ROk(s') && TmpsOnly(s, s', cs.tmpN) && Inv(r.cs, sc, s', vars)
      && Tmp(s', ParentTmp(false, cs)) == Get(sc, "loop").GetOr(Null)
  {
    InvGet(cs, sc, s, vars, "loop");
    var p := Probe("loop", cs);
    var s1 := RunProbe("loop", cs, s, vars);
    RunAppend(p.code, [SetTmp(p.cs.tmpN, p.g)], s, vars);
    RunOne(SetTmp(p.cs.tmpN, p.g), s1, vars);
    s' := PutTmp(s1, p.cs.tmpN, GVal(p.g, s1, vars));
    InvTmps(cs, Fresh(p.cs, 1), sc, s, s', vars);
  }
}
