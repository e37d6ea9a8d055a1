/** Binds: the emitted bind of a name in the current frame is the scope chain's write. */
module BindSim {
  import opened Values
  import opened Scopes
  import opened Target
  import opened Lowering
  import opened Agreement
  import opened Resolution

  // States whose temporaries and locals agree, whatever their name orders.
  ghost predicate SameValues(a: State, b: State) {
    && a.tmps == b.tmps && a.out == b.out
    && (forall id: nat ::
          LocalsOf(a, id).vals == LocalsOf(b, id).vals && LocalsOf(a, id).flags == LocalsOf(b, id).flags)
  }

  lemma {:induction false} GValSame(g: GExpr, a: State, b: State, vars: Vars)
    requires SameValues(a, b)
    ensures GVal(g, a, vars) == GVal(g, b, vars)
  {
    match g {
      case GNot(x) => GValSame(x, a, b, vars);
      case GTruth(x) => GValSame(x, a, b, vars);
      case GXor(x, y) => GValSame(x, a, b, vars); GValSame(y, a, b, vars);
      case GWithAt(m, _) => GValSame(m, a, b, vars);
      case GVar(x, id) => assert LocalsOf(a, id).vals == LocalsOf(b, id).vals;
      case _ =>
    }
  }

  // The order code of a bind: an unbound name enters the frame's order once.
  ghost function AfterOrder(x: string, f: CFrame, s: State, vars: Vars): State {
    var l := LocalsOf(s, f.id);
    if x in l.flags then s
    else if f.kind == KRoot then (if x in vars then s else s.(qNames := s.qNames + [x]))
    else PutLocals(s, f.id, l.(ord := l.ord + [x]))
  }

  lemma RunOrder(x: string, f: CFrame, s: State, vars: Vars, n: nat)
    requires x in f.order && FrameOK(f, n) && TopReady(f, s, {"loop"})
    ensures Run(OrderCode(f, x), s, vars) == ROk(AfterOrder(x, f, s, vars))
  {
    var code := OrderCode(f, x);
    assert f.kind == KRoot && x in LocalsOf(s, f.id).flags ==> x in f.ever;
    if code != [] {
      assert code == [code[0]];
      RunOne(code[0], s, vars);
      RunOne(AddQName(x), s, vars);
      RunOne(Branch(CNotInVars(x), [AddQName(x)], []), s, vars);
      RunOne(AddOrd(x, f.id), s, vars);
    }
  }

  lemma OrderNames(x: string, fs: Frames, s: State, vars: Vars, n: nat, m: nat)
    requires StackOK(fs, n, m) && x in fs.f.order
    requires x in LocalsOf(s, fs.f.id).flags || (fs.f.kind == KRoot && x in vars) ==> x in CNames(fs, s, vars)
    requires fs.f.kind == KRoot && x !in LocalsOf(s, fs.f.id).flags && x !in vars ==> x !in CNames(fs, s, vars)
    ensures CNames(fs, AfterOrder(x, fs.f, s, vars), vars) == AddName(CNames(fs, s, vars), x)
  {
    var f := fs.f;
    var s1 := AfterOrder(x, f, s, vars);
    if f.kind != KRoot && x !in LocalsOf(s, f.id).flags {
      CNamesStable(fs.below, s, s1, vars, n, f.id - 1);
      assert CBase(fs, s1, vars) == CBase(fs, s, vars);
      AddNamesSnoc(CBase(fs, s, vars), LocalsOf(s, f.id).ord, x);
    }
  }

  // b is the state after the order, value and flag writes of a bind from s.
  ghost predicate Bound(x: string, v: Value, f: CFrame, s: State, b: State, vars: Vars) {
    var a := AfterOrder(x, f, s, vars);
    && b.tmps == s.tmps && b.out == s.out
    && (forall id: nat | id != f.id :: LocalsOf(s, id) == LocalsOf(b, id))
    && LocalsOf(b, f.id).flags == LocalsOf(s, f.id).flags + {x}
    && LocalsOf(b, f.id).vals == LocalsOf(s, f.id).vals[x := v]
    && LocalsOf(b, f.id).ord == LocalsOf(a, f.id).ord && b.qNames == a.qNames
  }

  function TailCode(x: string, g: GExpr, f: CFrame): Code {
    [SetVar(x, f.id, g)] + (if x in f.definite then [] else [SetFlag(x, f.id)])
  }

  lemma RunTail(x: string, g: GExpr, f: CFrame, s: State, vars: Vars)
    requires x in f.order && (x in f.definite ==> x in LocalsOf(s, f.id).flags)
    ensures var l := LocalsOf(s, f.id);
      Run(TailCode(x, g, f), s, vars)
      == ROk(PutLocals(s, f.id, l.(vals := l.vals[x := GVal(g, s, vars)], flags := l.flags + {x})))
  {
    var l := LocalsOf(s, f.id);
    if x in f.definite {
      assert TailCode(x, g, f) == [SetVar(x, f.id, g)];
      RunOne(SetVar(x, f.id, g), s, vars);
      assert l.flags + {x} == l.flags;
    } else {
      RunTwo(SetVar(x, f.id, g), SetFlag(x, f.id), s, vars);
      assert TailCode(x, g, f) == [SetVar(x, f.id, g), SetFlag(x, f.id)];
      var s1 := Step(SetVar(x, f.id, g), s, vars).s;
      assert s1.frames[f.id := LocalsOf(s1, f.id).(flags := l.flags + {x})]
          == s.frames[f.id := l.(vals := l.vals[x := GVal(g, s, vars)], flags := l.flags + {x})];
    }
  }

  lemma TailBound(x: string, v: Value, f: CFrame, s: State, s': State, vars: Vars)
    requires var s1 := AfterOrder(x, f, s, vars); var l := LocalsOf(s1, f.id);
      s' == PutLocals(s1, f.id, l.(vals := l.vals[x := v], flags := l.flags + {x}))
    ensures Bound(x, v, f, s, s', vars)
  {
  }

  lemma BindCode(x: string, g: GExpr, cs: CS)
    requires cs.frames.Frames? && x in Top(cs).order
    ensures BindName(x, g, cs).code == OrderCode(Top(cs), x) + TailCode(x, g, Top(cs))
  {
  }

  lemma RunBindCode(x: string, g: GExpr, cs: CS, s: State, vars: Vars, n: nat) returns (s': State)
    requires cs.frames.Frames? && x in Top(cs).order
    requires FrameOK(Top(cs), n) && TopReady(Top(cs), s, {"loop"})
    ensures Run(BindName(x, g, cs).code, s, vars) == ROk(s')
    ensures Bound(x, GVal(g, s, vars), Top(cs), s, s', vars)
  {
    var f := Top(cs);
    var s1 := AfterOrder(x, f, s, vars);
    var l := LocalsOf(s1, f.id);
    BindCode(x, g, cs);
    RunOrder(x, f, s, vars, n);
    RunAppend(OrderCode(f, x), TailCode(x, g, f), s, vars);
    RunTail(x, g, f, s1, vars);
    OrderSame(x, g, f, s, vars);
    s' := PutLocals(s1, f.id, l.(vals := l.vals[x := GVal(g, s, vars)], flags := l.flags + {x}));
    TailBound(x, GVal(g, s, vars), f, s, s', vars);
  }

  lemma OrderSame(x: string, g: GExpr, f: CFrame, s: State, vars: Vars)
    ensures GVal(g, AfterOrder(x, f, s, vars), vars) == GVal(g, s, vars)
  {
    assert SameValues(s, AfterOrder(x, f, s, vars));
    GValSame(g, s, AfterOrder(x, f, s, vars), vars);
  }

  // What a write to one name of the top frame does to the compiled view.
  ghost predicate Written(fs: Frames, fs': Frames, s: State, s': State, vars: Vars, x: string, v: Value)
    requires fs.Frames? && fs'.Frames?
  {
    var f := fs.f;
    && fs'.below == fs.below
    && fs'.f == f.(definite := fs'.f.definite, ever := fs'.f.ever) && x in f.order
    && s'.tmps == s.tmps
    && (forall id: nat | id != f.id :: LocalsOf(s, id) == LocalsOf(s', id))
    && LocalsOf(s', f.id).flags == LocalsOf(s, f.id).flags + {x}
    && (forall y | y != x :: VarVal(s', y, f.id) == VarVal(s, y, f.id))
    && (f.kind != KRoot ==> s'.qNames == s.qNames)
    && OwnVal(f, s', x) == v
    && CNames(fs', s', vars) == AddName(CNames(fs, s, vars), x)
  }

  lemma WrittenGet(fs: Frames, fs': Frames, s: State, s': State, vars: Vars, x: string, v: Value, n: nat, m: nat,
                   y: string)
    requires fs.Frames? && fs'.Frames? && StackOK(fs, n, m) && Written(fs, fs', s, s', vars, x, v)
    ensures CGet(fs', s', vars, y) == if y == x then Some(v) else CGet(fs, s, vars, y)
  {
    var f := fs.f;
    assert y != x ==> Own(fs'.f, s', vars, y) == Own(f, s, vars, y);
    if fs.below.Frames? {
      CGetStable(fs.below, s, s', vars, n, f.id - 1, y);
    }
  }

  // A write on both sides keeps the agreement, and settles the written name.
  lemma WrittenAgree(sc: Scope, fs: Frames, fs': Frames, s: State, s': State, vars: Vars, skip: set<string>,
                     x: string, v: Value, n: nat, m: nat)
    requires StackOK(fs, n, m) && Agree(sc, fs, s, vars, skip)
    requires fs'.Frames? && Written(fs, fs', s, s', vars, x, v)
    requires TopReady(fs'.f, s', skip - {x}) && OrdReady(fs'.f, s')
    ensures Agree(SetName(sc, x, v), fs', s', vars, skip - {x})
  {
    SetNameFacts(sc, x, v);
    forall y ensures CGet(fs', s', vars, y) == if y == x then Some(v) else CGet(fs, s, vars, y) {
      WrittenGet(fs, fs', s, s', vars, x, v, n, m, y);
    }
    WrittenBelow(sc, fs, fs', s, s', vars, skip, x, v, n, m);
  }

  // The frames below the written one are as they were.
  lemma WrittenBelow(sc: Scope, fs: Frames, fs': Frames, s: State, s': State, vars: Vars, skip: set<string>,
                     x: string, v: Value, n: nat, m: nat)
    requires StackOK(fs, n, m) && Agree(sc, fs, s, vars, skip)
    requires fs'.Frames? && Written(fs, fs', s, s', vars, x, v)
    ensures !Cut(fs.f) ==> Tracks(sc.parent, fs.below, s', vars, {})
    ensures InlineFrame(fs.f) ==> Tmp(s', fs.f.loop.parT) == CGet(fs.below, s', vars, "loop").GetOr(Null)
  {
    if fs.below.Frames? {
      CGetStable(fs.below, s, s', vars, n, fs.f.id - 1, "loop");
    }
    if !Cut(fs.f) {
      AgreeStable(sc.parent, fs.below, s, s', vars, {}, n, fs.f.id - 1);
    }
  }

  // A bound name of the top frame is visible, so its order code keeps the name list right.
  lemma BindVisible(x: string, sc: Scope, fs: Frames, s: State, vars: Vars, skip: set<string>)
    requires Agree(sc, fs, s, vars, skip) && x in fs.f.order
    ensures x in LocalsOf(s, fs.f.id).flags || (fs.f.kind == KRoot && x in vars) ==> x in CNames(fs, s, vars)
    ensures fs.f.kind == KRoot && x !in LocalsOf(s, fs.f.id).flags && x !in vars ==> x !in CNames(fs, s, vars)
  {
    NamesGet(sc, x);
    assert x in LocalsOf(s, fs.f.id).flags ==> Own(fs.f, s, vars, x).Some?;
  }

  // The top frame after some write of x: more may be known of x, nothing of other names.
  ghost predicate Marked(f: CFrame, g: CFrame, x: string) {
    && g == f.(definite := g.definite, ever := g.ever)
    && f.definite <= g.definite <= f.definite + {x} && g.ever == f.ever + {x}
  }

  lemma BindWritten(x: string, v: Value, fs: Frames, g: CFrame, s: State, s': State, vars: Vars, n: nat, m: nat)
    requires StackOK(fs, n, m) && Marked(fs.f, g, x)
    requires x in fs.f.order && !(x == "loop" && InlineFrame(fs.f))
    requires CNames(fs, AfterOrder(x, fs.f, s, vars), vars) == AddName(CNames(fs, s, vars), x)
    requires Bound(x, v, fs.f, s, s', vars)
    ensures Written(fs, Frames(g, fs.below), s, s', vars, x, v)
  {
    FlagNames(fs, Frames(g, fs.below), AfterOrder(x, fs.f, s, vars), s', vars, n, m);
  }

  lemma BindReady(x: string, v: Value, f: CFrame, g: CFrame, s: State, s': State, vars: Vars, skip: set<string>)
    requires x in f.order && !(x == "loop" && InlineFrame(f)) && Marked(f, g, x)
    requires TopReady(f, s, skip) && OrdReady(f, s) && skip <= {"loop"} && (x in skip ==> x in g.definite)
    requires Bound(x, v, f, s, s', vars)
    ensures TopReady(g, s', skip - {x}) && OrdReady(g, s')
  {
  }

  // A write of x to the top frame on both sides.
  lemma BoundAgree(x: string, v: Value, sc: Scope, fs: Frames, g: CFrame, s: State, s': State, vars: Vars,
                   skip: set<string>, n: nat, m: nat)
    requires StackOK(fs, n, m) && Agree(sc, fs, s, vars, skip) && Marked(fs.f, g, x)
    requires x in fs.f.order && !(x == "loop" && InlineFrame(fs.f)) && skip <= {"loop"}
        && (x in skip ==> x in g.definite)
    requires Bound(x, v, fs.f, s, s', vars)
    ensures Agree(SetName(sc, x, v), Frames(g, fs.below), s', vars, skip - {x})
  {
    BindVisible(x, sc, fs, s, vars, skip);
    OrderNames(x, fs, s, vars, n, m);
    BindWritten(x, v, fs, g, s, s', vars, n, m);
    BindReady(x, v, fs.f, g, s, s', vars, skip);
    WrittenAgree(sc, fs, Frames(g, fs.below), s, s', vars, skip, x, v, n, m);
  }

  lemma BoundKeep(x: string, v: Value, cs: CS, s: State, s': State, vars: Vars)
    requires cs.frames.Frames? && Bound(x, v, Top(cs), s, s', vars)
    ensures s'.tmps == s.tmps && s'.out == s.out && Keep(s, s', cs)
  {
  }

  lemma BindStart(cs: CS, sc: Scope, s: State, vars: Vars, skip: set<string>)
    requires cs.frames.Frames? && StackOK(cs.frames, cs.tmpN, cs.frameN) && Agree(sc, cs.frames, s, vars, skip)
        && skip <= {"loop"}
    ensures FrameOK(Top(cs), cs.tmpN) && TopReady(Top(cs), s, {"loop"})
  {
  }

  lemma BindMarks(x: string, g: GExpr, cs: CS, skip: set<string>)
    requires cs.frames.Frames? && x in Top(cs).order && (x in skip ==> cs.cond == 0)
    ensures BindName(x, g, cs).cs.frames == Frames(MarkBound(Top(cs), x, cs.cond), cs.frames.below)
    ensures Marked(Top(cs), MarkBound(Top(cs), x, cs.cond), x)
    ensures x in skip ==> x in MarkBound(Top(cs), x, cs.cond).definite
  {
  }

  // The code of a bind simulates the scope write.
  lemma RunBind(x: string, g: GExpr, cs: CS, sc: Scope, s: State, vars: Vars, skip: set<string>) returns (s': State)
    requires cs.frames.Frames? && StackOK(cs.frames, cs.tmpN, cs.frameN) && Agree(sc, cs.frames, s, vars, skip)
    requires x in Top(cs).order && !(x == "loop" && InlineFrame(Top(cs))) && skip <= {"loop"}
    requires x in skip ==> cs.cond == 0
    ensures Run(BindName(x, g, cs).code, s, vars) == ROk(s')
    ensures s'.tmps == s.tmps && s'.out == s.out && Keep(s, s', cs)
    ensures Agree(SetName(sc, x, GVal(g, s, vars)), BindName(x, g, cs).cs.frames, s', vars, skip - {x})
  {
    BindStart(cs, sc, s, vars, skip);
    BindMarks(x, g, cs, skip);
    s' := RunBindCode(x, g, cs, s, vars, cs.tmpN);
    BoundKeep(x, GVal(g, s, vars), cs, s, s', vars);
    BoundAgree(x, GVal(g, s, vars), sc, cs.frames, MarkBound(Top(cs), x, cs.cond), s, s', vars, skip, cs.tmpN,
               cs.frameN);
  }

  // Value and flag writes to the top frame leave the visible names alone.
  lemma FlagNames(fs: Frames, fs': Frames, a: State, b: State, vars: Vars, n: nat, m: nat)
    requires StackOK(fs, n, m) && fs'.Frames?
    requires fs'.below == fs.below && fs'.f == fs.f.(definite := fs'.f.definite, ever := fs'.f.ever)
    requires b.tmps == a.tmps && b.qNames == a.qNames && LocalsOf(b, fs.f.id).ord == LocalsOf(a, fs.f.id).ord
    requires forall id: nat | id != fs.f.id :: LocalsOf(a, id) == LocalsOf(b, id)
    ensures CNames(fs', b, vars) == CNames(fs, a, vars)
  {
    FlagBase(fs, fs', a, b, vars, n, m);
  }

  lemma FlagBase(fs: Frames, fs': Frames, a: State, b: State, vars: Vars, n: nat, m: nat)
    requires StackOK(fs, n, m) && fs'.Frames?
    requires fs'.below == fs.below && fs'.f == fs.f.(definite := fs'.f.definite, ever := fs'.f.ever)
    requires b.tmps == a.tmps && b.qNames == a.qNames
    requires forall id: nat | id != fs.f.id :: LocalsOf(a, id) == LocalsOf(b, id)
    ensures CBase(fs', b, vars) == CBase(fs, a, vars)
  {
    if fs.below.Frames? { CNamesStable(fs.below, a, b, vars, n, fs.f.id - 1); }
  }
}
