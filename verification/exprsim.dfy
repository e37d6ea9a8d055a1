/** Expressions: the lowered code computes what the interpreter evaluates, or raises its error. */
module ExprSim {
  import opened Values
  import opened Syntax
  import opened Scopes
  import opened Interp
  import opened Scan
  import opened Target
  import opened Lowering
  import opened Agreement
  import opened Resolution
  import opened BindSim
  import opened Safety

  // The code of a lowered expression simulates an evaluation.
  ghost predicate SimR(le: LE, er: EvalR, cs: CS, s: State, s': State, vars: Vars)
    requires cs.frames.Frames?
  {
    match er
    case EFail(x) => Run(le.code, s, vars) == RFail(x, s.out)
    case EOk(v, sc') =>
      && Run(le.code, s, vars) == ROk(s')
      && Inv(le.cs, sc', s', vars)
      && GVal(le.g, s', vars) == v && Within(le.g, le.cs.tmpN)
      && Keep(s, s', cs) && s'.out == s.out
  }

  // ----- composing steps -----

  lemma KeepTrans(a: State, b: State, c: State, cs: CS, cs1: CS)
    requires Evolves(cs, cs1) && Keep(a, b, cs) && Keep(b, c, cs1)
    ensures Keep(a, c, cs)
  {
  }

  lemma KeepTmps(a: State, b: State, cs: CS)
    requires cs.frames.Frames? && TmpsOnly(a, b, cs.tmpN)
    ensures Keep(a, b, cs)
  {
  }

  lemma SpilledKeep(g: GExpr, a: State, b: State, cs: CS, vars: Vars)
    requires cs.frames.Frames? && Spilled(g) && Within(g, cs.tmpN) && Keep(a, b, cs)
    ensures GVal(g, a, vars) == GVal(g, b, vars)
  {
  }

  // Writing one fresh temporary.
  lemma PutFresh(cs: CS, k: nat, sc: Scope, s: State, t: nat, v: Value, vars: Vars)
    requires Inv(cs, sc, s, vars) && cs.tmpN <= t
    ensures Inv(Fresh(cs, k), sc, PutTmp(s, t, v), vars)
    ensures Keep(s, PutTmp(s, t, v), cs)
  {
    TmpsPut(s, t, v, cs.tmpN);
    InvTmps(cs, Fresh(cs, k), sc, s, PutTmp(s, t, v), vars);
  }

  lemma RunSpill(g: GExpr, cs: CS, sc: Scope, s: State, vars: Vars) returns (s': State)
    requires Inv(cs, sc, s, vars) && Within(g, cs.tmpN)
    ensures var p := Spill(g, cs);
      && Run(p.code, s, vars) == ROk(s') && Inv(p.cs, sc, s', vars) && Evolves(cs, p.cs)
      && GVal(p.g, s', vars) == GVal(g, s, vars) && Spilled(p.g) && Within(p.g, p.cs.tmpN)
      && Keep(s, s', cs) && s'.out == s.out
  {
    s' := s;
    if !Spilled(g) {
      s' := PutTmp(s, cs.tmpN, GVal(g, s, vars));
      RunOne(SetTmp(cs.tmpN, g), s, vars);
      PutFresh(cs, 1, sc, s, cs.tmpN, GVal(g, s, vars), vars);
    }
  }

  // A simulated expression followed by a spill of its value.
  lemma SimSpill(le: LE, er: EvalR, cs: CS, s: State, s1: State, vars: Vars) returns (s': State)
    requires cs.frames.Frames? && Evolves(cs, le.cs) && SimR(le, er, cs, s, s1, vars)
    ensures var p := Spill(le.g, le.cs);
      && Evolves(cs, p.cs) && SimR(LE(le.code + p.code, p.g, p.cs), er, cs, s, s', vars)
      && (er.EOk? ==> Spilled(p.g))
  {
    var p := Spill(le.g, le.cs);
    RunAppend(le.code, p.code, s, vars);
    s' := s1;
    if er.EOk? {
      s' := RunSpill(le.g, le.cs, er.sc, s1, vars);
      KeepTrans(s, s1, s', cs, le.cs);
    }
  }

  // ----- names -----

  lemma HintSnoc(hs: seq<Hint>, h: Hint, s: State, vars: Vars)
    ensures HintNames(hs + [h], s, vars) == AddHint(HintNames(hs, s, vars), h, s, vars)
  {
    assert (hs + [h])[..|hs|] == hs;
  }

  // The emitted hint lists exactly the visible names.
  lemma {:induction false} HintsNames(fs: Frames, s: State, vars: Vars)
    ensures HintNames(HintParts(fs), s, vars) == CNames(fs, s, vars)
    decreases fs, 1
  {
    if fs.Frames? {
      HintsBase(fs, s, vars);
      HintSnoc(HintBase(fs), HOrd(fs.f.id), s, vars);
    }
  }

  lemma {:induction false} HintsBase(fs: Frames, s: State, vars: Vars)
    requires fs.Frames?
    ensures HintNames(HintBase(fs), s, vars) == CBase(fs, s, vars)
    decreases fs, 0
  {
    HintSnoc([], HRoot, s, vars);
    HintSnoc([], HWith(fs.f.withG), s, vars);
    assert [] + [HRoot] == [HRoot] && [] + [HWith(fs.f.withG)] == [HWith(fs.f.withG)];
    if !Cut(fs.f) {
      HintsNames(fs.below, s, vars);
      HintSnoc(HintParts(fs.below), HWith(fs.f.withG), s, vars);
    }
  }

  lemma SimName(x: string, absent: bool, cs: CS, plan: Plan, sc: Scope, s: State, vars: Vars) returns (s': State)
    requires Inv(cs, sc, s, vars) && Readable(cs.frames, x)
    ensures SimR(ReadName(x, cs, absent, plan), EvalName(x, sc, absent, plan.lenient), cs, s, s', vars)
  {
    var p := Probe(x, cs);
    InvGet(cs, sc, s, vars, x);
    s' := RunProbe(x, cs, s, vars);
    InvTmps(cs, p.cs, sc, s, s', vars);
    KeepTmps(s, s', cs);
    if !(Terminal(cs.frames, x) || absent || plan.lenient) {
      var miss := Branch(CFalsy(GTmp(cs.tmpN + 1)), [Raise(x, HintParts(cs.frames))], []);
      RunAppend(p.code, [miss], s, vars);
      RunOne(miss, s', vars);
      SimMiss(x, cs, sc, s', vars);
    }
  }

  // The undefined-name error carries the names the interpreter lists.
  lemma SimMiss(x: string, cs: CS, sc: Scope, s: State, vars: Vars)
    requires Inv(Fresh(cs, 2), sc, s, vars) && Tmp(s, cs.tmpN + 1) == Bool(Get(sc, x).Some?)
    ensures Step(Branch(CFalsy(GTmp(cs.tmpN + 1)), [Raise(x, HintParts(cs.frames))], []), s, vars)
         == if Get(sc, x).Some? then ROk(s) else RFail(UndefinedName(x, Names(sc)), s.out)
  {
    RunOne(Raise(x, HintParts(cs.frames)), s, vars);
    HintsNames(cs.frames, s, vars);
    assert Agree(sc, cs.frames, s, vars, {});
    assert CVal(CFalsy(GTmp(cs.tmpN + 1)), s, vars) == Get(sc, x).None?;
  }

  // ----- inline loop reads -----

  // The loop value of an inline loop frame, held in its counter.
  ghost function LoopVal(f: CFrame, s: State): Value
    requires f.loop.LoopInfo?
  {
    Loop(CounterAt(s, f.loop.iT), PairsAt(s, f.loop.pT), Tmp(s, f.loop.parT))
  }

  lemma {:induction false} FirstLoopGet(fs: Frames, s: State, vars: Vars, n: nat, m: nat)
    requires Ready(fs, s, vars) && StackOK(fs, n, m) && FirstLoop(fs).Frames?
    ensures var t := FirstLoop(fs);
      && InlineFrame(t.f) && CGet(fs, s, vars, "loop") == Some(LoopVal(t.f, s))
      && Ready(t, s, vars) && StackOK(t, n, m)
  {
    if fs.f.kind != KLoop {
      FirstLoopGet(fs.below, s, vars, n, fs.f.id - 1);
      StackWiden(FirstLoop(fs.below), n, fs.f.id - 1, n, m);
    }
  }

  // loop.parent... evaluates to the loop value of the frame it statically resolves to.
  lemma {:induction false} ReadValue(e: Expr, absent: bool, lenient: bool, sc: Scope, fs: Frames, s: State, vars: Vars,
                                     n: nat, m: nat)
    requires sc.Scope? && Ready(fs, s, vars) && StackOK(fs, n, m) && ReadTarget(e, fs).Frames?
    requires Get(sc, "loop") == CGet(fs, s, vars, "loop")
    ensures var t := ReadTarget(e, fs);
      && InlineFrame(t.f) && Eval(e, sc, absent, lenient) == EOk(LoopVal(t.f, s), sc)
      && Ready(t, s, vars) && StackOK(t, n, m)
  {
    match e {
      case Name(x) => FirstLoopGet(fs, s, vars, n, m);
      case Attr(_, r, _, _) =>
        ReadValue(r, absent, lenient, sc, fs, s, vars, n, m);
        ReadParent(ReadTarget(r, fs), absent, s, vars, n, m);
    }
  }

  // The parent of an inline loop's value is the loop value of the first loop below it.
  lemma ReadParent(t: Frames, absent: bool, s: State, vars: Vars, n: nat, m: nat)
    requires Ready(t, s, vars) && StackOK(t, n, m) && InlineFrame(t.f) && FirstLoop(t.below).Frames?
    ensures var p := FirstLoop(t.below);
      && InlineFrame(p.f) && Ready(p, s, vars) && StackOK(p, n, m)
      && AttrOf(LoopVal(t.f, s), "parent", false, absent) == Ok(LoopVal(p.f, s))
  {
    FirstLoopGet(t.below, s, vars, n, t.f.id - 1);
    StackWiden(FirstLoop(t.below), n, t.f.id - 1, n, m);
  }

  lemma {:induction false} FirstLoopShape(fs: Frames)
    ensures FirstLoop(Shape(fs)) == Shape(FirstLoop(fs))
  {
    if fs.Frames? { FirstLoopShape(fs.below); }
  }

  lemma {:induction false} ReadShape(e: Expr, fs: Frames)
    ensures ReadTarget(e, Shape(fs)) == Shape(ReadTarget(e, fs))
  {
    match e {
      case Name(_) => FirstLoopShape(fs);
      case Attr(_, r, _, _) =>
        ReadShape(r, fs);
        if ReadTarget(r, fs).Frames? { FirstLoopShape(ReadTarget(r, fs).below); }
      case _ =>
    }
  }

  lemma {:induction false} FindShape(fs: Frames, node: nat)
    ensures FindFrame(Shape(fs), node) == Shape(FindFrame(fs, node))
    ensures FindLoop(fs, node) == if FindFrame(fs, node).Frames? then FindFrame(fs, node).f.loop else NoLoop
    ensures Suffix(FindFrame(fs, node), fs)
  {
    if fs.Frames? { FindShape(fs.below, node); }
  }

  function Height(fs: Frames): nat { if fs.Bottom? then 0 else 1 + Height(fs.below) }

  predicate Suffix(a: Frames, b: Frames) {
    a == b || (b.Frames? && Suffix(a, b.below))
  }

  lemma {:induction false} SuffixShort(a: Frames, b: Frames)
    requires Suffix(a, b)
    ensures Height(a) <= Height(b)
  {
    if a != b { SuffixShort(a, b.below); }
  }

  lemma {:induction false} SuffixTrans(a: Frames, b: Frames, c: Frames)
    requires Suffix(a, b) && Suffix(b, c)
    ensures Suffix(a, c)
  {
    if b != c { SuffixTrans(a, b, c.below); }
  }

  // Suffixes of one stack are determined by their height.
  lemma {:induction false} SuffixSame(a: Frames, b: Frames, fs: Frames)
    requires Suffix(a, fs) && Suffix(b, fs) && Height(a) == Height(b)
    ensures a == b
  {
    if a == fs { if b != fs { SuffixShort(b, fs.below); } }
    else if b == fs { SuffixShort(a, fs.below); }
    else { SuffixSame(a, b, fs.below); }
  }

  lemma {:induction false} ShapeHeight(fs: Frames)
    ensures Height(Shape(fs)) == Height(fs)
  {
    if fs.Frames? { ShapeHeight(fs.below); }
  }

  lemma {:induction false} FirstSuffix(fs: Frames)
    ensures FirstLoop(fs).Frames? ==> Suffix(FirstLoop(fs), fs)
  {
    if fs.Frames? { FirstSuffix(fs.below); }
  }

  lemma {:induction false} ReadSuffix(e: Expr, fs: Frames)
    ensures ReadTarget(e, fs).Frames? ==> Suffix(ReadTarget(e, fs), fs)
  {
    match e {
      case Name(_) => FirstSuffix(fs);
      case Attr(_, r, _, _) =>
        ReadSuffix(r, fs);
        var t := ReadTarget(r, fs);
        if t.Frames? && ReadTarget(e, fs).Frames? {
          FirstSuffix(t.below);
          SuffixTrans(FirstLoop(t.below), t.below, t);
          SuffixTrans(FirstLoop(t.below), t, fs);
        }
      case _ =>
    }
  }

  // The loop an approved node names is the loop its read resolves to.
  lemma ApprovedLoop(e: Expr, fs: Frames, plan: Plan)
    requires e.Attr? && e.node in plan.approved && ReadOK(e, Shape(fs), plan)
    ensures var t := ReadTarget(e.recv, fs); t.Frames? && FindLoop(fs, plan.approved[e.node].0) == t.f.loop
  {
    var t, g := ReadTarget(e.recv, fs), FindFrame(fs, plan.approved[e.node].0);
    ReadShape(e.recv, fs);
    FindShape(fs, plan.approved[e.node].0);
    ReadSuffix(e.recv, fs);
    ShapeHeight(t);
    ShapeHeight(g);
    SuffixSame(t, g, fs);
  }

  lemma {:induction false} ClearShape(fs: Frames)
    ensures LoopClear(Shape(fs)) == LoopClear(fs)
  {
    if fs.Frames? { ClearShape(fs.below); }
  }

  // ----- member access -----

  lemma PutTwice(s: State, t: nat, a: Value, b: Value)
    ensures PutTmp(PutTmp(s, t, a), t, b) == PutTmp(s, t, b)
  {
    assert s.tmps[t := a][t := b] == s.tmps[t := b];
  }

  ghost function Stored(r: Result<Value>, s: State, t: nat): RunR {
    match r
    case Ok(v) => ROk(PutTmp(s, t, v))
    case Err(e) => RFail(e, s.out)
  }

  // t := null, then an instruction that stores into t.
  lemma RunStore(c: Instr, t: nat, s: State, vars: Vars, r: Result<Value>)
    requires Step(c, PutTmp(s, t, Null), vars) == Stored(r, PutTmp(s, t, Null), t)
    ensures Run([SetTmp(t, GConst(Null)), c], s, vars) == Stored(r, s, t)
  {
    RunTwo(SetTmp(t, GConst(Null)), c, s, vars);
    if r.Ok? { PutTwice(s, t, Null, r.value); }
  }

  lemma RunStrictAttr(g: GExpr, field: string, t: nat, s: State, vars: Vars)
    requires Within(g, t)
    ensures Run([SetTmp(t, GConst(Null)), Branch(CWithHas(g, field), [SetTmp(t, GWithAt(g, field))],
                                                 [CallDot(t, g, field, false)])], s, vars)
         == Stored(AttrOf(GVal(g, s, vars), field, false, false), s, t)
  {
    var s1 := PutTmp(s, t, Null);
    TmpsPut(s, t, Null, t);
    GValStable(g, s, s1, vars, t);
    RunOne(CallDot(t, g, field, false), s1, vars);
    RunOne(SetTmp(t, GWithAt(g, field)), s1, vars);
    RunStore(Branch(CWithHas(g, field), [SetTmp(t, GWithAt(g, field))], [CallDot(t, g, field, false)]), t, s, vars,
             AttrOf(GVal(g, s, vars), field, false, false));
  }

  lemma RunSafeAttr(g: GExpr, field: string, nullSafe: bool, absent: bool, t: nat, s: State, vars: Vars)
    requires Within(g, t) && (nullSafe || absent)
    ensures Run([SetTmp(t, GConst(Null)), Branch(CNotNull(g), [CallDot(t, g, field, absent)], [])], s, vars)
         == Stored(AttrOf(GVal(g, s, vars), field, nullSafe, absent), s, t)
  {
    var s1 := PutTmp(s, t, Null);
    TmpsPut(s, t, Null, t);
    GValStable(g, s, s1, vars, t);
    PutTwice(s, t, Null, Null);
    RunOne(CallDot(t, g, field, absent), s1, vars);
    RunStore(Branch(CNotNull(g), [CallDot(t, g, field, absent)], []), t, s, vars,
             AttrOf(GVal(g, s, vars), field, nullSafe, absent));
  }

  // Storing a result in a fresh temporary simulates lifting it.
  lemma SimStored(code: Code, r: Result<Value>, t: nat, cs: CS, sc: Scope, s: State, vars: Vars) returns (s': State)
    requires Inv(cs, sc, s, vars) && t == cs.tmpN && Run(code, s, vars) == Stored(r, s, t)
    ensures SimR(LE(code, GTmp(t), Fresh(cs, 1)), Lift(r, sc), cs, s, s', vars)
  {
    s' := s;
    if r.Ok? {
      s' := PutTmp(s, t, r.value);
      PutFresh(cs, 1, sc, s, t, r.value, vars);
    }
  }

  // A simulated prefix followed by a simulated continuation.
  lemma SimThen(code: Code, mid: CS, sc1: Scope, s1: State, le: LE, er: EvalR, cs: CS, s: State, s': State, vars: Vars)
    requires cs.frames.Frames? && mid.frames.Frames? && Evolves(cs, mid)
    requires Run(code, s, vars) == ROk(s1) && Keep(s, s1, cs) && s1.out == s.out
    requires SimR(le, er, mid, s1, s', vars)
    ensures SimR(LE(code + le.code, le.g, le.cs), er, cs, s, s', vars)
  {
    RunAppend(code, le.code, s, vars);
    if er.EOk? { KeepTrans(s, s1, s', cs, mid); }
  }

  // The counter arithmetic of an inline read computes the field of the loop value.
  lemma InlineField(f: CFrame, field: string, s: State, vars: Vars)
    requires f.loop.LoopInfo? && field in InlineFields() && field != "prev" && field != "next"
    ensures LoopField(CounterAt(s, f.loop.iT), PairsAt(s, f.loop.pT), Null, field).Some?
    ensures Ok(GVal(GField(f.loop.iT, f.loop.pT, field), s, vars)) == GetDot(LoopVal(f, s), field, false)
  {
  }

  // The neighbouring element, when the guard says there is one.
  lemma NeighbourValue(f: CFrame, next: bool, s: State, s1: State, vars: Vars)
    requires f.loop.LoopInfo?
    requires CounterAt(s1, f.loop.iT) == CounterAt(s, f.loop.iT) && PairsAt(s1, f.loop.pT) == PairsAt(s, f.loop.pT)
    ensures var li := f.loop;
      GetDot(LoopVal(f, s), if next then "next" else "prev", false)
      == Ok(if CVal(if next then CHasNext(li.iT, li.pT) else CHasPrev(li.iT), s1, vars)
            then GVal(GElem(li.pT, li.iT, if next then 1 else -1), s1, vars) else Null)
  {
  }

  lemma InlineNeighbour(f: CFrame, next: bool, t: nat, s: State, vars: Vars)
    requires f.loop.LoopInfo? && f.loop.iT < t && f.loop.pT < t
    ensures var li := f.loop;
      var c := if next then CHasNext(li.iT, li.pT) else CHasPrev(li.iT);
      Run([SetTmp(t, GConst(Null)), Branch(c, [SetTmp(t, GElem(li.pT, li.iT, if next then 1 else -1))], [])], s, vars)
      == Stored(GetDot(LoopVal(f, s), if next then "next" else "prev", false), s, t)
  {
    var li := f.loop;
    var c := if next then CHasNext(li.iT, li.pT) else CHasPrev(li.iT);
    var g := GElem(li.pT, li.iT, if next then 1 else -1);
    var s1 := PutTmp(s, t, Null);
    var i, ps := CounterAt(s, li.iT), PairsAt(s, li.pT);
    assert CounterAt(s1, li.iT) == i && PairsAt(s1, li.pT) == ps;
    RunOne(SetTmp(t, g), s1, vars);
    PutTwice(s, t, Null, Null);
    NeighbourValue(f, next, s, s1, vars);
    RunStore(Branch(c, [SetTmp(t, g)], []), t, s, vars, GetDot(LoopVal(f, s), if next then "next" else "prev", false));
  }

  lemma SimInline(f: CFrame, field: string, cs: CS, sc: Scope, s: State, vars: Vars) returns (s': State)
    requires Inv(cs, sc, s, vars) && field in InlineFields()
    requires f.loop.LoopInfo? && f.loop.iT < cs.tmpN && f.loop.pT < cs.tmpN
    ensures SimR(InlineRead(f.loop, field, cs), Lift(GetDot(LoopVal(f, s), field, false), sc), cs, s, s', vars)
  {
    if field == "prev" || field == "next" {
      InlineNeighbour(f, field == "next", cs.tmpN, s, vars);
      s' := SimStored(InlineRead(f.loop, field, cs).code, GetDot(LoopVal(f, s), field, false), cs.tmpN, cs, sc, s,
                      vars);
    } else {
      InlineField(f, field, s, vars);
      s' := s;
    }
  }

  // The array fast path and the general read agree with the interpreter's member access.
  lemma SimAttr(r: LE, er: EvalR, field: string, nullSafe: bool, absent: bool, cs: CS, s: State, s1: State, vars: Vars)
    returns (s': State)
    requires cs.frames.Frames? && Evolves(cs, r.cs) && SimR(r, er, cs, s, s1, vars)
    ensures SimR(LowerAttr(r, field, nullSafe, absent),
                 if er.EFail? then er else Lift(AttrOf(er.v, field, nullSafe, absent), er.sc),
                 cs, s, s', vars)
  {
    s' := s1;
    var t := r.cs.tmpN;
    if !nullSafe && !absent {
      var tail := [SetTmp(t, GConst(Null)), Branch(CWithHas(r.g, field), [SetTmp(t, GWithAt(r.g, field))],
                                                   [CallDot(t, r.g, field, false)])];
      RunAppend(r.code, tail, s, vars);
      if er.EOk? {
        RunStrictAttr(r.g, field, t, s1, vars);
        s' := SimStored(tail, AttrOf(er.v, field, false, false), t, r.cs, er.sc, s1, vars);
        SimThen(r.code, r.cs, er.sc, s1, LE(tail, GTmp(t), Fresh(r.cs, 1)),
                Lift(AttrOf(er.v, field, false, false), er.sc), cs, s, s', vars);
      }
    } else {
      var s2 := SimSpill(r, er, cs, s, s1, vars);
      var p := Spill(r.g, r.cs);
      var tail := [SetTmp(p.cs.tmpN, GConst(Null)), Branch(CNotNull(p.g), [CallDot(p.cs.tmpN, p.g, field, absent)],
                                                           [])];
      RunAppend(r.code + p.code, tail, s, vars);
      if er.EOk? {
        RunSafeAttr(p.g, field, nullSafe, absent, p.cs.tmpN, s2, vars);
        s' := SimStored(tail, AttrOf(er.v, field, nullSafe, absent), p.cs.tmpN, p.cs, er.sc, s2, vars);
        SimThen(r.code + p.code, p.cs, er.sc, s2, LE(tail, GTmp(p.cs.tmpN), Fresh(p.cs, 1)),
                Lift(AttrOf(er.v, field, nullSafe, absent), er.sc), cs, s, s', vars);
      }
    }
  }
}
