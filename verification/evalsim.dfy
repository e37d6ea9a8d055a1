/** The simulation of expression evaluation, by structure of the expression. */
module EvalSim {
  import opened Values
  import opened Syntax
  import opened Scopes
  import opened Interp
  import opened Scan
  import opened Target
  import opened Lowering
  import opened Agreement
  import opened Resolution
  import opened BindSim
  import opened Safety
  import opened ExprSim
  import opened ContextSim

  // How far lowering may have moved on, whatever became definite.
  ghost predicate Grows(a: CS, b: CS) {
    && a.frames.Frames? && b.frames.Frames? && b.frames.below == a.frames.below
    && FrameGrows(a.frames.f, b.frames.f) && a.tmpN <= b.tmpN && a.frameN <= b.frameN
  }

  // Writing a temporary minted earlier in the same lowering.
  lemma PutOlder(cs0: CS, cs: CS, sc: Scope, s: State, t: nat, v: Value, vars: Vars)
    requires cs0.frames.Frames? && StackOK(cs0.frames, cs0.tmpN, cs0.frameN) && Grows(cs0, cs)
    requires Inv(cs, sc, s, vars) && cs0.tmpN <= t
    ensures Inv(cs, sc, PutTmp(s, t, v), vars) && Keep(s, PutTmp(s, t, v), cs0)
  {
    TmpsPut(s, t, v, cs0.tmpN);
    assert SameUpTo(s, PutTmp(s, t, v), cs0.tmpN, cs0.frameN);
    AgreeStable(sc, cs.frames, s, PutTmp(s, t, v), vars, {}, cs0.tmpN, cs0.frameN);
  }

  // A conditional region leaves definiteness alone, so skipping it keeps the invariant.
  lemma InvSkip(a: CS, b: CS, sc: Scope, s: State, vars: Vars)
    requires Inv(a, sc, s, vars) && Evolves(Deeper(a), b)
    ensures Inv(Shallower(b, a.cond), sc, s, vars)
  {
    InvLater(a, Shallower(b, a.cond), sc, s, vars);
  }

  ghost function WrapVal(wrap: bool, v: Value): Value { if wrap then Bool(Truthy(v)) else v }

  function WrapG(wrap: bool, g: GExpr): GExpr { if wrap then GTruth(g) else g }

  // Code that leaves its value in the older temporary arr, or raises the error.
  ghost predicate SimAcc(code: Code, next: CS, er: EvalR, arr: nat, cs0: CS, s: State, s': State, vars: Vars)
    requires cs0.frames.Frames?
  {
    match er
    case EFail(x) => Run(code, s, vars) == RFail(x, s.out)
    case EOk(v, sc') =>
      && Run(code, s, vars) == ROk(s') && Inv(next, sc', s', vars) && Tmp(s', arr) == v
      && Keep(s, s', cs0) && s'.out == s.out
  }

  // The result collected in the temporary next to be minted, cleared first.
  lemma Collected(code: Code, next: CS, er: EvalR, cs: CS, sc: Scope, s: State, s': State, vars: Vars)
    requires Inv(cs, sc, s, vars) && cs.tmpN < next.tmpN
    requires SimAcc(code, next, er, cs.tmpN, cs, PutTmp(s, cs.tmpN, Arr([])), s', vars)
    ensures SimR(LE([SetTmp(cs.tmpN, GConst(Arr([])))] + code, GTmp(cs.tmpN), next), er, cs, s, s', vars)
  {
    PutFresh(cs, 1, sc, s, cs.tmpN, Arr([]), vars);
    RunOne(SetTmp(cs.tmpN, GConst(Arr([]))), s, vars);
    RunAppend([SetTmp(cs.tmpN, GConst(Arr([])))], code, s, vars);
  }

  lemma Branched(c: Cond, thn: Code, els: Code, next: CS, er: EvalR, t: nat, cs: CS, s: State, s': State, vars: Vars)
    requires cs.frames.Frames? && t < next.tmpN
    requires SimAcc(if CVal(c, s, vars) then thn else els, next, er, t, cs, s, s', vars)
    ensures SimR(LE([Branch(c, thn, els)], GTmp(t), next), er, cs, s, s', vars)
  {
    RunOne(Branch(c, thn, els), s, vars);
  }

  ghost function WrapR(wrap: bool, er: EvalR): EvalR {
    if er.EFail? then er else EOk(WrapVal(wrap, er.v), er.sc)
  }

  // An arm evaluates its operand and stores it in an older temporary.
  lemma SimArm(b: LE, er: EvalR, wrap: bool, t: nat, cs0: CS, start: CS, s: State, sb: State,
               vars: Vars) returns (s': State)
    requires cs0.frames.Frames? && StackOK(cs0.frames, cs0.tmpN, cs0.frameN) && cs0.tmpN <= t
    requires start.frames.Frames? && Evolves(start, b.cs) && cs0.tmpN <= start.tmpN && cs0.frameN <= start.frameN
    requires Grows(cs0, start)
    requires SimR(b, er, start, s, sb, vars)
    ensures SimAcc(b.code + [SetTmp(t, WrapG(wrap, b.g))], b.cs, WrapR(wrap, er), t, cs0, s, s', vars)
  {
    RunAppend(b.code, [SetTmp(t, WrapG(wrap, b.g))], s, vars);
    s' := sb;
    if er.EOk? {
      s' := PutTmp(sb, t, WrapVal(wrap, er.v));
      RunOne(SetTmp(t, WrapG(wrap, b.g)), sb, vars);
      PutOlder(cs0, b.cs, er.sc, sb, t, WrapVal(wrap, er.v), vars);
    }
  }

  ghost function Guarded(taken: bool, v0: Value, sc: Scope, er: EvalR, wrap: bool): EvalR {
    if !taken then EOk(v0, sc) else WrapR(wrap, er)
  }

  // t := g0; if c { t := the right operand }
  lemma SimGuard(t: nat, g0: GExpr, c: Cond, taken: bool, b: LE, er: EvalR, wrap: bool, cs: CS, sc: Scope,
                 s: State, sb: State, vars: Vars) returns (s': State)
    requires Inv(cs, sc, s, vars) && t == cs.tmpN && Evolves(Deeper(Fresh(cs, 1)), b.cs)
    requires CVal(c, PutTmp(s, t, GVal(g0, s, vars)), vars) == taken
    requires taken ==> SimR(b, er, Deeper(Fresh(cs, 1)), PutTmp(s, t, GVal(g0, s, vars)), sb, vars)
    ensures SimR(LE([SetTmp(t, g0), Branch(c, b.code + [SetTmp(t, WrapG(wrap, b.g))], [])], GTmp(t),
                    Shallower(b.cs, cs.cond)),
                 Guarded(taken, GVal(g0, s, vars), sc, er, wrap), cs, s, s', vars)
  {
    var v0 := GVal(g0, s, vars);
    var s1 := PutTmp(s, t, v0);
    PutFresh(cs, 1, sc, s, t, v0, vars);
    RunTwo(SetTmp(t, g0), Branch(c, b.code + [SetTmp(t, WrapG(wrap, b.g))], []), s, vars);
    if taken {
      s' := SimArm(b, er, wrap, t, cs, Deeper(Fresh(cs, 1)), s1, sb, vars);
      if er.EOk? { GuardTaken(cs, b.cs, er.sc, s, s1, s', vars); }
    } else {
      s' := s1;
      InvSkip(Fresh(cs, 1), b.cs, sc, s1, vars);
    }
  }

  lemma GuardTaken(cs: CS, b: CS, sc: Scope, s: State, s1: State, s': State, vars: Vars)
    requires cs.frames.Frames? && Evolves(Deeper(Fresh(cs, 1)), b) && Inv(b, sc, s', vars)
    requires Keep(s, s1, cs) && Keep(s1, s', cs)
    ensures Inv(Shallower(b, cs.cond), sc, s', vars) && Keep(s, s', cs)
  {
  }

  // An expression may be lowered here: its reads of loop are safe and its binds prescanned.
  ghost predicate Pre(e: Expr, cs: CS, plan: Plan) {
    cs.frames.Frames? && SafeE(e, Shape(cs.frames), plan) && Scanned(ExprBinds(e), Top(cs).order)
  }

  ghost predicate Scanned(names: seq<string>, order: seq<string>) {
    forall x :: x in names ==> x in order
  }

  // A simulated expression, then a simulated continuation.
  lemma SimSeq(head: LE, ea: EvalR, tail: LE, et: EvalR, cs: CS, s: State, s1: State, s': State, vars: Vars)
    requires cs.frames.Frames? && Evolves(cs, head.cs)
    requires SimR(head, ea, cs, s, s1, vars)
    requires ea.EOk? ==> SimR(tail, et, head.cs, s1, s', vars)
    ensures SimR(LE(head.code + tail.code, tail.g, tail.cs), if ea.EFail? then ea else et, cs, s, s', vars)
  {
    RunAppend(head.code, tail.code, s, vars);
    if ea.EOk? && et.EOk? { KeepTrans(s, s1, s', cs, head.cs); }
  }

  lemma PreLater(e: Expr, a: CS, b: CS, plan: Plan)
    requires Pre(e, a, plan) && Evolves(a, b)
    ensures Pre(e, b, plan)
  {
    ShapeEvolves(a, b);
  }

  // Every expression lowered in a state that agrees with the scope computes its value, leaves an
  // agreeing state, and raises exactly the interpreter's error.
  lemma {:induction false} SimE(e: Expr, absent: bool, cs: CS, plan: Plan, sc: Scope, s: State, vars: Vars)
    returns (s': State)
    requires Inv(cs, sc, s, vars) && Pre(e, cs, plan)
    ensures SimR(LowerE(e, absent, cs, plan), Eval(e, sc, absent, plan.lenient), cs, s, s', vars)
    decreases e, 3
  {
    match e {
      case Lit(_) => s' := s;
      case Name(x) =>
        ClearShape(cs.frames);
        s' := SimName(x, absent, cs, plan, sc, s, vars);
      case Context => s' := SimContext(cs, plan, sc, s, vars);
      case ListLit(items) => s' := SimList(e, cs, plan, sc, s, vars);
      case MapLit(fields) => s' := SimMap(e, cs, plan, sc, s, vars);
      case Attr(_, _, _, _) => s' := SimAttrE(e, absent, cs, plan, sc, s, vars);
      case _ => s' := SimE2(e, absent, cs, plan, sc, s, vars);
    }
  }

  lemma {:induction false} SimE2(e: Expr, absent: bool, cs: CS, plan: Plan, sc: Scope, s: State, vars: Vars)
    returns (s': State)
    requires Inv(cs, sc, s, vars) && Pre(e, cs, plan)
    requires !e.Lit? && !e.Name? && !e.Context? && !e.ListLit? && !e.MapLit? && !e.Attr?
    ensures SimR(LowerE(e, absent, cs, plan), Eval(e, sc, absent, plan.lenient), cs, s, s', vars)
    decreases e, 2
  {
    match e {
      case Not(_) => s' := SimNot(e, cs, plan, sc, s, vars);
      case Bin(_, _, _) => s' := SimBin(e, cs, plan, sc, s, vars);
      case Logic(_, _, _) =>
        assert Eval(e, sc, absent, plan.lenient) == LogicValue(e, Eval(e.l, sc, false, plan.lenient), plan.lenient);
        s' := SimLogic(e, cs, plan, sc, s, vars);
      case Assign(_, _) => s' := SimAssign(e, cs, plan, sc, s, vars);
      case Ternary(_, _, _) => s' := SimE3(e, absent, cs, plan, sc, s, vars);
      case Coalesce(_, _) => s' := SimE3(e, absent, cs, plan, sc, s, vars);
      case Elvis(_, _) => s' := SimE3(e, absent, cs, plan, sc, s, vars);
    }
  }

  lemma {:induction false} SimE3(e: Expr, absent: bool, cs: CS, plan: Plan, sc: Scope, s: State, vars: Vars)
    returns (s': State)
    requires (e.Ternary? || e.Coalesce? || e.Elvis?) && Inv(cs, sc, s, vars) && Pre(e, cs, plan)
    ensures SimR(LowerE(e, absent, cs, plan), Eval(e, sc, absent, plan.lenient), cs, s, s', vars)
    decreases e, 1, 1
  {
    if e.Ternary? { s' := SimTernary(e, cs, plan, sc, s, vars); } else { s' := SimFallback(e, cs, plan, sc, s, vars); }
  }

  lemma {:induction false} SimNot(e: Expr, cs: CS, plan: Plan, sc: Scope, s: State, vars: Vars) returns (s': State)
    requires e.Not? && Inv(cs, sc, s, vars) && Pre(e, cs, plan)
    ensures SimR(LowerE(e, false, cs, plan), Eval(e, sc, false, plan.lenient), cs, s, s', vars)
    decreases e, 1
  {
    var s1 := SimE(e.e, false, cs, plan, sc, s, vars);
    s' := SimSpill(LowerE(e.e, false, cs, plan), Eval(e.e, sc, false, plan.lenient), cs, s, s1, vars);
  }

  lemma {:induction false} SimAttrE(e: Expr, absent: bool, cs: CS, plan: Plan, sc: Scope, s: State, vars: Vars)
    returns (s': State)
    requires e.Attr? && Inv(cs, sc, s, vars) && Pre(e, cs, plan)
    ensures SimR(LowerE(e, absent, cs, plan), Eval(e, sc, absent, plan.lenient), cs, s, s', vars)
    decreases e, 1
  {
    if e.node in plan.approved {
      s' := SimApproved(e, absent, cs, plan, sc, s, vars);
    } else {
      var s1 := SimE(e.recv, absent, cs, plan, sc, s, vars);
      s' := SimAttr(LowerE(e.recv, absent, cs, plan), Eval(e.recv, sc, absent, plan.lenient),
                    e.field, e.nullSafe, absent, cs, s, s1, vars);
    }
  }

  // An approved inline read equals the member read of the loop value the interpreter binds.
  lemma SimApproved(e: Expr, absent: bool, cs: CS, plan: Plan, sc: Scope, s: State, vars: Vars) returns (s': State)
    requires e.Attr? && e.node in plan.approved && Inv(cs, sc, s, vars) && Pre(e, cs, plan)
    ensures SimR(LowerE(e, absent, cs, plan), Eval(e, sc, absent, plan.lenient), cs, s, s', vars)
  {
    var fs := cs.frames;
    var t := ReadTarget(e.recv, fs);
    ApprovedLoop(e, fs, plan);
    InvGet(cs, sc, s, vars, "loop");
    ReadValue(e.recv, absent, plan.lenient, sc, fs, s, vars, cs.tmpN, cs.frameN);
    s' := SimInline(t.f, e.field, cs, sc, s, vars);
    FieldAbsent(LoopVal(t.f, s), e.field, absent);
  }

  lemma FieldAbsent(v: Value, field: string, absent: bool)
    requires v.Loop? && field in InlineFields()
    ensures GetDot(v, field, absent) == GetDot(v, field, false)
  {
    assert LoopField(v.index0, v.pairs, v.parent, field).Some?;
  }

  lemma {:induction false} SimBin(e: Expr, cs: CS, plan: Plan, sc: Scope, s: State, vars: Vars) returns (s': State)
    requires e.Bin? && Inv(cs, sc, s, vars) && Pre(e, cs, plan)
    ensures SimR(LowerE(e, false, cs, plan), Eval(e, sc, false, plan.lenient), cs, s, s', vars)
    decreases e, 1
  {
    PreBin(e, cs, cs, plan);
    var a, ea := LowerE(e.l, false, cs, plan), Eval(e.l, sc, false, plan.lenient);
    var s1 := SimE(e.l, false, cs, plan, sc, s, vars);
    var s2 := SimSpill(a, ea, cs, s, s1, vars);
    var p := Spill(a.g, a.cs);
    var b := LowerE(e.r, false, p.cs, plan);
    var tail := LE(b.code + [CallBin(b.cs.tmpN, e.op, p.g, b.g)], GTmp(b.cs.tmpN), Fresh(b.cs, 1));
    assert ((a.code + p.code) + b.code) + [CallBin(b.cs.tmpN, e.op, p.g, b.g)] == (a.code + p.code) + tail.code;
    s' := s2;
    if ea.EOk? {
      PreBin(e, cs, p.cs, plan);
      var s3 := SimE(e.r, false, p.cs, plan, ea.sc, s2, vars);
      s' := SimBinTail(e.op, p.g, b, Eval(e.r, ea.sc, false, plan.lenient), ea.v, p.cs, s2, s3, vars);
      SimSeq(LE(a.code + p.code, p.g, p.cs), ea, tail, BinTail(e.op, ea.v, Eval(e.r, ea.sc, false, plan.lenient)), cs,
             s, s2, s', vars);
    } else {
      SimSeq(LE(a.code + p.code, p.g, p.cs), ea, tail, ea, cs, s, s2, s', vars);
    }
  }

  ghost function BinTail(op: BinOp, v: Value, er: EvalR): EvalR {
    if er.EFail? then er else Lift(Binary(op, v, er.v), er.sc)
  }

  lemma SimBinTail(op: BinOp, g: GExpr, b: LE, er: EvalR, v: Value, cs: CS, s: State, s1: State, vars: Vars)
    returns (s': State)
    requires cs.frames.Frames? && Spilled(g) && Within(g, cs.tmpN) && GVal(g, s, vars) == v
    requires Evolves(cs, b.cs) && SimR(b, er, cs, s, s1, vars)
    ensures SimR(LE(b.code + [CallBin(b.cs.tmpN, op, g, b.g)], GTmp(b.cs.tmpN), Fresh(b.cs, 1)), BinTail(op, v, er),
                 cs, s, s', vars)
  {
    var call := CallBin(b.cs.tmpN, op, g, b.g);
    var tail := LE([call], GTmp(b.cs.tmpN), Fresh(b.cs, 1));
    s' := s1;
    if er.EOk? {
      SpilledKeep(g, s, s1, cs, vars);
      RunOne(call, s1, vars);
      s' := SimStored([call], Binary(op, v, er.v), b.cs.tmpN, b.cs, er.sc, s1, vars);
      SimSeq(b, er, tail, Lift(Binary(op, v, er.v), er.sc), cs, s, s1, s', vars);
    } else {
      SimSeq(b, er, tail, er, cs, s, s1, s', vars);
    }
  }

  lemma {:induction false} SimLogic(e: Expr, cs: CS, plan: Plan, sc: Scope, s: State, vars: Vars) returns (s': State)
    requires e.Logic? && Inv(cs, sc, s, vars) && Pre(e, cs, plan)
    ensures SimR(LowerLogic(e, cs, plan), LogicValue(e, Eval(e.l, sc, false, plan.lenient), plan.lenient), cs, s, s',
                 vars)
    decreases e, 1
  {
    PreBin(e, cs, cs, plan);
    var a, ea := LowerE(e.l, false, cs, plan), Eval(e.l, sc, false, plan.lenient);
    var s1 := SimE(e.l, false, cs, plan, sc, s, vars);
    var s2 := SimSpill(a, ea, cs, s, s1, vars);
    var p := Spill(a.g, a.cs);
    var head := LE(a.code + p.code, p.g, p.cs);
    s' := s2;
    if ea.EOk? {
      PreBin(e, cs, p.cs, plan);
      s' := SimLogicTail(e, p.g, p.cs, plan, ea.v, ea.sc, s2, vars);
      SimSeq(head, ea, LogicRest(e, p.g, p.cs, plan),
             LogicTail(e.lop, ea.v, ea.sc, Eval(e.r, ea.sc, false, plan.lenient)),
             cs, s, s2, s', vars);
    } else {
      SimSeq(head, ea, LogicRest(e, p.g, p.cs, plan), ea, cs, s, s2, s', vars);
    }
  }

  lemma {:induction false} SimLogicTail(e: Expr, g: GExpr, cs: CS, plan: Plan, v: Value, sc: Scope, s: State,
                                        vars: Vars)
    returns (s': State)
    requires e.Logic? && Inv(cs, sc, s, vars) && Pre(e.r, cs, plan)
    requires Spilled(g) && Within(g, cs.tmpN) && GVal(g, s, vars) == v
    ensures SimR(LogicRest(e, g, cs, plan), LogicTail(e.lop, v, sc, Eval(e.r, sc, false, plan.lenient)), cs, s, s',
                 vars)
    decreases e, 0, 1
  {
    if e.lop == Xor { s' := SimXor(e, g, cs, plan, v, sc, s, vars); }
    else { s' := SimShort(e, g, cs, plan, v, sc, s, vars); }
  }

  // The operands of a binary construct, the right one in a later state.
  lemma PreBin(e: Expr, a: CS, b: CS, plan: Plan)
    requires e.Bin? || e.Logic? || e.Coalesce? || e.Elvis?
    requires Pre(e, a, plan) && Evolves(a, b)
    ensures Pre(e.l, a, plan) && Pre(e.r, b, plan)
  {
    ShapeEvolves(a, b);
    assert ExprBinds(e) == ExprBinds(e.l) + ExprBinds(e.r);
  }

  ghost function LogicValue(e: Expr, ea: EvalR, lenient: bool): EvalR
    requires e.Logic? && (ea.EOk? ==> ea.sc.Scope?)
  {
    if ea.EFail? then ea else LogicTail(e.lop, ea.v, ea.sc, Eval(e.r, ea.sc, false, lenient))
  }

  ghost function LogicTail(op: LogicOp, v: Value, sc: Scope, er: EvalR): EvalR {
    if op == And && !Truthy(v) then EOk(Bool(false), sc)
    else if op == Or && Truthy(v) then EOk(Bool(true), sc)
    else if er.EFail? then er
    else EOk(Bool(if op == Xor then Truthy(v) != Truthy(er.v) else Truthy(er.v)), er.sc)
  }

  lemma {:induction false} SimXor(e: Expr, g: GExpr, cs: CS, plan: Plan, v: Value, sc: Scope, s: State, vars: Vars)
    returns (s': State)
    requires e.Logic? && e.lop == Xor && Inv(cs, sc, s, vars) && Pre(e.r, cs, plan)
    requires Spilled(g) && Within(g, cs.tmpN) && GVal(g, s, vars) == v
    ensures SimR(LogicRest(e, g, cs, plan), LogicTail(Xor, v, sc, Eval(e.r, sc, false, plan.lenient)), cs, s, s', vars)
    decreases e, 0, 0
  {
    var b, er := LowerE(e.r, false, cs, plan), Eval(e.r, sc, false, plan.lenient);
    var s1 := SimE(e.r, false, cs, plan, sc, s, vars);
    s' := SimXorTail(b, er, g, cs, v, sc, s, s1, vars);
  }

  lemma SimXorTail(b: LE, er: EvalR, g: GExpr, cs: CS, v: Value, sc: Scope, s: State, s1: State, vars: Vars)
    returns (s': State)
    requires cs.frames.Frames? && Evolves(cs, b.cs) && SimR(b, er, cs, s, s1, vars)
    requires Spilled(g) && Within(g, cs.tmpN) && GVal(g, s, vars) == v
    ensures var q := Spill(b.g, b.cs);
      SimR(LE(b.code + q.code, GXor(g, q.g), q.cs), LogicTail(Xor, v, sc, er), cs, s, s', vars)
  {
    s' := SimSpill(b, er, cs, s, s1, vars);
    if er.EOk? { SpilledKeep(g, s, s', cs, vars); }
  }

  lemma {:induction false} SimShort(e: Expr, g: GExpr, cs: CS, plan: Plan, v: Value, sc: Scope, s: State, vars: Vars)
    returns (s': State)
    requires e.Logic? && e.lop != Xor && Inv(cs, sc, s, vars) && Pre(e.r, cs, plan)
    requires Spilled(g) && Within(g, cs.tmpN) && GVal(g, s, vars) == v
    ensures SimR(LogicRest(e, g, cs, plan), LogicTail(e.lop, v, sc, Eval(e.r, sc, false, plan.lenient)), cs, s, s',
                 vars)
    decreases e, 0, 0
  {
    var t, g0 := cs.tmpN, GConst(Bool(e.lop == Or));
    var c := if e.lop == And then CTruthy(g) else CFalsy(g);
    var start := Deeper(Fresh(cs, 1));
    var s1 := PutTmp(s, t, Bool(e.lop == Or));
    PutFresh(cs, 1, sc, s, t, Bool(e.lop == Or), vars);
    SpilledKeep(g, s, s1, cs, vars);
    var b, er := LowerE(e.r, false, start, plan), Eval(e.r, sc, false, plan.lenient);
    var sb := SimE(e.r, false, start, plan, sc, s1, vars);
    var taken := if e.lop == And then Truthy(v) else !Truthy(v);
    s' := SimGuard(t, g0, c, taken, b, er, true, cs, sc, s, sb, vars);
    ShortValue(e.lop, v, sc, er);
  }

  lemma ShortValue(op: LogicOp, v: Value, sc: Scope, er: EvalR)
    requires op != Xor
    ensures LogicTail(op, v, sc, er)
         == Guarded(if op == And then Truthy(v) else !Truthy(v), Bool(op == Or), sc, er, true)
  {
  }

  lemma {:induction false} SimFallback(e: Expr, cs: CS, plan: Plan, sc: Scope, s: State, vars: Vars) returns (s': State)
    requires (e.Coalesce? || e.Elvis?) && Inv(cs, sc, s, vars) && Pre(e, cs, plan)
    ensures SimR(LowerFallback(e, cs, plan), Eval(e, sc, false, plan.lenient), cs, s, s', vars)
    decreases e, 1, 0
  {
    PreBin(e, cs, cs, plan);
    var a, ea := LowerE(e.l, true, cs, plan), Eval(e.l, sc, true, plan.lenient);
    var s1 := SimE(e.l, true, cs, plan, sc, s, vars);
    FallParts(e, a, ea, cs, plan, sc);
    s' := s1;
    if ea.EOk? {
      PreBin(e, cs, a.cs, plan);
      s' := SimFallTail(e, a.g, a.cs, plan, ea.v, ea.sc, s1, vars);
    }
    SimSeq(a, ea, FallTail(e, a.g, a.cs, plan), FallRest(e, ea, plan.lenient), cs, s, s1, s', vars);
  }

  ghost function FallRest(e: Expr, ea: EvalR, lenient: bool): EvalR
    requires (e.Coalesce? || e.Elvis?) && (ea.EOk? ==> ea.sc.Scope?)
  {
    if ea.EFail? then ea else FallValue(e, ea.v, ea.sc, Eval(e.r, ea.sc, false, lenient))
  }

  lemma FallParts(e: Expr, a: LE, ea: EvalR, cs: CS, plan: Plan, sc: Scope)
    requires (e.Coalesce? || e.Elvis?) && cs.frames.Frames? && sc.Scope?
    requires a == LowerE(e.l, true, cs, plan) && ea == Eval(e.l, sc, true, plan.lenient)
    ensures a.cs.frames.Frames? && (ea.EOk? ==> ea.sc.Scope?)
    ensures LowerFallback(e, cs, plan).g == FallTail(e, a.g, a.cs, plan).g
    ensures LowerFallback(e, cs, plan).cs == Shallower(FallTail(e, a.g, a.cs, plan).cs, cs.cond)
    ensures LowerFallback(e, cs, plan).code == a.code + FallTail(e, a.g, a.cs, plan).code
    ensures Eval(e, sc, false, plan.lenient) == FallRest(e, ea, plan.lenient)
  {
  }

  function FallTail(e: Expr, g: GExpr, cs: CS, plan: Plan): LE
    requires (e.Coalesce? || e.Elvis?) && cs.frames.Frames?
  {
    var t := cs.tmpN;
    var b := LowerE(e.r, false, Deeper(Fresh(cs, 1)), plan);
    LE([SetTmp(t, g), Branch(if e.Coalesce? then CNull(GTmp(t)) else CFalsy(GTmp(t)), b.code + [SetTmp(t, b.g)], [])],
       GTmp(t), Shallower(b.cs, cs.cond))
  }

  ghost function FallValue(e: Expr, v: Value, sc: Scope, er: EvalR): EvalR {
    if (if e.Coalesce? then v.Null? else !Truthy(v)) then er else EOk(v, sc)
  }

  lemma {:induction false} SimFallTail(e: Expr, g: GExpr, cs: CS, plan: Plan, v: Value, sc: Scope, s: State, vars: Vars)
    returns (s': State)
    requires (e.Coalesce? || e.Elvis?) && Inv(cs, sc, s, vars) && Pre(e.r, cs, plan)
    requires Within(g, cs.tmpN) && GVal(g, s, vars) == v
    ensures SimR(FallTail(e, g, cs, plan), FallValue(e, v, sc, Eval(e.r, sc, false, plan.lenient)), cs, s, s', vars)
    decreases e, 0
  {
    var t := cs.tmpN;
    var start := Deeper(Fresh(cs, 1));
    PutFresh(cs, 1, sc, s, t, v, vars);
    var b, er := LowerE(e.r, false, start, plan), Eval(e.r, sc, false, plan.lenient);
    var sb := SimE(e.r, false, start, plan, sc, PutTmp(s, t, v), vars);
    var c := if e.Coalesce? then CNull(GTmp(t)) else CFalsy(GTmp(t));
    var taken := if e.Coalesce? then v.Null? else !Truthy(v);
    s' := SimGuard(t, g, c, taken, b, er, false, cs, sc, s, sb, vars);
  }

  lemma {:induction false} SimAssign(e: Expr, cs: CS, plan: Plan, sc: Scope, s: State, vars: Vars) returns (s': State)
    requires e.Assign? && Inv(cs, sc, s, vars) && Pre(e, cs, plan)
    ensures SimR(LowerE(e, false, cs, plan), Eval(e, sc, false, plan.lenient), cs, s, s', vars)
    decreases e, 1
  {
    assert ExprBinds(e) == [e.x] + ExprBinds(e.e);
    var a, ea := LowerE(e.e, false, cs, plan), Eval(e.e, sc, false, plan.lenient);
    var s1 := SimE(e.e, false, cs, plan, sc, s, vars);
    var s2 := SimSpill(a, ea, cs, s, s1, vars);
    var p := Spill(a.g, a.cs);
    var b := BindName(e.x, p.g, p.cs);
    s' := s2;
    if ea.EOk? {
      s' := SimBind(e.x, p.g, p.cs, ea.sc, s2, vars);
      SpilledKeep(p.g, s2, s', p.cs, vars);
      SimSeq(LE(a.code + p.code, p.g, p.cs), ea, LE(b.code, p.g, b.cs), EOk(ea.v, SetName(ea.sc, e.x, ea.v)), cs, s,
             s2, s', vars);
    } else {
      SimSeq(LE(a.code + p.code, p.g, p.cs), ea, LE(b.code, p.g, b.cs), ea, cs, s, s2, s', vars);
    }
  }

  // A bind in a settled state.
  lemma SimBind(x: string, g: GExpr, cs: CS, sc: Scope, s: State, vars: Vars) returns (s': State)
    requires Inv(cs, sc, s, vars) && x in Top(cs).order && Bindable(cs.frames, x)
    ensures Run(BindName(x, g, cs).code, s, vars) == ROk(s')
    ensures Inv(BindName(x, g, cs).cs, SetName(sc, x, GVal(g, s, vars)), s', vars)
    ensures s'.tmps == s.tmps && s'.out == s.out && Keep(s, s', cs)
  {
    s' := RunBind(x, g, cs, sc, s, vars, {});
    StackEvolves(cs, BindName(x, g, cs).cs);
    assert {} - {x} == {};
  }

  // The result temporary, then the test.
  lemma {:induction false} SimTest(c: Expr, cs: CS, plan: Plan, sc: Scope, s: State, vars: Vars) returns (s1: State)
    requires Inv(cs, sc, s, vars) && Pre(c, cs, plan)
    ensures var cc := LowerE(c, false, Fresh(cs, 1), plan);
      SimR(LE([SetTmp(cs.tmpN, GConst(Null))] + cc.code, cc.g, cc.cs), Eval(c, sc, false, plan.lenient), cs, s, s1,
           vars)
    decreases c, 4
  {
    var cs1, s0 := Fresh(cs, 1), PutTmp(s, cs.tmpN, Null);
    PutFresh(cs, 1, sc, s, cs.tmpN, Null, vars);
    RunOne(SetTmp(cs.tmpN, GConst(Null)), s, vars);
    s1 := SimE(c, false, cs1, plan, sc, s0, vars);
    SimThen([SetTmp(cs.tmpN, GConst(Null))], cs1, sc, s0, LowerE(c, false, cs1, plan),
            Eval(c, sc, false, plan.lenient), cs, s, s1, vars);
  }

  lemma {:induction false} SimTernary(e: Expr, cs: CS, plan: Plan, sc: Scope, s: State, vars: Vars) returns (s': State)
    requires e.Ternary? && Inv(cs, sc, s, vars) && Pre(e, cs, plan)
    ensures SimR(LowerTernary(e, cs, plan), Eval(e, sc, false, plan.lenient), cs, s, s', vars)
    decreases e, 1, 0
  {
    assert ExprBinds(e) == ExprBinds(e.c) + ExprBinds(e.a) + ExprBinds(e.b);
    var t := cs.tmpN;
    var cc, ec := LowerE(e.c, false, Fresh(cs, 1), plan), Eval(e.c, sc, false, plan.lenient);
    var s1 := SimTest(e.c, cs, plan, sc, s, vars);
    var head := LE([SetTmp(t, GConst(Null))] + cc.code, cc.g, cc.cs);
    s' := s1;
    if ec.EOk? {
      PreLater(e.a, cs, cc.cs, plan);
      PreLater(e.b, cs, cc.cs, plan);
      s' := SimArms(e, t, cc, ec.v, cs, plan, ec.sc, s1, vars);
      SimHead(head.code, TernaryTail(e, t, cc, cs.cond, plan), ArmValue(e, ec.v, ec.sc, plan.lenient), cs, s, s1, s',
              vars);
    } else {
      RunAppend(head.code, TernaryTail(e, t, cc, cs.cond, plan).code, s, vars);
    }
  }

  // A prefix that ran, then a continuation simulated relative to the same starting point.
  lemma SimHead(code: Code, tail: LE, er: EvalR, cs: CS, s: State, s1: State, s': State, vars: Vars)
    requires cs.frames.Frames? && Run(code, s, vars) == ROk(s1) && Keep(s, s1, cs) && s1.out == s.out
    requires SimR(tail, er, cs, s1, s', vars)
    ensures SimR(LE(code + tail.code, tail.g, tail.cs), er, cs, s, s', vars)
  {
    RunAppend(code, tail.code, s, vars);
  }

  function TernaryTail(e: Expr, t: nat, cc: LE, cond: nat, plan: Plan): LE
    requires e.Ternary? && cc.cs.frames.Frames?
  {
    var ca := LowerE(e.a, false, Deeper(cc.cs), plan);
    var cb := LowerE(e.b, false, ca.cs, plan);
    LE([Branch(CTruthy(cc.g), ca.code + [SetTmp(t, ca.g)], cb.code + [SetTmp(t, cb.g)])], GTmp(t),
       Shallower(cb.cs, cond))
  }

  ghost function ArmValue(e: Expr, v: Value, sc: Scope, lenient: bool): EvalR
    requires e.Ternary? && sc.Scope?
  {
    if Truthy(v) then Eval(e.a, sc, false, lenient) else Eval(e.b, sc, false, lenient)
  }

  lemma {:induction false} SimArms(e: Expr, t: nat, cc: LE, v: Value, cs: CS, plan: Plan, sc: Scope, s: State,
                                   vars: Vars)
    returns (s': State)
    requires e.Ternary? && cs.frames.Frames? && StackOK(cs.frames, cs.tmpN, cs.frameN) && t == cs.tmpN
    requires Grows(cs, cc.cs) && t < cc.cs.tmpN && Inv(cc.cs, sc, s, vars) && GVal(cc.g, s, vars) == v
        && cc.cs.cond == cs.cond
    requires Pre(e.a, cc.cs, plan) && Pre(e.b, cc.cs, plan)
    ensures SimR(TernaryTail(e, t, cc, cs.cond, plan), ArmValue(e, v, sc, plan.lenient), cs, s, s', vars)
    decreases e, 0, 1
  {
    var ca := LowerE(e.a, false, Deeper(cc.cs), plan);
    var cb := LowerE(e.b, false, ca.cs, plan);
    if Truthy(v) { s' := SimThenArm(e, t, cc, cs, plan, sc, s, vars); }
    else { s' := SimElseArm(e, t, cc, cs, plan, sc, s, vars); }
    Branched(CTruthy(cc.g), ca.code + [SetTmp(t, ca.g)], cb.code + [SetTmp(t, cb.g)], Shallower(cb.cs, cs.cond),
             ArmValue(e, v, sc, plan.lenient), t, cs, s, s', vars);
  }

  lemma {:induction false} SimThenArm(e: Expr, t: nat, cc: LE, cs: CS, plan: Plan, sc: Scope, s: State, vars: Vars)
    returns (s': State)
    requires e.Ternary? && cs.frames.Frames? && StackOK(cs.frames, cs.tmpN, cs.frameN) && t == cs.tmpN
    requires Grows(cs, cc.cs) && t < cc.cs.tmpN && Inv(cc.cs, sc, s, vars) && cc.cs.cond == cs.cond
        && Pre(e.a, cc.cs, plan)
    ensures var ca := LowerE(e.a, false, Deeper(cc.cs), plan);
      SimAcc(ca.code + [SetTmp(t, ca.g)], Shallower(LowerE(e.b, false, ca.cs, plan).cs, cs.cond),
             Eval(e.a, sc, false, plan.lenient), t,
             cs, s, s', vars)
    decreases e, 0, 0
  {
    var start := Deeper(cc.cs);
    var ca, er := LowerE(e.a, false, start, plan), Eval(e.a, sc, false, plan.lenient);
    var sa := SimE(e.a, false, start, plan, sc, s, vars);
    s' := SimArm(ca, er, false, t, cs, start, s, sa, vars);
    if er.EOk? { InvLater(ca.cs, LowerE(e.b, false, ca.cs, plan).cs, er.sc, s', vars); }
  }

  lemma {:induction false} SimElseArm(e: Expr, t: nat, cc: LE, cs: CS, plan: Plan, sc: Scope, s: State, vars: Vars)
    returns (s': State)
    requires e.Ternary? && cs.frames.Frames? && StackOK(cs.frames, cs.tmpN, cs.frameN) && t == cs.tmpN
    requires Grows(cs, cc.cs) && t < cc.cs.tmpN && Inv(cc.cs, sc, s, vars) && cc.cs.cond == cs.cond
        && Pre(e.b, cc.cs, plan)
    ensures var cb := LowerE(e.b, false, LowerE(e.a, false, Deeper(cc.cs), plan).cs, plan);
      SimAcc(cb.code + [SetTmp(t, cb.g)], Shallower(cb.cs, cs.cond), Eval(e.b, sc, false, plan.lenient), t, cs, s, s',
             vars)
    decreases e, 0, 0
  {
    var start := Deeper(cc.cs);
    var mid := LowerE(e.a, false, start, plan).cs;
    InvLater(start, mid, sc, s, vars);
    PreLater(e.b, start, mid, plan);
    var sb := SimE(e.b, false, mid, plan, sc, s, vars);
    s' := SimArm(LowerE(e.b, false, mid, plan), Eval(e.b, sc, false, plan.lenient), false, t, cs, mid, s, sb, vars);
  }

  // ----- collections -----

  ghost predicate PreItems(items: seq<Expr>, cs: CS, plan: Plan) {
    && cs.frames.Frames? && (forall i | 0 <= i < |items| :: SafeE(items[i], Shape(cs.frames), plan))
    && Scanned(ItemsBinds(items), Top(cs).order)
  }

  lemma PreItemsCons(items: seq<Expr>, a: CS, b: CS, plan: Plan)
    requires items != [] && PreItems(items, a, plan) && Evolves(a, b)
    ensures Pre(items[0], a, plan) && PreItems(items[1..], b, plan)
  {
    ShapeEvolves(a, b);
    assert ItemsBinds(items) == ExprBinds(items[0]) + ItemsBinds(items[1..]);
  }

  // One element: evaluate, store under its key, go on.
  lemma SimPut(a: LE, er: EvalR, arr: nat, key: string, acc: seq<(string, Value)>, cs0: CS, cs: CS,
               s: State, s1: State, vars: Vars) returns (s': State)
    requires cs0.frames.Frames? && StackOK(cs0.frames, cs0.tmpN, cs0.frameN) && Grows(cs0, cs)
    requires cs0.tmpN <= arr < cs.tmpN && Tmp(s, arr) == Arr(acc) && Evolves(cs, a.cs)
    requires SimR(a, er, cs, s, s1, vars)
    ensures SimAcc(a.code + [PutKey(arr, key, a.g)], a.cs,
                   if er.EFail? then er else EOk(Arr(Put(acc, key, er.v)), er.sc), arr, cs0, s, s', vars)
  {
    RunAppend(a.code, [PutKey(arr, key, a.g)], s, vars);
    s' := s1;
    if er.EOk? {
      RunOne(PutKey(arr, key, a.g), s1, vars);
      s' := PutTmp(s1, arr, Arr(Put(acc, key, er.v)));
      PutOlder(cs0, a.cs, er.sc, s1, arr, Arr(Put(acc, key, er.v)), vars);
    }
  }

  lemma SimAccThen(a: Code, b: Code, mid: CS, next: CS, e1: EvalR, e2: EvalR, arr: nat, cs0: CS, s: State, s1: State,
                   s': State, vars: Vars)
    requires cs0.frames.Frames?
    requires SimAcc(a, mid, e1, arr, cs0, s, s1, vars)
    requires if e1.EFail? then e2 == e1 else SimAcc(b, next, e2, arr, cs0, s1, s', vars)
    ensures SimAcc(a + b, next, e2, arr, cs0, s, s', vars)
  {
    RunAppend(a, b, s, vars);
  }

  lemma {:induction false} SimItems(items: seq<Expr>, n: nat, arr: nat, acc: seq<(string, Value)>, cs0: CS, cs: CS,
                                    plan: Plan, sc: Scope, s: State, vars: Vars) returns (s': State)
    requires cs0.frames.Frames? && StackOK(cs0.frames, cs0.tmpN, cs0.frameN) && Grows(cs0, cs)
    requires cs0.tmpN <= arr < cs.tmpN && Tmp(s, arr) == Arr(acc)
    requires Inv(cs, sc, s, vars) && PreItems(items, cs, plan)
    ensures SimAcc(LowerItems(items, n, arr, cs, plan).code, LowerItems(items, n, arr, cs, plan).cs,
                   EvalItems(items, sc, n, acc, plan.lenient), arr, cs0, s, s', vars)
    decreases items, 0
  {
    s' := s;
    if items != [] {
      PreItemsCons(items, cs, cs, plan);
      var a, er := LowerE(items[0], false, cs, plan), Eval(items[0], sc, false, plan.lenient);
      var s1 := SimE(items[0], false, cs, plan, sc, s, vars);
      var s2 := SimPut(a, er, arr, IntText(n), acc, cs0, cs, s, s1, vars);
      var head := a.code + [PutKey(arr, IntText(n), a.g)];
      var rest := LowerItems(items[1..], n + 1, arr, a.cs, plan);
      var e1 := if er.EFail? then er else EOk(Arr(Put(acc, IntText(n), er.v)), er.sc);
      s' := s2;
      if er.EOk? {
        PreItemsCons(items, cs, a.cs, plan);
        s' := SimItems(items[1..], n + 1, arr, Put(acc, IntText(n), er.v), cs0, a.cs, plan, er.sc, s2, vars);
      }
      SimAccThen(head, rest.code, a.cs, rest.cs, e1, EvalItems(items, sc, n, acc, plan.lenient), arr, cs0, s, s2, s',
                 vars);
    }
  }

  lemma {:induction false} SimList(e: Expr, cs: CS, plan: Plan, sc: Scope, s: State, vars: Vars) returns (s': State)
    requires e.ListLit? && Inv(cs, sc, s, vars) && Pre(e, cs, plan)
    ensures SimR(LowerE(e, false, cs, plan), Eval(e, sc, false, plan.lenient), cs, s, s', vars)
    decreases e, 1
  {
    var arr := cs.tmpN;
    var s1 := PutTmp(s, arr, Arr([]));
    PutFresh(cs, 1, sc, s, arr, Arr([]), vars);
    var r := LowerItems(e.items, 0, arr, Fresh(cs, 1), plan);
    s' := SimItems(e.items, 0, arr, [], cs, Fresh(cs, 1), plan, sc, s1, vars);
    Collected(r.code, r.cs, EvalItems(e.items, sc, 0, [], plan.lenient), cs, sc, s, s', vars);
  }

  ghost predicate PreFields(fields: seq<Entry>, cs: CS, plan: Plan) {
    && cs.frames.Frames? && (forall i | 0 <= i < |fields| :: SafeE(fields[i].v, Shape(cs.frames), plan))
    && Scanned(FieldsBinds(fields), Top(cs).order)
  }

  lemma PreFieldsCons(fields: seq<Entry>, a: CS, b: CS, plan: Plan)
    requires fields != [] && PreFields(fields, a, plan) && Evolves(a, b)
    ensures Pre(fields[0].v, a, plan) && PreFields(fields[1..], b, plan)
  {
    ShapeEvolves(a, b);
    assert FieldsBinds(fields) == ExprBinds(fields[0].v) + FieldsBinds(fields[1..]);
  }

  lemma {:induction false} SimFields(fields: seq<Entry>, arr: nat, acc: seq<(string, Value)>, cs0: CS, cs: CS,
                                     plan: Plan, sc: Scope, s: State, vars: Vars) returns (s': State)
    requires cs0.frames.Frames? && StackOK(cs0.frames, cs0.tmpN, cs0.frameN) && Grows(cs0, cs)
    requires cs0.tmpN <= arr < cs.tmpN && Tmp(s, arr) == Arr(acc)
    requires Inv(cs, sc, s, vars) && PreFields(fields, cs, plan)
    ensures SimAcc(LowerFields(fields, arr, cs, plan).code, LowerFields(fields, arr, cs, plan).cs,
                   EvalFields(fields, sc, acc, plan.lenient), arr, cs0, s, s', vars)
    decreases fields, 0
  {
    s' := s;
    if fields != [] {
      PreFieldsCons(fields, cs, cs, plan);
      var v, key := fields[0].v, fields[0].key;
      var a, er := LowerE(v, false, cs, plan), Eval(v, sc, false, plan.lenient);
      var s1 := SimE(v, false, cs, plan, sc, s, vars);
      var s2 := SimPut(a, er, arr, key, acc, cs0, cs, s, s1, vars);
      var head := a.code + [PutKey(arr, key, a.g)];
      var rest := LowerFields(fields[1..], arr, a.cs, plan);
      var e1 := if er.EFail? then er else EOk(Arr(Put(acc, key, er.v)), er.sc);
      s' := s2;
      if er.EOk? {
        PreFieldsCons(fields, cs, a.cs, plan);
        s' := SimFields(fields[1..], arr, Put(acc, key, er.v), cs0, a.cs, plan, er.sc, s2, vars);
      }
      SimAccThen(head, rest.code, a.cs, rest.cs, e1, EvalFields(fields, sc, acc, plan.lenient), arr, cs0, s, s2, s',
                 vars);
    }
  }

  lemma {:induction false} SimMap(e: Expr, cs: CS, plan: Plan, sc: Scope, s: State, vars: Vars) returns (s': State)
    requires e.MapLit? && Inv(cs, sc, s, vars) && Pre(e, cs, plan)
    ensures SimR(LowerE(e, false, cs, plan), Eval(e, sc, false, plan.lenient), cs, s, s', vars)
    decreases e, 1
  {
    var arr := cs.tmpN;
    var s1 := PutTmp(s, arr, Arr([]));
    PutFresh(cs, 1, sc, s, arr, Arr([]), vars);
    var r := LowerFields(e.fields, arr, Fresh(cs, 1), plan);
    s' := SimFields(e.fields, arr, [], cs, Fresh(cs, 1), plan, sc, s1, vars);
    Collected(r.code, r.cs, EvalFields(e.fields, sc, [], plan.lenient), cs, sc, s, s', vars);
  }
}
