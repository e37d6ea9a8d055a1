/** The compiler as it runs: one object whose frame stack, code buffer and counters every lowering step
    updates in place. */
module Compiler {
  import opened Values
  import opened Syntax
  import opened Scan
  import opened Collector
  import opened Target
  import opened Lowering

  lemma Regroup(a: Code, b: Code, c: Code)
    ensures (a + b) + c == a + (b + c)
  {
  }

  function SpilledCode(e: Expr, cs: CS, plan: Plan): (r: LE)
    requires cs.frames.Frames?
    ensures Evolves(cs, r.cs)
  {
    var le := LowerE(e, false, cs, plan);
    var p := Spill(le.g, le.cs);
    LE(le.code + p.code, p.g, p.cs)
  }

  function ForkCode(e: Expr, c: GExpr, t: nat, cs: CS, plan: Plan): (r: LS)
    requires cs.frames.Frames? && e.Ternary?
    ensures Evolves(cs, r.cs)
  {
    var ca := LowerE(e.a, false, Deeper(cs), plan);
    var cb := LowerE(e.b, false, ca.cs, plan);
    LS([Branch(CTruthy(c), ca.code + [SetTmp(t, ca.g)], cb.code + [SetTmp(t, cb.g)])], Shallower(cb.cs, cs.cond))
  }

  function RescueCode(e: Expr, a: GExpr, cs: CS, plan: Plan): (r: LE)
    requires cs.frames.Frames? && (e.Coalesce? || e.Elvis?)
    ensures Evolves(cs, r.cs)
  {
    var t := cs.tmpN;
    var b := LowerE(e.r, false, Deeper(Fresh(cs, 1)), plan);
    LE([SetTmp(t, a),
        Branch(if e.Coalesce? then CNull(GTmp(t)) else CFalsy(GTmp(t)), b.code + [SetTmp(t, b.g)], [])],
       GTmp(t), Shallower(b.cs, cs.cond))
  }

  function RestCode(s: Stmt, p: nat, cs: CS, plan: Plan): (r: LS)
    requires cs.frames.Frames? && s.For?
    ensures Evolves(cs, r.cs)
  {
    var fl := LowerPairs(s, p, cs, plan);
    var arms := LowerArms(s, p, fl.cs, plan);
    LS(fl.code + arms.code, arms.cs)
  }

  function OverCode(s: Stmt, g: GExpr, cs: CS, plan: Plan): (r: LS)
    requires cs.frames.Frames? && s.For?
    ensures Evolves(cs, r.cs)
  {
    var rest := RestCode(s, cs.tmpN, Fresh(cs, 1), plan);
    LS([CallTraverse(cs.tmpN, g, plan.lenient)] + rest.code, rest.cs)
  }

  function ControlsCode(s: Stmt, li: LoopInfo, cs: CS): (r: LS)
    requires cs.frames.Frames? && s.For? && li.LoopInfo?
    ensures Evolves(cs, r.cs)
  {
    var t := LowerTargets(s.t1, s.t2, li.pT, li.iT, cs);
    var l := LowerLoopBind(li, t.cs);
    LS(t.code + l.code, l.cs)
  }

  function JudgeCode(cond: Expr, p: nat, n: nat, cs: CS, plan: Plan): (r: LS)
    requires cs.frames.Frames?
    ensures Evolves(cs, r.cs)
  {
    var c := LowerE(cond, false, cs, plan);
    LS(c.code + [Branch(CTruthy(c.g), [AppendPair(n, p, n + 1)], [])], c.cs)
  }

  lemma IterParts(s: Stmt, f: CFrame, below: Frames, plan: Plan, cs: CS)
    requires s.For? && f.loop.LoopInfo? && cs == CS(Frames(f, below), f.loop.iT + 1, f.id, 0)
    ensures var head := ControlsCode(s, f.loop, cs); var b := LowerList(s.body, head.cs, plan);
      LowerIter(s, f, below, plan) == LS(head.code + b.code, b.cs)
  {
  }

  lemma CandidateParts(f: CFrame, cond: Expr, t1: string, t2: Option<string>, p: nat, n: nat, below: Frames,
                       plan: Plan, cs: CS)
    requires cs == CS(Frames(f, below), n + 2, f.id, 0)
    ensures var a := LowerTargets(t1, t2, p, n + 1, cs); var c := JudgeCode(cond, p, n, a.cs, plan);
      LowerCandidate(f, cond, t1, t2, p, n, below, plan) == LS(a.code + c.code, c.cs)
  {
  }

  lemma MemberAfter(le: LE, field: string, nullSafe: bool, absent: bool)
    requires le.cs.frames.Frames?
    ensures var m := LowerAttr(LE([], le.g, le.cs), field, nullSafe, absent);
      LowerAttr(le, field, nullSafe, absent) == LE(le.code + m.code, m.g, m.cs)
  {
  }

  class Lowerer {
    const plan: Plan
    var frames: Frames
    var body: Code
    var tmpN: nat
    var frameN: nat
    var condDepth: nat

    constructor (decisions: Plan)
      ensures plan == decisions && State() == CS(Bottom, 0, 0, 0) && body == []
    {
      plan, frames, body, tmpN, frameN, condDepth := decisions, Bottom, [], 0, 0, 0;
    }

    function State(): CS
      reads this
    {
      CS(frames, tmpN, frameN, condDepth)
    }

    // An expression lowered from a state: its code after what was there, and its value.
    ghost predicate Emitted(g: GExpr, le: LE, before: Code)
      reads this
    {
      g == le.g && body == before + le.code && State() == le.cs
    }

    ghost predicate Wrote(ls: LS, before: Code)
      reads this
    {
      body == before + ls.code && State() == ls.cs
    }

    method Emit(i: Instr)
      modifies this`body
      ensures body == old(body) + [i]
    {
      body := body + [i];
    }

    method Mint(n: nat) returns (t: nat)
      modifies this`tmpN
      ensures t == old(tmpN) && tmpN == old(tmpN) + n
    {
      t := tmpN;
      tmpN := tmpN + n;
    }

    // ----- names -----

    // The guarded assignments of a resolution chain.
    method EmitSteps(ls: seq<Link>, x: string, val: nat, found: nat)
      modifies this`body
      ensures body == old(body) + EmitLinks(ls, x, val, found)
    {
      for i := 0 to |ls|
        invariant body + EmitLinks(ls[i..], x, val, found) == old(body) + EmitLinks(ls, x, val, found)
      {
        assert ls[i..][0] == ls[i] && ls[i..][1..] == ls[i + 1..];
        Emit(Branch(LinkCond(ls[i], x, found), [SetTmp(val, LinkVal(ls[i], x)), SetTmp(found, GConst(Bool(true)))],
                    []));
      }
    }

    method ProbeChain(ls: seq<Link>, x: string, val: nat, found: nat)
      modifies this`body
      ensures body == old(body) + ProbeCode(ls, x, val, found)
    {
      Emit(SetTmp(val, GConst(Null)));
      Emit(SetTmp(found, GConst(Bool(false))));
      EmitSteps(ls, x, val, found);
    }

    method ProbeName(x: string) returns (g: GExpr)
      modifies this`body, this`tmpN
      ensures Emitted(g, Probe(x, old(State())), old(body))
    {
      var ls := Chain(frames, x);
      if Terminal(frames, x) && |ls| == 1 { return LinkVal(ls[0], x); }
      var t := Mint(2);
      ProbeChain(ls, x, t, t + 1);
      g := GTmp(t);
    }

    method ReadVariable(x: string, absent: bool) returns (g: GExpr)
      modifies this`body, this`tmpN
      ensures Emitted(g, ReadName(x, old(State()), absent, plan), old(body))
    {
      var found := tmpN + 1;
      g := ProbeName(x);
      if Terminal(frames, x) || absent || plan.lenient { return; }
      Emit(Branch(CFalsy(GTmp(found)), [Raise(x, HintParts(frames))], []));
    }

    method SpillValue(v: GExpr) returns (g: GExpr)
      modifies this`body, this`tmpN
      ensures Emitted(g, Spill(v, old(State())), old(body))
    {
      if Spilled(v) { return v; }
      var t := Mint(1);
      Emit(SetTmp(t, v));
      g := GTmp(t);
    }

    // The order maintenance, the local and its flag; a bind outside conditional code makes the name
    // definite.
    method Bind(x: string, g: GExpr)
      requires frames.Frames?
      modifies this`body, this`frames
      ensures Wrote(BindName(x, g, old(State())), old(body))
    {
      var f := frames.f;
      if x !in f.order {
        Emit(Panic);
        return;
      }
      body := body + OrderCode(f, x);
      Emit(SetVar(x, f.id, g));
      if x !in f.definite { Emit(SetFlag(x, f.id)); }
      frames := Frames(MarkBound(f, x, condDepth), frames.below);
    }

    // ----- expressions -----

    method LowerExpr(e: Expr, absent: bool) returns (g: GExpr)
      requires frames.Frames?
      modifies this
      ensures Emitted(g, LowerE(e, absent, old(State()), plan), old(body))
      decreases e, 3
    {
      match e {
        case Lit(v) => g := GConst(v);
        case Name(x) => g := ReadVariable(x, absent);
        case Context => g := LowerContext();
        case ListLit(_) => g := LowerCollection(e);
        case MapLit(_) => g := LowerCollection(e);
        case Attr(_, _, _, _) => g := LowerAccess(e, absent);
        case Not(_) => g := LowerNot(e);
        case Bin(_, _, _) => g := LowerBinary(e);
        case Logic(_, _, _) => g := LowerLogical(e);
        case Ternary(_, _, _) => g := LowerConditional(e);
        case Coalesce(_, _) => g := LowerDefault(e);
        case Elvis(_, _) => g := LowerDefault(e);
        case Assign(_, _) => g := LowerAssign(e);
      }
    }

    method LowerContext() returns (g: GExpr)
      requires frames.Frames?
      modifies this`body, this`tmpN
      ensures Emitted(g, LowerE(Expr.Context, false, old(State()), plan), old(body))
    {
      var t := Mint(1);
      Emit(SetTmp(t, GConst(Arr([]))));
      body := body + ContextCode(frames, t);
      g := GTmp(t);
    }

    method LowerCollection(e: Expr) returns (g: GExpr)
      requires frames.Frames? && (e.ListLit? || e.MapLit?)
      modifies this
      ensures Emitted(g, LowerE(e, false, old(State()), plan), old(body))
      decreases e, 2
    {
      var t := Mint(1);
      Emit(SetTmp(t, GConst(Arr([]))));
      ghost var head := body;
      if e.ListLit? { LowerElements(e.items, 0, t); } else { LowerEntries(e.fields, t); }
      Regroup(old(body), [SetTmp(t, GConst(Arr([])))], body[|head|..]);
      g := GTmp(t);
    }

    method LowerAccess(e: Expr, absent: bool) returns (g: GExpr)
      requires frames.Frames? && e.Attr?
      modifies this
      ensures Emitted(g, LowerE(e, absent, old(State()), plan), old(body))
      decreases e, 2
    {
      if e.node in plan.approved {
        g := LowerInlineRead(FindLoop(frames, plan.approved[e.node].0), plan.approved[e.node].1);
      } else {
        var r := LowerExpr(e.recv, absent);
        ghost var le := LowerE(e.recv, absent, old(State()), plan);
        g := LowerMember(r, e.field, e.nullSafe, absent);
        MemberAfter(le, e.field, e.nullSafe, absent);
        Regroup(old(body), le.code, LowerAttr(LE([], le.g, le.cs), e.field, e.nullSafe, absent).code);
      }
    }

    method LowerNot(e: Expr) returns (g: GExpr)
      requires frames.Frames? && e.Not?
      modifies this
      ensures Emitted(g, LowerE(e, false, old(State()), plan), old(body))
      decreases e, 2
    {
      var v := LowerExpr(e.e, false);
      var p := SpillValue(v);
      ghost var le := LowerE(e.e, false, old(State()), plan);
      Regroup(old(body), le.code, Spill(le.g, le.cs).code);
      g := GNot(p);
    }

    method LowerBinary(e: Expr) returns (g: GExpr)
      requires frames.Frames? && e.Bin?
      modifies this
      ensures Emitted(g, LowerE(e, false, old(State()), plan), old(body))
      decreases e, 2
    {
      var p := LowerSpilled(e.l);
      ghost var head := SpilledCode(e.l, old(State()), plan);
      var b := LowerExpr(e.r, false);
      ghost var right := LowerE(e.r, false, head.cs, plan);
      var t := Mint(1);
      Emit(CallBin(t, e.op, p, b));
      g := GTmp(t);
      Regroup(old(body), head.code, right.code);
      Regroup(old(body), head.code + right.code, [CallBin(t, e.op, p, b)]);
    }

    // An operand lowered and captured before anything after it can rebind what it reads.
    method LowerSpilled(e: Expr) returns (g: GExpr)
      requires frames.Frames?
      modifies this
      ensures Emitted(g, SpilledCode(e, old(State()), plan), old(body))
      decreases e, 4
    {
      var v := LowerExpr(e, false);
      ghost var le := LowerE(e, false, old(State()), plan);
      g := SpillValue(v);
      Regroup(old(body), le.code, Spill(le.g, le.cs).code);
    }

    method LowerAssign(e: Expr) returns (g: GExpr)
      requires frames.Frames? && e.Assign?
      modifies this
      ensures Emitted(g, LowerE(e, false, old(State()), plan), old(body))
      decreases e, 2
    {
      g := LowerSpilled(e.e);
      ghost var head := SpilledCode(e.e, old(State()), plan);
      Bind(e.x, g);
      Regroup(old(body), head.code, BindName(e.x, g, head.cs).code);
    }

    // An arm lowered into a buffer of its own, one conditional deeper.
    method LowerArm(e: Expr, before: Code) returns (g: GExpr, code: Code)
      requires frames.Frames?
      modifies this
      ensures var r := LowerE(e, false, Deeper(old(State())), plan);
        g == r.g && code == r.code && State() == Shallower(r.cs, old(condDepth)) && body == before
      decreases e, 4
    {
      var depth := condDepth;
      condDepth := condDepth + 1;
      body := [];
      g := LowerExpr(e, false);
      code := body;
      body := before;
      condDepth := depth;
    }

    method LowerLogical(e: Expr) returns (g: GExpr)
      requires frames.Frames? && e.Logic?
      modifies this
      ensures Emitted(g, LowerLogic(e, old(State()), plan), old(body))
      decreases e, 2
    {
      var p := LowerSpilled(e.l);
      ghost var head := SpilledCode(e.l, old(State()), plan);
      if e.lop == Xor {
        var q := LowerSpilled(e.r);
        g := GXor(p, q);
      } else {
        g := LowerGuarded(e, p);
      }
      Regroup(old(body), head.code, LogicRest(e, p, head.cs, plan).code);
    }

    // The right operand of and/or, evaluated only when the left one decides nothing.
    method LowerGuarded(e: Expr, p: GExpr) returns (g: GExpr)
      requires frames.Frames? && e.Logic? && e.lop != Xor
      modifies this
      ensures Emitted(g, LogicRest(e, p, old(State()), plan), old(body))
      decreases e, 1
    {
      var t := Mint(1);
      var r, code := LowerArm(e.r, body);
      Emit(SetTmp(t, GConst(Bool(e.lop == Or))));
      Emit(Branch(if e.lop == And then CTruthy(p) else CFalsy(p), code + [SetTmp(t, GTruth(r))], []));
      g := GTmp(t);
    }

    method LowerConditional(e: Expr) returns (g: GExpr)
      requires frames.Frames? && e.Ternary?
      modifies this
      ensures Emitted(g, LowerTernary(e, old(State()), plan), old(body))
      decreases e, 2
    {
      var t := Mint(1);
      Emit(SetTmp(t, GConst(Null)));
      ghost var cc := LowerE(e.c, false, State(), plan);
      var c := LowerExpr(e.c, false);
      LowerFork(e, c, t);
      Regroup(old(body), [SetTmp(t, GConst(Null))], cc.code);
      Regroup(old(body), [SetTmp(t, GConst(Null))] + cc.code, ForkCode(e, c, t, cc.cs, plan).code);
      g := GTmp(t);
    }

    method LowerFork(e: Expr, c: GExpr, t: nat)
      requires frames.Frames? && e.Ternary?
      modifies this
      ensures Wrote(ForkCode(e, c, t, old(State()), plan), old(body))
      decreases e, 1
    {
      var a, thn := LowerArm(e.a, body);
      var b, els := LowerArm(e.b, body);
      Emit(Branch(CTruthy(c), thn + [SetTmp(t, a)], els + [SetTmp(t, b)]));
    }

    method LowerDefault(e: Expr) returns (g: GExpr)
      requires frames.Frames? && (e.Coalesce? || e.Elvis?)
      modifies this
      ensures Emitted(g, LowerFallback(e, old(State()), plan), old(body))
      decreases e, 2
    {
      var a := LowerExpr(e.l, true);
      ghost var le := LowerE(e.l, true, old(State()), plan);
      g := FallBack(e, a);
      Regroup(old(body), le.code, RescueCode(e, a, le.cs, plan).code);
    }

    method FallBack(e: Expr, a: GExpr) returns (g: GExpr)
      requires frames.Frames? && (e.Coalesce? || e.Elvis?)
      modifies this
      ensures Emitted(g, RescueCode(e, a, old(State()), plan), old(body))
      decreases e, 1
    {
      var t := Mint(1);
      var b, code := LowerArm(e.r, body);
      Emit(SetTmp(t, a));
      Emit(Branch(if e.Coalesce? then CNull(GTmp(t)) else CFalsy(GTmp(t)), code + [SetTmp(t, b)], []));
      g := GTmp(t);
    }

    method LowerInlineRead(li: LoopInfo, field: string) returns (g: GExpr)
      modifies this`body, this`tmpN
      ensures Emitted(g, InlineRead(li, field, old(State())), old(body))
    {
      if li.NoLoop? {
        Emit(Panic);
        return GConst(Null);
      }
      if field in {"index", "index0", "revindex", "revindex0", "length", "first", "last"} {
        return GField(li.iT, li.pT, field);
      }
      if field != "prev" && field != "next" {
        Emit(Panic);
        return GConst(Null);
      }
      var t := Mint(1);
      Emit(SetTmp(t, GConst(Null)));
      if field == "prev" { Emit(Branch(CHasPrev(li.iT), [SetTmp(t, GElem(li.pT, li.iT, -1))], [])); }
      else { Emit(Branch(CHasNext(li.iT, li.pT), [SetTmp(t, GElem(li.pT, li.iT, 1))], [])); }
      g := GTmp(t);
    }

    method LowerMember(recv: GExpr, field: string, nullSafe: bool, absent: bool) returns (g: GExpr)
      requires frames.Frames?
      modifies this`body, this`tmpN
      ensures Emitted(g, LowerAttr(LE([], recv, old(State())), field, nullSafe, absent), old(body))
    {
      if !nullSafe && !absent {
        var t := Mint(1);
        Emit(SetTmp(t, GConst(Null)));
        Emit(Branch(CWithHas(recv, field), [SetTmp(t, GWithAt(recv, field))], [CallDot(t, recv, field, false)]));
        return GTmp(t);
      }
      var p := SpillValue(recv);
      var t := Mint(1);
      Emit(SetTmp(t, GConst(Null)));
      Emit(Branch(CNotNull(p), [CallDot(t, p, field, absent)], []));
      g := GTmp(t);
    }

    method LowerElements(items: seq<Expr>, n: nat, arr: nat)
      requires frames.Frames?
      modifies this
      ensures Wrote(LowerItems(items, n, arr, old(State()), plan), old(body))
      decreases items, 0
    {
      if items != [] {
        var g := LowerExpr(items[0], false);
        Emit(PutKey(arr, IntText(n), g));
        LowerElements(items[1..], n + 1, arr);
      }
    }

    method LowerEntries(fields: seq<Entry>, arr: nat)
      requires frames.Frames?
      modifies this
      ensures Wrote(LowerFields(fields, arr, old(State()), plan), old(body))
      decreases fields, 0
    {
      if fields != [] {
        var g := LowerExpr(fields[0].v, false);
        Emit(PutKey(arr, fields[0].key, g));
        LowerEntries(fields[1..], arr);
      }
    }

    // ----- statements -----

    method Stmt(s: Stmt)
      requires frames.Frames?
      modifies this
      ensures Wrote(LowerS(s, old(State()), plan), old(body))
      decreases s, 10
    {
      match s {
        case Text(t) => Emit(WriteText(t));
        case Print(e) =>
          var g := LowerExpr(e, false);
          Emit(Write(g));
        case Do(e) => var _ := LowerExpr(e, false);
        case Set(_, _) => StmtSet(s);
        case Capture(_, _) => StmtCapture(s);
        case Apply(_) => StmtCapture(s);
        case If(clauses) => StmtIf(clauses);
        case With(_, _, _) => StmtWith(s);
        case For(_, _, _, _, _, _, _) => StmtFor(s);
      }
    }

    method StmtSet(s: Stmt)
      requires frames.Frames? && s.Set?
      modifies this
      ensures Wrote(LowerS(s, old(State()), plan), old(body))
      decreases s, 7
    {
      var g := LowerExpr(s.e, false);
      ghost var le := LowerE(s.e, false, old(State()), plan);
      Bind(s.x, g);
      Regroup(old(body), le.code, BindName(s.x, le.g, le.cs).code);
    }

    // A body lowered into a capture, which is bound or written.
    method StmtCapture(s: Stmt)
      requires frames.Frames? && (s.Capture? || s.Apply?)
      modifies this
      ensures Wrote(LowerS(s, old(State()), plan), old(body))
      decreases s, 7
    {
      var t := Mint(1);
      var code := StmtBuffer(s.body, body);
      Emit(CaptureInto(t, code));
      ghost var cs := State();
      if s.Capture? {
        Bind(s.x, GTmp(t));
        Regroup(old(body), [CaptureInto(t, code)], BindName(s.x, GTmp(t), cs).code);
      } else {
        Emit(Write(GTmp(t)));
      }
    }

    method Stmts(ss: seq<Stmt>)
      requires frames.Frames?
      modifies this
      ensures Wrote(LowerList(ss, old(State()), plan), old(body))
      decreases ss, 0
    {
      if ss != [] {
        Stmt(ss[0]);
        Stmts(ss[1..]);
      }
    }

    // Statements lowered into a buffer of their own.
    method StmtBuffer(ss: seq<Stmt>, before: Code) returns (code: Code)
      requires frames.Frames?
      modifies this
      ensures var r := LowerList(ss, old(State()), plan); code == r.code && State() == r.cs && body == before
      decreases ss, 1
    {
      body := [];
      Stmts(ss);
      code := body;
      body := before;
    }

    // The later clauses nest in the else arm; all arms lower one conditional deeper.
    method StmtIf(cl: seq<Clause>)
      requires frames.Frames?
      modifies this
      ensures Wrote(LowerClauses(cl, old(State()), plan), old(body))
      decreases cl, 0
    {
      if cl == [] { return; }
      var depth := condDepth;
      match cl[0] {
        case Otherwise(items) =>
          condDepth := condDepth + 1;
          var code := StmtBuffer(items, body);
          body := body + code;
          condDepth := depth;
        case When(c, items) => StmtWhen(cl, depth);
      }
    }

    method StmtWhen(cl: seq<Clause>, depth: nat)
      requires frames.Frames? && cl != [] && cl[0].When? && depth == condDepth
      modifies this
      ensures Wrote(LowerClauses(cl, old(State()), plan), old(body))
      decreases cl, 0, 0
    {
      var g := LowerExpr(cl[0].cond, false);
      ghost var cc := LowerE(cl[0].cond, false, old(State()), plan);
      condDepth := condDepth + 1;
      var thn := StmtBuffer(cl[0].body, body);
      var els := ElseBuffer(cl[1..], body);
      Emit(Branch(CTruthy(g), thn, els));
      condDepth := depth;
      Regroup(old(body), cc.code, [Branch(CTruthy(g), thn, els)]);
    }

    method ElseBuffer(cl: seq<Clause>, before: Code) returns (code: Code)
      requires frames.Frames?
      modifies this
      ensures var r := LowerClauses(cl, old(State()), plan); code == r.code && State() == r.cs && body == before
      decreases cl, 1
    {
      body := [];
      StmtIf(cl);
      code := body;
      body := before;
    }

    method StmtWith(s: Stmt)
      requires frames.Frames? && s.With?
      modifies this
      ensures Wrote(LowerS(s, old(State()), plan), old(body))
      decreases s, 7
    {
      var p := LowerSpilled(s.m);
      ghost var head := SpilledCode(s.m, old(State()), plan);
      WithScope(s.body, WithFrame(s.body, s.only, p, State()));
      Regroup(old(body), head.code,
              LowerWithBody(s.body, WithFrame(s.body, s.only, p, head.cs), head.cs, plan).code);
    }

    method WithScope(ss: seq<Stmt>, f: CFrame)
      requires frames.Frames? && f.id == frameN + 1
      modifies this
      ensures Wrote(LowerWithBody(ss, f, old(State()), plan), old(body))
      decreases ss, 2
    {
      var depth := condDepth;
      PushFrame(f);
      Emit(Declare(f.id));
      ghost var inner := LowerList(ss, State(), plan);
      Stmts(ss);
      PopFrame(depth);
      Regroup(old(body), [Declare(f.id)], inner.code);
    }

    method PushFrame(f: CFrame)
      requires f.id == frameN + 1
      modifies this`frames, this`frameN, this`condDepth
      ensures State() == CS(Frames(f, old(frames)), tmpN, f.id, 0)
    {
      frames := Frames(f, frames);
      frameN := f.id;
      condDepth := 0;
    }

    method PopFrame(depth: nat)
      requires frames.Frames?
      modifies this`frames, this`condDepth
      ensures State() == CS(old(frames).below, tmpN, frameN, depth)
    {
      frames := frames.below;
      condDepth := depth;
    }

    // ----- loops -----

    method StmtFor(s: Stmt)
      requires frames.Frames? && s.For?
      modifies this
      ensures Wrote(LowerS(s, old(State()), plan), old(body))
      decreases s, 9
    {
      var g := LowerExpr(s.iter, false);
      ghost var it := LowerE(s.iter, false, old(State()), plan);
      StmtForOver(s, g);
      Regroup(old(body), it.code, OverCode(s, g, it.cs, plan).code);
    }

    method StmtForOver(s: Stmt, g: GExpr)
      requires frames.Frames? && s.For?
      modifies this
      ensures Wrote(OverCode(s, g, old(State()), plan), old(body))
      decreases s, 8
    {
      var p := Mint(1);
      Emit(CallTraverse(p, g, plan.lenient));
      assert State() == Fresh(old(State()), 1);
      ghost var rest := RestCode(s, p, State(), plan);
      StmtForRest(s, p);
      assert State() == rest.cs && body == old(body) + [CallTraverse(p, g, plan.lenient)] + rest.code;
      Regroup(old(body), [CallTraverse(p, g, plan.lenient)], rest.code);
    }

    method StmtForRest(s: Stmt, p: nat)
      requires frames.Frames? && s.For?
      modifies this
      ensures Wrote(RestCode(s, p, old(State()), plan), old(body))
      decreases s, 7, 0
    {
      ghost var fl := LowerPairs(s, p, State(), plan);
      if s.filter.Some? { StmtForFilter(s, p); }
      StmtForArms(s, p);
      Regroup(old(body), fl.code, LowerArms(s, p, fl.cs, plan).code);
    }

    method BindTargets(t1: string, t2: Option<string>, p: nat, i: nat)
      requires frames.Frames?
      modifies this`body, this`frames
      ensures Wrote(LowerTargets(t1, t2, p, i, old(State())), old(body))
    {
      if t2.Some? {
        Bind(t1, GKey(p, i));
        Bind(t2.value, GElem(p, i, 0));
      } else {
        Bind(t1, GElem(p, i, 0));
      }
    }

    // The filter pre-pass in a frame of its own; the survivors replace the pairs.
    method StmtForFilter(s: Stmt, p: nat)
      requires frames.Frames? && s.For? && s.filter.Some?
      modifies this
      ensures Wrote(LowerPairs(s, p, old(State()), plan), old(body))
      decreases s, 6
    {
      var depth, surv := condDepth, tmpN;
      var f := FilterFrame(s.filter.value, s.t1, s.t2, State());
      Emit(SetTmp(surv, GConst(Arr([]))));
      Emit(Declare(f.id));
      var code := CandidateBuffer(s, f, p, body);
      condDepth := depth;
      Emit(Range(surv + 1, p, code));
      Emit(SetTmp(p, GTmp(surv)));
    }

    // The code of one candidate, in the filter's frame.
    method CandidateBuffer(s: Stmt, f: CFrame, p: nat, before: Code) returns (code: Code)
      requires frames.Frames? && s.For? && s.filter.Some? && f.id == frameN + 1
      modifies this
      ensures var c := LowerCandidate(f, s.filter.value, s.t1, s.t2, p, old(tmpN), old(frames), plan);
        && code == c.code && body == before
        && State() == CS(c.cs.frames.below, c.cs.tmpN, c.cs.frameN, condDepth)
      decreases s, 5
    {
      var surv := Mint(2);
      PushFrame(f);
      body := [];
      LowerOneCandidate(s, p, surv);
      code := body;
      body := before;
      PopFrame(condDepth);
    }

    // The targets and the judgement, in the filter's frame.
    method LowerOneCandidate(s: Stmt, p: nat, n: nat)
      requires frames.Frames? && s.For? && s.filter.Some?
      requires tmpN == n + 2 && frameN == frames.f.id && condDepth == 0 && body == []
      modifies this
      ensures Wrote(LowerCandidate(old(frames).f, s.filter.value, s.t1, s.t2, p, n, old(frames).below, plan), [])
      decreases s, 4
    {
      ghost var a := LowerTargets(s.t1, s.t2, p, n + 1, State());
      BindTargets(s.t1, s.t2, p, n + 1);
      JudgeCandidate(s.filter.value, p, n);
      CandidateParts(old(frames).f, s.filter.value, s.t1, s.t2, p, n, old(frames).below, plan, old(State()));
      Regroup([], a.code, JudgeCode(s.filter.value, p, n, a.cs, plan).code);
    }

    method JudgeCandidate(cond: Expr, p: nat, n: nat)
      requires frames.Frames?
      modifies this
      ensures Wrote(JudgeCode(cond, p, n, old(State()), plan), old(body))
      decreases cond, 4
    {
      var g := LowerExpr(cond, false);
      ghost var c := LowerE(cond, false, old(State()), plan);
      Emit(Branch(CTruthy(g), [AppendPair(n, p, n + 1)], []));
      Regroup(old(body), c.code, [Branch(CTruthy(g), [AppendPair(n, p, n + 1)], [])]);
    }

    method StmtForArms(s: Stmt, p: nat)
      requires frames.Frames? && s.For?
      modifies this
      ensures Wrote(LowerArms(s, p, old(State()), plan), old(body))
      decreases s, 5
    {
      var depth, before := condDepth, body;
      condDepth := condDepth + 1;
      var els := StmtBuffer(s.els, before);
      condDepth := depth;
      var code := BodyBuffer(s, p, before);
      Emit(Branch(CEmpty(p), els, code));
    }

    method BodyBuffer(s: Stmt, p: nat, before: Code) returns (code: Code)
      requires frames.Frames? && s.For?
      modifies this
      ensures var r := LowerBody(s, p, old(State()), plan); code == r.code && State() == r.cs && body == before
      decreases s, 4
    {
      body := [];
      StmtForBody(s, p);
      code := body;
      body := before;
    }

    method ProbeParent(inline: bool) returns (par: nat)
      requires frames.Frames?
      modifies this`body, this`tmpN
      ensures Wrote(LowerParent(inline, old(State())), old(body)) && par == ParentTmp(inline, old(State()))
    {
      if inline {
        par := Mint(2);
        ProbeChain(ParentChain(frames), "loop", par, par + 1);
      } else {
        var g := ProbeName("loop");
        par := Mint(1);
        Emit(SetTmp(par, g));
      }
    }

    method StmtForBody(s: Stmt, p: nat)
      requires frames.Frames? && s.For?
      modifies this
      ensures Wrote(LowerBody(s, p, old(State()), plan), old(body))
      decreases s, 3
    {
      var par := ProbeParent(s.id in plan.inline);
      ghost var probe := LowerParent(s.id in plan.inline, old(State()));
      var f := LoopFrame(s, p, par, State(), plan);
      ghost var cs := State();
      StmtForLoop(s, f);
      Regroup(old(body), probe.code, LowerLoop(s, f, cs, plan).code);
    }

    // The iterations in loop frame f, and the copy-back at the exit.
    method StmtForLoop(s: Stmt, f: CFrame)
      requires frames.Frames? && s.For? && f.loop.LoopInfo? && f.id == frameN + 1 && f.loop.iT == tmpN
      modifies this
      ensures Wrote(LowerLoop(s, f, old(State()), plan), old(body))
      decreases s, 2
    {
      var depth := condDepth;
      Emit(Declare(f.id));
      var code, lf := IterBuffer(s, f, body);
      condDepth := depth;
      Emit(Range(f.loop.iT, f.loop.pT, code));
      ghost var cs := State();
      EmitCopyBack(Rebound(s), lf);
      Regroup(old(body), [Declare(f.id), Range(f.loop.iT, f.loop.pT, code)], CopyBackCode(Rebound(s), lf, cs).code);
    }

    // The code of one iteration, and the loop's frame as the body left it.
    method IterBuffer(s: Stmt, f: CFrame, before: Code) returns (code: Code, lf: CFrame)
      requires frames.Frames? && s.For? && f.loop.LoopInfo? && f.id == frameN + 1 && f.loop.iT == tmpN
      modifies this
      ensures var b := LowerIter(s, f, old(frames), plan);
        && code == b.code && lf == Top(b.cs) && body == before
        && State() == CS(b.cs.frames.below, b.cs.tmpN, b.cs.frameN, condDepth)
      decreases s, 1
    {
      var _ := Mint(1);
      PushFrame(f);
      body := [];
      StmtForIter(s);
      code, lf := body, frames.f;
      body := before;
      PopFrame(condDepth);
    }

    // The targets, the bind of loop and the body, in the loop's frame.
    method StmtForIter(s: Stmt)
      requires frames.Frames? && s.For? && frames.f.loop.LoopInfo?
      requires tmpN == frames.f.loop.iT + 1 && frameN == frames.f.id && condDepth == 0 && body == []
      modifies this
      ensures Wrote(LowerIter(s, old(frames).f, old(frames).below, plan), [])
      decreases s, 0
    {
      BindControls(s, frames.f.loop);
      ghost var head := ControlsCode(s, old(frames).f.loop, old(State()));
      Stmts(s.body);
      IterParts(s, old(frames).f, old(frames).below, plan, old(State()));
      Regroup([], head.code, LowerList(s.body, head.cs, plan).code);
    }

    method BindControls(s: Stmt, li: LoopInfo)
      requires frames.Frames? && s.For? && li.LoopInfo?
      modifies this`body, this`frames
      ensures Wrote(ControlsCode(s, li, old(State())), old(body))
    {
      ghost var t := LowerTargets(s.t1, s.t2, li.pT, li.iT, State());
      BindTargets(s.t1, s.t2, li.pT, li.iT);
      BindLoop(li);
      Regroup(old(body), t.code, LowerLoopBind(li, t.cs).code);
    }

    method BindLoop(li: LoopInfo)
      requires frames.Frames? && li.LoopInfo?
      modifies this`body, this`frames
      ensures Wrote(LowerLoopBind(li, old(State())), old(body))
    {
      var f := frames.f;
      if !li.inline {
        Bind("loop", GNewLoop(li.iT, li.pT, li.parT));
        return;
      }
      if "loop" !in f.order {
        Emit(Panic);
        return;
      }
      if HasOrd(f) { Emit(Branch(CNoFlag("loop", f.id), [AddOrd("loop", f.id)], [])); }
      Emit(SetFlag("loop", f.id));
      frames := Frames(MarkEver(f, "loop"), frames.below);
    }

    // One guarded copy for each name the body may have rebound.
    method EmitCopyBack(names: seq<string>, lf: CFrame)
      requires frames.Frames?
      modifies this
      ensures Wrote(CopyBackCode(names, lf, old(State())), old(body))
    {
      ghost var whole := CopyBackCode(names, lf, State());
      for i := 0 to |names|
        invariant frames.Frames?
        invariant body + CopyBackCode(names[i..], lf, State()).code == old(body) + whole.code
        invariant CopyBackCode(names[i..], lf, State()).cs == whole.cs
      {
        assert names[i..][0] == names[i] && names[i..][1..] == names[i + 1..];
        ghost var before := body;
        ghost var one := CopyBackName(names[i], lf, State());
        EmitCopyBackName(names[i], lf);
        Regroup(before, one.code, CopyBackCode(names[i + 1..], lf, one.cs).code);
      }
      assert names[|names|..] == [];
    }

    method EmitCopyBackName(x: string, lf: CFrame)
      requires frames.Frames?
      modifies this
      ensures Wrote(CopyBackName(x, lf, old(State())), old(body))
    {
      var f := frames.f;
      if x !in f.order || x !in lf.order {
        Emit(Panic);
        return;
      }
      var ls := Chain(frames, x);
      var val := Mint(3);
      var assign := CopiedValue(x, lf, frames, val) + CopyWrite(x, f, val);
      if Terminal(frames, x) {
        body := body + assign;
      } else {
        Emit(SetTmp(val + 2, GConst(Bool(false))));
        body := body + ExistsCode(ls, x, val + 2);
        Emit(Branch(CTruthy(GTmp(val + 2)), assign, []));
      }
      frames := Frames(MarkEver(f, x), frames.below);
    }
  }

  // A module compiled: the root frame over its prescan, then its statements.
  method CompileModule(ss: seq<Stmt>, plan: Plan) returns (code: Code)
    ensures code == LowerModule(ss, plan).code
  {
    var c := new Lowerer(plan);
    var names := CollectNames(ss);
    c.PushFrame(NewFrame(1, KRoot, names, GConst(Null), NoLoop));
    c.Emit(Declare(1));
    c.Stmts(ss);
    code := c.body;
  }
}
