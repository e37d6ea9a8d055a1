/** The lowering of the syntax to the target: the compile-time scope model and the emitted code. */
module Lowering {
  import opened Values
  import opened Syntax
  import opened Scan
  import opened Target

  // ----- the compile-time scope model -----

  datatype FrameKind = KRoot | KLoop | KFilter | KWith | KOnly

  // The lowering state of a for: its node, whether it binds no per-iteration loop value, and
  // the temporaries of its counter, pair slice and entry-time parent probe.
  datatype LoopInfo = NoLoop | LoopInfo(node: nat, inline: bool, iT: nat, pT: nat, parT: nat)

  // A frame with its prescanned names in source order, the names the walk passed an
  // unconditional bind of, and the names any bind site of which has been lowered.
  datatype CFrame = CFrame(id: nat, kind: FrameKind, order: seq<string>, definite: set<string>,
                           ever: set<string>, withG: GExpr, loop: LoopInfo)

  // The frame stack, innermost first.
  datatype Frames = Bottom | Frames(f: CFrame, below: Frames)

  datatype CS = CS(frames: Frames, tmpN: nat, frameN: nat, cond: nat)

  // The loop optimizer's decisions: the loops lowered inline, and the access nodes approved as
  // inline reads with the loop they read and the field.
  datatype Plan = Plan(lenient: bool, inline: set<nat>, approved: map<nat, (nat, string)>)

  // The result of lowering an expression, and of lowering statements.
  datatype LE = LE(code: Code, g: GExpr, cs: CS)
  datatype LS = LS(code: Code, cs: CS)

  // How lowering may change the state: it fills in the top frame's bindings, mints
  // temporaries and frame ids, and under a conditional leaves definiteness alone.
  ghost predicate Evolves(a: CS, b: CS) {
    && a.frames.Frames? && b.frames.Frames?
    && b.frames.below == a.frames.below
    && FrameGrows(a.frames.f, b.frames.f)
    && a.tmpN <= b.tmpN && a.frameN <= b.frameN && a.cond == b.cond
    && (a.cond > 0 ==> a.frames.f.definite == b.frames.f.definite)
  }

  ghost predicate FrameGrows(f: CFrame, g: CFrame) {
    && g == f.(definite := g.definite, ever := g.ever)
    && f.definite <= g.definite && f.ever <= g.ever
  }

  function Top(cs: CS): CFrame
    requires cs.frames.Frames?
  {
    cs.frames.f
  }

  function WithTop(cs: CS, f: CFrame): CS
    requires cs.frames.Frames?
  {
    cs.(frames := Frames(f, cs.frames.below))
  }

  function Deeper(cs: CS): CS { cs.(cond := cs.cond + 1) }

  function Shallower(cs: CS, cond: nat): CS { cs.(cond := cond) }

  function Fresh(cs: CS, n: nat): CS { cs.(tmpN := cs.tmpN + n) }

  // The frame a construct pushes, with every prescanned name undetermined.
  function NewFrame(id: nat, kind: FrameKind, names: seq<string>, withG: GExpr, loop: LoopInfo): CFrame {
    CFrame(id, kind, AddNames([], names), {}, {}, withG, loop)
  }

  predicate InlineFrame(f: CFrame) { f.kind == KLoop && f.loop.LoopInfo? && f.loop.inline }

  predicate HasOrd(f: CFrame) { f.kind != KRoot && f.order != [] }

  // ----- name resolution -----

  // A step of a name's resolution: a frame binding, an enclosing loop's value, a with-map, the
  // top-level variables.
  datatype Link = LBind(x: string, fid: nat, definite: bool) | LLoop(v: GExpr) | LWith(g: GExpr) | LVars

  // The resolution chain of a name: one link per frame that may bind it, cut at a definite
  // binding, at an only-with frame and at the root.
  function Chain(fs: Frames, x: string): seq<Link> {
    if fs.Bottom? then []
    else
      var f := fs.f;
      var own := if x in f.order then [LBind(x, f.id, x in f.definite)] else [];
      if x in f.order && x in f.definite then own
      else
        match f.kind
        case KWith => own + [LWith(f.withG)] + Chain(fs.below, x)
        case KOnly => own + [LWith(f.withG)]
        case KRoot => own + [LVars]
        case _ => own + Chain(fs.below, x)
  }

  // Whether the chain ends in a link that always binds.
  predicate Terminal(fs: Frames, x: string) {
    && fs.Frames?
    && (|| (x in fs.f.order && x in fs.f.definite)
        || (fs.f.kind != KOnly && fs.f.kind != KRoot && Terminal(fs.below, x)))
  }

  function LinkCond(l: Link, x: string, found: nat): Cond {
    match l
    case LBind(_, fid, definite) =>
      if definite then CFalsy(GTmp(found)) else CAnd(CFalsy(GTmp(found)), CFlag(x, fid))
    case LLoop(_) => CFalsy(GTmp(found))
    case LWith(g) => CAnd(CFalsy(GTmp(found)), CWithHas(g, x))
    case LVars => CAnd(CFalsy(GTmp(found)), CInVars(x))
  }

  function LinkVal(l: Link, x: string): GExpr {
    match l
    case LBind(_, fid, _) => GVar(x, fid)
    case LLoop(v) => v
    case LWith(g) => GWithAt(g, x)
    case LVars => GVarsAt(x)
  }

  // The guarded assignments of a resolution chain into a value and a found temporary.
  function EmitLinks(ls: seq<Link>, x: string, val: nat, found: nat): Code {
    if ls == [] then []
    else
      [Branch(LinkCond(ls[0], x, found), [SetTmp(val, LinkVal(ls[0], x)), SetTmp(found, GConst(Bool(true)))], [])]
      + EmitLinks(ls[1..], x, val, found)
  }

  function ProbeCode(ls: seq<Link>, x: string, val: nat, found: nat): Code {
    [SetTmp(val, GConst(Null)), SetTmp(found, GConst(Bool(false)))] + EmitLinks(ls, x, val, found)
  }

  // The contributions to the available-names hint, outermost first.
  function HintParts(fs: Frames): seq<Hint>
    decreases fs, 1
  {
    if fs.Bottom? then []
    else if HasOrd(fs.f) then HintBase(fs) + [HOrd(fs.f.id)]
    else HintBase(fs)
  }

  function HintBase(fs: Frames): seq<Hint>
    requires fs.Frames?
    decreases fs, 0
  {
    if fs.f.kind == KRoot then [HRoot]
    else if fs.f.kind == KOnly then [HWith(fs.f.withG)]
    else if fs.f.kind == KWith then HintParts(fs.below) + [HWith(fs.f.withG)]
    else HintParts(fs.below)
  }

  // A presence-checked read: the single-definite fast path yields the local itself.
  function Probe(x: string, cs: CS): LE {
    var ls := Chain(cs.frames, x);
    if Terminal(cs.frames, x) && |ls| == 1 then LE([], LinkVal(ls[0], x), cs)
    else LE(ProbeCode(ls, x, cs.tmpN, cs.tmpN + 1), GTmp(cs.tmpN), Fresh(cs, 2))
  }

  // A bare-name read, raising the undefined-name error on a strict miss.
  function ReadName(x: string, cs: CS, absent: bool, plan: Plan): LE {
    var p := Probe(x, cs);
    if Terminal(cs.frames, x) || absent || plan.lenient then p
    else p.(code := p.code + [Branch(CFalsy(GTmp(cs.tmpN + 1)), [Raise(x, HintParts(cs.frames))], [])])
  }

  // ----- binding -----

  function MarkBound(f: CFrame, x: string, cond: nat): CFrame {
    f.(definite := if cond == 0 then f.definite + {x} else f.definite, ever := f.ever + {x})
  }

  function MarkEver(f: CFrame, x: string): CFrame {
    f.(ever := f.ever + {x})
  }

  // The order maintenance of a bind: the root appends to the name list, any other frame to its slice.
  function OrderCode(f: CFrame, x: string): Code {
    if x in f.definite then []
    else if f.kind == KRoot then
      (if x in f.ever then [Branch(CNoFlag(x, f.id), [Branch(CNotInVars(x), [AddQName(x)], [])], [])]
       else [Branch(CNotInVars(x), [AddQName(x)], [])])
    else if HasOrd(f) then [Branch(CNoFlag(x, f.id), [AddOrd(x, f.id)], [])]
    else []
  }

  // One bind of a name in the current frame.
  function BindName(x: string, g: GExpr, cs: CS): (r: LS)
    requires cs.frames.Frames?
    ensures Evolves(cs, r.cs)
  {
    var f := Top(cs);
    if x !in f.order then LS([Panic], cs)
    else
      LS(OrderCode(f, x) + [SetVar(x, f.id, g)] + (if x in f.definite then [] else [SetFlag(x, f.id)]),
         WithTop(cs, MarkBound(f, x, cs.cond)))
  }

  predicate Spilled(g: GExpr) { g.GConst? || g.GTmp? }

  // Captures a value before later code can rebind the locals it reads.
  function Spill(g: GExpr, cs: CS): LE {
    if Spilled(g) then LE([], g, cs) else LE([SetTmp(cs.tmpN, g)], GTmp(cs.tmpN), Fresh(cs, 1))
  }

  // ----- inline loop reads -----

  function FindLoop(fs: Frames, node: nat): LoopInfo {
    if fs.Bottom? then NoLoop
    else if fs.f.loop.LoopInfo? && fs.f.loop.node == node then fs.f.loop
    else FindLoop(fs.below, node)
  }

  function InlineRead(li: LoopInfo, field: string, cs: CS): LE {
    if li.NoLoop? then LE([Panic], GConst(Null), cs)
    else if field in {"index", "index0", "revindex", "revindex0", "length", "first", "last"} then
      LE([], GField(li.iT, li.pT, field), cs)
    else if field == "prev" then
      LE([SetTmp(cs.tmpN, GConst(Null)), Branch(CHasPrev(li.iT), [SetTmp(cs.tmpN, GElem(li.pT, li.iT, -1))], [])],
         GTmp(cs.tmpN), Fresh(cs, 1))
    else if field == "next" then
      LE([SetTmp(cs.tmpN, GConst(Null)), Branch(CHasNext(li.iT, li.pT), [SetTmp(cs.tmpN, GElem(li.pT, li.iT, 1))], [])],
         GTmp(cs.tmpN), Fresh(cs, 1))
    else LE([Panic], GConst(Null), cs)
  }

  // The entry-time parent chain of an inline loop: an enclosing loop frame ends it, its value read
  // from its local when materialized and built from its counter when inline.
  function ParentChain(fs: Frames): seq<Link> {
    if fs.Bottom? then []
    else
      var f := fs.f;
      var own := if "loop" in f.order then [LBind("loop", f.id, "loop" in f.definite)] else [];
      if "loop" in f.order && f.kind == KLoop then
        [LLoop(if InlineFrame(f) then GNewLoop(f.loop.iT, f.loop.pT, f.loop.parT) else GVar("loop", f.id))]
      else if "loop" in f.order && "loop" in f.definite then own
      else
        match f.kind
        case KWith => own + [LWith(f.withG)] + ParentChain(fs.below)
        case KOnly => own + [LWith(f.withG)]
        case KRoot => own + [LVars]
        case _ => own + ParentChain(fs.below)
  }

  // ----- scope enumeration -----

  function SlotOf(f: CFrame): LoopSlot {
    if InlineFrame(f) then OnDemand(f.loop.iT, f.loop.pT, f.loop.parT)
    else FromLocal
  }

  function ContextCode(fs: Frames, t: nat): Code
    decreases fs, 1
  {
    if fs.Bottom? then []
    else if HasOrd(fs.f) then ContextBase(fs, t) + [CtxOrd(t, fs.f.id, fs.f.order, SlotOf(fs.f))]
    else ContextBase(fs, t)
  }

  function ContextBase(fs: Frames, t: nat): Code
    requires fs.Frames?
    decreases fs, 0
  {
    if fs.f.kind == KRoot then [CtxRoot(t, fs.f.id, fs.f.order, fs.f.definite)]
    else if fs.f.kind == KOnly then [CtxWith(t, fs.f.withG)]
    else if fs.f.kind == KWith then ContextCode(fs.below, t) + [CtxWith(t, fs.f.withG)]
    else ContextCode(fs.below, t)
  }

  // ----- expressions -----

  function LowerE(e: Expr, absent: bool, cs: CS, plan: Plan): (r: LE)
    requires cs.frames.Frames?
    ensures Evolves(cs, r.cs)
    decreases e, 1
  {
    match e
    case Lit(v) => LE([], GConst(v), cs)
    case Name(x) => ReadName(x, cs, absent, plan)
    case Context =>
      LE([SetTmp(cs.tmpN, GConst(Arr([])))] + ContextCode(cs.frames, cs.tmpN), GTmp(cs.tmpN), Fresh(cs, 1))
    case ListLit(items) =>
      var r := LowerItems(items, 0, cs.tmpN, Fresh(cs, 1), plan);
      LE([SetTmp(cs.tmpN, GConst(Arr([])))] + r.code, GTmp(cs.tmpN), r.cs)
    case MapLit(fields) =>
      var r := LowerFields(fields, cs.tmpN, Fresh(cs, 1), plan);
      LE([SetTmp(cs.tmpN, GConst(Arr([])))] + r.code, GTmp(cs.tmpN), r.cs)
    case Attr(node, recv, field, nullSafe) =>
      if node in plan.approved then InlineRead(FindLoop(cs.frames, plan.approved[node].0), plan.approved[node].1, cs)
      else
        var r := LowerE(recv, absent, cs, plan);
        LowerAttr(r, field, nullSafe, absent)
    case Not(a) =>
      var r := LowerE(a, false, cs, plan);
      var p := Spill(r.g, r.cs);
      LE(r.code + p.code, GNot(p.g), p.cs)
    case Bin(_, _, _) => LowerBin(e, cs, plan)
    case Logic(_, _, _) => LowerLogic(e, cs, plan)
    case Ternary(_, _, _) => LowerTernary(e, cs, plan)
    case Coalesce(_, _) => LowerFallback(e, cs, plan)
    case Elvis(_, _) => LowerFallback(e, cs, plan)
    case Assign(x, a) =>
      var r := LowerE(a, false, cs, plan);
      var p := Spill(r.g, r.cs);
      var b := BindName(x, p.g, p.cs);
      LE(r.code + p.code + b.code, p.g, b.cs)
  }

  function LowerBin(e: Expr, cs: CS, plan: Plan): (res: LE)
    requires cs.frames.Frames? && e.Bin?
    ensures Evolves(cs, res.cs)
    decreases e, 0
  {
    var a := LowerE(e.l, false, cs, plan);
    var p := Spill(a.g, a.cs);
    var b := LowerE(e.r, false, p.cs, plan);
    LE(a.code + p.code + b.code + [CallBin(b.cs.tmpN, e.op, p.g, b.g)], GTmp(b.cs.tmpN), Fresh(b.cs, 1))
  }

  function LowerLogic(e: Expr, cs: CS, plan: Plan): (res: LE)
    requires cs.frames.Frames? && e.Logic?
    ensures Evolves(cs, res.cs)
    decreases e, 0
  {
    var a := LowerE(e.l, false, cs, plan);
    var p := Spill(a.g, a.cs);
    var t := LogicRest(e, p.g, p.cs, plan);
    LE(a.code + p.code + t.code, t.g, t.cs)
  }

  // The right operand over the spilled left one: xor evaluates it, the short-circuit operators
  // guard it.
  function LogicRest(e: Expr, g: GExpr, cs: CS, plan: Plan): (res: LE)
    requires cs.frames.Frames? && e.Logic?
    ensures Evolves(cs, res.cs)
    decreases e, 0, 0
  {
    if e.lop == Xor then
      var b := LowerE(e.r, false, cs, plan);
      var q := Spill(b.g, b.cs);
      LE(b.code + q.code, GXor(g, q.g), q.cs)
    else
      var t := cs.tmpN;
      var b := LowerE(e.r, false, Deeper(Fresh(cs, 1)), plan);
      LE([SetTmp(t, GConst(Bool(e.lop == Or))),
          Branch(if e.lop == And then CTruthy(g) else CFalsy(g), b.code + [SetTmp(t, GTruth(b.g))], [])],
         GTmp(t), Shallower(b.cs, cs.cond))
  }

  function LowerTernary(e: Expr, cs: CS, plan: Plan): (res: LE)
    requires cs.frames.Frames? && e.Ternary?
    ensures Evolves(cs, res.cs)
    decreases e, 0
  {
    var t := cs.tmpN;
    var cc := LowerE(e.c, false, Fresh(cs, 1), plan);
    var ca := LowerE(e.a, false, Deeper(cc.cs), plan);
    var cb := LowerE(e.b, false, ca.cs, plan);
    LE([SetTmp(t, GConst(Null))] + cc.code
       + [Branch(CTruthy(cc.g), ca.code + [SetTmp(t, ca.g)], cb.code + [SetTmp(t, cb.g)])],
       GTmp(t), Shallower(cb.cs, cs.cond))
  }

  // The left operand under undefined suppression, the right only when the fallback fires.
  function LowerFallback(e: Expr, cs: CS, plan: Plan): (res: LE)
    requires cs.frames.Frames? && (e.Coalesce? || e.Elvis?)
    ensures Evolves(cs, res.cs)
    decreases e, 0
  {
    var a := LowerE(e.l, true, cs, plan);
    var t := a.cs.tmpN;
    var b := LowerE(e.r, false, Deeper(Fresh(a.cs, 1)), plan);
    LE(a.code + [SetTmp(t, a.g),
                 Branch(if e.Coalesce? then CNull(GTmp(t)) else CFalsy(GTmp(t)), b.code + [SetTmp(t, b.g)], [])],
       GTmp(t), Shallower(b.cs, cs.cond))
  }

  // The member read over a lowered receiver: an array fast path, and the null short-circuit.
  function LowerAttr(r: LE, field: string, nullSafe: bool, absent: bool): (res: LE)
    requires r.cs.frames.Frames?
    ensures Evolves(r.cs, res.cs)
  {
    var t := r.cs.tmpN;
    if !nullSafe && !absent then
      LE(r.code + [SetTmp(t, GConst(Null)),
                   Branch(CWithHas(r.g, field), [SetTmp(t, GWithAt(r.g, field))],
                          [CallDot(t, r.g, field, false)])],
         GTmp(t), Fresh(r.cs, 1))
    else
      var p := Spill(r.g, r.cs);
      var res := p.cs.tmpN;
      LE(r.code + p.code + [SetTmp(res, GConst(Null)),
                            Branch(CNotNull(p.g), [CallDot(res, p.g, field, absent)], [])],
         GTmp(res), Fresh(p.cs, 1))
  }

  function LowerItems(items: seq<Expr>, n: nat, arr: nat, cs: CS, plan: Plan): (r: LS)
    requires cs.frames.Frames?
    ensures Evolves(cs, r.cs)
    decreases items, 0
  {
    if items == [] then LS([], cs)
    else
      var a := LowerE(items[0], false, cs, plan);
      var rest := LowerItems(items[1..], n + 1, arr, a.cs, plan);
      LS(a.code + [PutKey(arr, IntText(n), a.g)] + rest.code, rest.cs)
  }

  function LowerFields(fields: seq<Entry>, arr: nat, cs: CS, plan: Plan): (r: LS)
    requires cs.frames.Frames?
    ensures Evolves(cs, r.cs)
    decreases fields, 0
  {
    if fields == [] then LS([], cs)
    else
      var a := LowerE(fields[0].v, false, cs, plan);
      var rest := LowerFields(fields[1..], arr, a.cs, plan);
      LS(a.code + [PutKey(arr, fields[0].key, a.g)] + rest.code, rest.cs)
  }

  // ----- statements -----

  function LowerS(s: Stmt, cs: CS, plan: Plan): (r: LS)
    requires cs.frames.Frames?
    ensures Evolves(cs, r.cs)
    decreases s, 5
  {
    match s
    case Text(t) => LS([WriteText(t)], cs)
    case Print(e) =>
      var r := LowerE(e, false, cs, plan);
      LS(r.code + [Write(r.g)], r.cs)
    case Do(e) =>
      var r := LowerE(e, false, cs, plan);
      LS(r.code, r.cs)
    case Set(x, e) =>
      var r := LowerE(e, false, cs, plan);
      var b := BindName(x, r.g, r.cs);
      LS(r.code + b.code, b.cs)
    case Capture(x, body) =>
      var t := cs.tmpN;
      var r := LowerList(body, Fresh(cs, 1), plan);
      var b := BindName(x, GTmp(t), r.cs);
      LS([CaptureInto(t, r.code)] + b.code, b.cs)
    case Apply(body) =>
      var t := cs.tmpN;
      var r := LowerList(body, Fresh(cs, 1), plan);
      LS([CaptureInto(t, r.code)] + [Write(GTmp(t))], r.cs)
    case If(clauses) => LowerClauses(clauses, cs, plan)
    case With(m, only, body) =>
      var r := LowerE(m, false, cs, plan);
      var p := Spill(r.g, r.cs);
      var b := LowerWithBody(body, WithFrame(body, only, p.g, p.cs), p.cs, plan);
      LS((r.code + p.code) + b.code, b.cs)
    case For(_, _, _, _, _, _, _) => LowerFor(s, cs, plan)
  }

  function WithFrame(body: seq<Stmt>, only: bool, g: GExpr, cs: CS): CFrame {
    NewFrame(cs.frameN + 1, if only then KOnly else KWith, BindNames(body), g, NoLoop)
  }

  // The body of a with in its frame f.
  function LowerWithBody(body: seq<Stmt>, f: CFrame, cs: CS, plan: Plan): (r: LS)
    requires cs.frames.Frames? && f.id == cs.frameN + 1
    ensures Evolves(cs, r.cs)
    decreases body, 1
  {
    var b := LowerList(body, CS(Frames(f, cs.frames), cs.tmpN, f.id, 0), plan);
    LS([Declare(f.id)] + b.code, CS(b.cs.frames.below, b.cs.tmpN, b.cs.frameN, cs.cond))
  }

  function LowerList(ss: seq<Stmt>, cs: CS, plan: Plan): (r: LS)
    requires cs.frames.Frames?
    ensures Evolves(cs, r.cs)
    decreases ss, 0
  {
    if ss == [] then LS([], cs)
    else
      var a := LowerS(ss[0], cs, plan);
      var b := LowerList(ss[1..], a.cs, plan);
      LS(a.code + b.code, b.cs)
  }

  function LowerClauses(cl: seq<Clause>, cs: CS, plan: Plan): (r: LS)
    requires cs.frames.Frames?
    ensures Evolves(cs, r.cs)
    decreases cl, 0
  {
    if cl == [] then LS([], cs)
    else
      match cl[0]
      case Otherwise(body) =>
        var b := LowerList(body, Deeper(cs), plan);
        LS(b.code, Shallower(b.cs, cs.cond))
      case When(c, body) =>
        var cc := LowerE(c, false, cs, plan);
        var b := LowerList(body, Deeper(cc.cs), plan);
        var rest := LowerClauses(cl[1..], b.cs, plan);
        LS(cc.code + [Branch(CTruthy(cc.g), b.code, rest.code)], Shallower(rest.cs, cs.cond))
  }

  // The per-iteration target binds.
  function LowerTargets(t1: string, t2: Option<string>, p: nat, i: nat, cs: CS): (r: LS)
    requires cs.frames.Frames?
    ensures Evolves(cs, r.cs)
  {
    if t2.Some? then
      var a := BindName(t1, GKey(p, i), cs);
      var b := BindName(t2.value, GElem(p, i, 0), a.cs);
      LS(a.code + b.code, b.cs)
    else BindName(t1, GElem(p, i, 0), cs)
  }

  function FilterFrame(cond: Expr, t1: string, t2: Option<string>, cs: CS): CFrame {
    NewFrame(cs.frameN + 1, KFilter, TargetNames(t1, t2) + ExprBinds(cond), GConst(Null), NoLoop)
  }

  // One candidate of the fused filter in frame f, kept in temporary n when the condition holds.
  function LowerCandidate(f: CFrame, cond: Expr, t1: string, t2: Option<string>, p: nat, n: nat, below: Frames,
                          plan: Plan)
      : (r: LS)
    ensures Evolves(CS(Frames(f, below), n + 2, f.id, 0), r.cs)
  {
    var a := LowerTargets(t1, t2, p, n + 1, CS(Frames(f, below), n + 2, f.id, 0));
    var c := LowerE(cond, false, a.cs, plan);
    LS(a.code + (c.code + [Branch(CTruthy(c.g), [AppendPair(n, p, n + 1)], [])]), c.cs)
  }

  // The fused filter in frame f: the survivors replace the pairs.
  function LowerFilter(f: CFrame, cond: Expr, t1: string, t2: Option<string>, p: nat, cs: CS, plan: Plan): (r: LS)
    requires cs.frames.Frames? && f.id == cs.frameN + 1
    ensures Evolves(cs, r.cs)
  {
    var surv := cs.tmpN;
    var c := LowerCandidate(f, cond, t1, t2, p, surv, cs.frames, plan);
    LS([SetTmp(surv, GConst(Arr([]))), Declare(f.id)] + [Range(surv + 1, p, c.code), SetTmp(p, GTmp(surv))],
       CS(c.cs.frames.below, c.cs.tmpN, c.cs.frameN, cs.cond))
  }

  // The per-iteration bind of loop: an inline loop binds only the name.
  function LowerLoopBind(li: LoopInfo, cs: CS): (r: LS)
    requires cs.frames.Frames? && li.LoopInfo?
    ensures Evolves(cs, r.cs)
  {
    var f := Top(cs);
    if !li.inline then BindName("loop", GNewLoop(li.iT, li.pT, li.parT), cs)
    else if "loop" !in f.order then LS([Panic], cs)
    else
      LS((if HasOrd(f) then [Branch(CNoFlag("loop", f.id), [AddOrd("loop", f.id)], [])] else [])
         + [SetFlag("loop", f.id)],
         WithTop(cs, MarkEver(f, "loop")))
  }

  // The entry-time probe of the enclosing loop value.
  function LowerParent(inline: bool, cs: CS): (r: LS)
    requires cs.frames.Frames?
    ensures Evolves(cs, r.cs)
  {
    if inline then
      LS(ProbeCode(ParentChain(cs.frames), "loop", cs.tmpN, cs.tmpN + 1), Fresh(cs, 2))
    else
      var p := Probe("loop", cs);
      LS(p.code + [SetTmp(p.cs.tmpN, p.g)], Fresh(p.cs, 1))
  }

  // The temporary LowerParent leaves the probe in.
  function ParentTmp(inline: bool, cs: CS): nat {
    if inline then cs.tmpN else Probe("loop", cs).cs.tmpN
  }

  // The copied value: the loop frame's binding when it holds one, else the visible value.
  function CopiedValue(x: string, lf: CFrame, fs: Frames, val: nat): Code {
    [SetTmp(val, GConst(Null)),
     Branch(CFlag(x, lf.id), [SetTmp(val, GVar(x, lf.id))],
            [SetTmp(val + 1, GConst(Bool(false)))] + EmitLinks(Chain(fs, x), x, val, val + 1))]
  }

  // The write of a copied value: a first bind enters the frame's order (the root already lists it).
  function CopyWrite(x: string, f: CFrame, val: nat): Code {
    (if x !in f.definite && HasOrd(f) then [Branch(CNoFlag(x, f.id), [AddOrd(x, f.id)], [])] else [])
    + ([SetVar(x, f.id, GTmp(val))] + (if x in f.definite then [] else [SetFlag(x, f.id)]))
  }

  // The copy-back of one rebound name from loop frame lf into the parent frame, which is the top:
  // it happens exactly when the name pre-existed.
  function CopyBackName(x: string, lf: CFrame, cs: CS): (r: LS)
    requires cs.frames.Frames?
    ensures Evolves(cs, r.cs)
  {
    var f := Top(cs);
    if x !in f.order || x !in lf.order then LS([Panic], cs)
    else
      var ls := Chain(cs.frames, x);
      var val, ex := cs.tmpN, cs.tmpN + 2;
      var assign := CopiedValue(x, lf, cs.frames, val) + CopyWrite(x, f, val);
      var next := WithTop(Fresh(cs, 3), MarkEver(f, x));
      if Terminal(cs.frames, x) then LS(assign, next)
      else
        LS([SetTmp(ex, GConst(Bool(false)))] + ExistsCode(ls, x, ex) + [Branch(CTruthy(GTmp(ex)), assign, [])], next)
  }

  // Whether any link of a chain without definite links binds the name.
  function ExistsCode(ls: seq<Link>, x: string, ex: nat): Code {
    if ls == [] then []
    else
      [Branch(match ls[0]
              case LBind(_, fid, _) => CFlag(x, fid)
              case LLoop(v) => CNotNull(v)
              case LWith(g) => CWithHas(g, x)
              case LVars => CInVars(x), [SetTmp(ex, GConst(Bool(true)))], [])]
      + ExistsCode(ls[1..], x, ex)
  }

  function CopyBackCode(names: seq<string>, lf: CFrame, cs: CS): (r: LS)
    requires cs.frames.Frames?
    ensures Evolves(cs, r.cs)
  {
    if names == [] then LS([], cs)
    else
      var a := CopyBackName(names[0], lf, cs);
      var b := CopyBackCode(names[1..], lf, a.cs);
      LS(a.code + b.code, b.cs)
  }

  // One iteration in loop frame f: the targets, the bind of loop, the body.
  function LowerIter(s: Stmt, f: CFrame, below: Frames, plan: Plan): (r: LS)
    requires s.For? && f.loop.LoopInfo?
    ensures Evolves(CS(Frames(f, below), f.loop.iT + 1, f.id, 0), r.cs)
    decreases s, 0
  {
    var t := LowerTargets(s.t1, s.t2, f.loop.pT, f.loop.iT, CS(Frames(f, below), f.loop.iT + 1, f.id, 0));
    var l := LowerLoopBind(f.loop, t.cs);
    var b := LowerList(s.body, l.cs, plan);
    LS(t.code + l.code + b.code, b.cs)
  }

  // The persistent frame of a loop over the pairs in p; cs is the state after the parent probe.
  function LoopFrame(s: Stmt, p: nat, par: nat, cs: CS, plan: Plan): CFrame
    requires s.For?
  {
    NewFrame(cs.frameN + 1, KLoop, TargetNames(s.t1, s.t2) + ["loop"] + BindNames(s.body), GConst(Null),
             LoopInfo(s.id, s.id in plan.inline, cs.tmpN, p, par))
  }

  // The names a loop may rebind outside itself.
  function Rebound(s: Stmt): seq<string>
    requires s.For?
  {
    Without(BindNames(s.body), LoopControls(s.t1, s.t2))
  }

  // The iterations in loop frame f, and the copy-back at the exit.
  function LowerLoop(s: Stmt, f: CFrame, cs: CS, plan: Plan): (r: LS)
    requires cs.frames.Frames? && s.For?
    requires f.loop.LoopInfo? && f.id == cs.frameN + 1 && f.loop.iT == cs.tmpN
    ensures Evolves(cs, r.cs)
    decreases s, 1
  {
    var b := LowerIter(s, f, cs.frames, plan);
    var c := CopyBackCode(Rebound(s), Top(b.cs), CS(b.cs.frames.below, b.cs.tmpN, b.cs.frameN, cs.cond));
    LS([Declare(f.id), Range(f.loop.iT, f.loop.pT, b.code)] + c.code, c.cs)
  }

  // The non-empty arm of a for: probe, frame, iterations, copy-back.
  function LowerBody(s: Stmt, p: nat, cs: CS, plan: Plan): (r: LS)
    requires cs.frames.Frames? && s.For?
    ensures Evolves(cs, r.cs)
    decreases s, 2
  {
    var inline := s.id in plan.inline;
    var par := LowerParent(inline, cs);
    var l := LowerLoop(s, LoopFrame(s, p, ParentTmp(inline, cs), par.cs, plan), par.cs, plan);
    LS(par.code + l.code, l.cs)
  }

  // The filter pre-pass, when there is one.
  function LowerPairs(s: Stmt, p: nat, cs: CS, plan: Plan): (r: LS)
    requires cs.frames.Frames? && s.For?
    ensures Evolves(cs, r.cs)
  {
    if s.filter.None? then LS([], cs)
    else LowerFilter(FilterFrame(s.filter.value, s.t1, s.t2, cs), s.filter.value, s.t1, s.t2, p, cs, plan)
  }

  // The empty and the non-empty arm.
  function LowerArms(s: Stmt, p: nat, cs: CS, plan: Plan): (r: LS)
    requires cs.frames.Frames? && s.For?
    ensures Evolves(cs, r.cs)
    decreases s, 3
  {
    var e := LowerList(s.els, Deeper(cs), plan);
    var b := LowerBody(s, p, Shallower(e.cs, cs.cond), plan);
    LS([Branch(CEmpty(p), e.code, b.code)], b.cs)
  }

  function LowerFor(s: Stmt, cs: CS, plan: Plan): (r: LS)
    requires cs.frames.Frames? && s.For?
    ensures Evolves(cs, r.cs)
    decreases s, 4
  {
    var it := LowerE(s.iter, false, cs, plan);
    var p := it.cs.tmpN;
    var fl := LowerPairs(s, p, Fresh(it.cs, 1), plan);
    var arms := LowerArms(s, p, fl.cs, plan);
    LS(it.code + ([CallTraverse(p, it.g, plan.lenient)] + (fl.code + arms.code)), arms.cs)
  }

  // A module: the root frame over its prescan.
  function LowerModule(ss: seq<Stmt>, plan: Plan): LS {
    var f := NewFrame(1, KRoot, BindNames(ss), GConst(Null), NoLoop);
    var b := LowerList(ss, CS(Frames(f, Bottom), 0, 1, 0), plan);
    LS([Declare(1)] + b.code, b.cs)
  }
}
