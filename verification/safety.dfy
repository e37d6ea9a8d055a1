/** When the loop optimizer's decisions are safe for an expression or statement at a frame stack:
    no read of the name loop can reach a loop lowered without a loop value, and every approved
    inline read names the loop it resolves to. */
module Safety {
  import opened Values
  import opened Syntax
  import opened Scan
  import opened Target
  import opened Lowering
  import opened Resolution

  // What the loop analysis sees of a frame: its kind, whether it may bind the name loop, and the
  // for it belongs to.
  function ShapeFrame(kind: FrameKind, bindsLoop: bool, node: Option<(nat, bool)>): CFrame {
    CFrame(0, kind, if bindsLoop then ["loop"] else [], {}, {}, GConst(Null),
           if node.Some? then LoopInfo(node.value.0, node.value.1, 0, 0, 0) else NoLoop)
  }

  function ShapeOf(f: CFrame): CFrame {
    ShapeFrame(f.kind, "loop" in f.order, if f.loop.LoopInfo? then Some((f.loop.node, f.loop.inline)) else None)
  }

  function Shape(fs: Frames): Frames {
    if fs.Bottom? then Bottom else Frames(ShapeOf(fs.f), Shape(fs.below))
  }

  lemma ShapeEvolves(a: CS, b: CS)
    requires Evolves(a, b)
    ensures Shape(a.frames) == Shape(b.frames)
  {
  }

  // The inline loop frame a clean read of loop lands on, Bottom when there is none.
  function FirstLoop(fs: Frames): Frames {
    if fs.Bottom? then Bottom
    else if fs.f.kind == KLoop then (if InlineFrame(fs.f) then fs else Bottom)
    else if fs.f.kind == KFilter && "loop" !in fs.f.order then FirstLoop(fs.below)
    else Bottom
  }

  // The inline loop frame whose loop value loop.parent... denotes.
  function ReadTarget(e: Expr, fs: Frames): Frames {
    match e
    case Name(x) => if x == "loop" then FirstLoop(fs) else Bottom
    case Attr(_, r, field, nullSafe) =>
      if field == "parent" && !nullSafe && ReadTarget(r, fs).Frames? then FirstLoop(ReadTarget(r, fs).below) else Bottom
    case _ => Bottom
  }

  // The innermost frame of the for at node.
  function FindFrame(fs: Frames, node: nat): Frames {
    if fs.Bottom? then Bottom
    else if fs.f.loop.LoopInfo? && fs.f.loop.node == node then fs
    else FindFrame(fs.below, node)
  }

  function InlineFields(): set<string> {
    {"index", "index0", "revindex", "revindex0", "length", "first", "last", "prev", "next"}
  }

  predicate ReadOK(e: Expr, fs: Frames, plan: Plan)
    requires e.Attr? && e.node in plan.approved
  {
    var t := ReadTarget(e.recv, fs);
    && !e.nullSafe && e.field in InlineFields() && plan.approved[e.node].1 == e.field
    && t.Frames? && FindFrame(fs, plan.approved[e.node].0) == t
  }

  predicate SafeE(e: Expr, fs: Frames, plan: Plan)
    decreases e, 1
  {
    match e
    case Lit(_) => true
    case Name(x) => Readable(fs, x)
    case Context => true
    case ListLit(items) => forall i | 0 <= i < |items| :: SafeE(items[i], fs, plan)
    case MapLit(fields) => forall i | 0 <= i < |fields| :: SafeE(fields[i].v, fs, plan)
    case Attr(node, r, _, _) => if node in plan.approved then ReadOK(e, fs, plan) else SafeE(r, fs, plan)
    case Not(a) => SafeE(a, fs, plan)
    case Bin(_, l, r) => SafeE(l, fs, plan) && SafeE(r, fs, plan)
    case Logic(_, l, r) => SafeE(l, fs, plan) && SafeE(r, fs, plan)
    case Ternary(c, a, b) => SafeE(c, fs, plan) && SafeE(a, fs, plan) && SafeE(b, fs, plan)
    case Coalesce(l, r) => SafeE(l, fs, plan) && SafeE(r, fs, plan)
    case Elvis(l, r) => SafeE(l, fs, plan) && SafeE(r, fs, plan)
    case Assign(x, a) => SafeE(a, fs, plan) && Bindable(fs, x)
  }

  // An inline loop frame never binds the name loop itself.
  predicate Bindable(fs: Frames, x: string) {
    fs.Frames? && !(x == "loop" && InlineFrame(fs.f))
  }

  predicate SafeS(s: Stmt, fs: Frames, plan: Plan)
    decreases s, 1
  {
    match s
    case Text(_) => true
    case Print(e) => SafeE(e, fs, plan)
    case Do(e) => SafeE(e, fs, plan)
    case Set(x, e) => SafeE(e, fs, plan) && Bindable(fs, x)
    case Capture(x, body) => SafeL(body, fs, plan) && Bindable(fs, x)
    case Apply(body) => SafeL(body, fs, plan)
    case If(clauses) => SafeC(clauses, fs, plan)
    case With(m, only, body) =>
      SafeE(m, fs, plan)
      && SafeL(body, Frames(ShapeFrame(if only then KOnly else KWith, "loop" in BindNames(body), None), fs), plan)
    case For(id, t1, t2, iter, filter, body, els) =>
      var lf := Frames(ShapeFrame(KLoop, true, Some((id, id in plan.inline))), fs);
      && SafeE(iter, fs, plan)
      && (filter.Some? ==> SafeE(filter.value, Frames(ShapeFrame(KFilter, FilterBindsLoop(t1, t2, filter.value), None),
                                                      fs), plan))
      && SafeL(els, fs, plan)
      && (id !in plan.inline ==> LoopClear(fs))
      && Bindable(lf, t1) && (t2.Some? ==> Bindable(lf, t2.value))
      && SafeL(body, lf, plan)
  }

  predicate FilterBindsLoop(t1: string, t2: Option<string>, cond: Expr) {
    "loop" in TargetNames(t1, t2) || "loop" in ExprBinds(cond)
  }

  predicate SafeL(ss: seq<Stmt>, fs: Frames, plan: Plan)
    decreases ss, 0
  {
    ss == [] || (SafeS(ss[0], fs, plan) && SafeL(ss[1..], fs, plan))
  }

  predicate SafeC(cl: seq<Clause>, fs: Frames, plan: Plan)
    decreases cl, 0
  {
    cl == []
    || (match cl[0]
        case Otherwise(body) => SafeL(body, fs, plan)
        case When(c, body) => SafeE(c, fs, plan) && SafeL(body, fs, plan) && SafeC(cl[1..], fs, plan))
  }

  // ----- the plain lowering -----

  // No loop lowered inline, no read approved.
  function PlainPlan(lenient: bool): Plan { Plan(lenient, {}, map[]) }

  predicate Materialized(fs: Frames) {
    fs.Frames? ==> !InlineFrame(fs.f) && Materialized(fs.below)
  }

  lemma {:induction false} MaterializedClear(fs: Frames)
    requires Materialized(fs)
    ensures LoopClear(fs)
  {
    if fs.Frames? { MaterializedClear(fs.below); }
  }

  // Every program is safe under the plain plan.
  lemma {:induction false} PlainE(e: Expr, fs: Frames, lenient: bool)
    requires fs.Frames? && Materialized(fs)
    ensures SafeE(e, fs, PlainPlan(lenient))
    decreases e
  {
    MaterializedClear(fs);
    match e {
      case ListLit(items) => forall i | 0 <= i < |items| { PlainE(items[i], fs, lenient); }
      case MapLit(fields) => forall i | 0 <= i < |fields| { PlainE(fields[i].v, fs, lenient); }
      case Attr(_, r, _, _) => PlainE(r, fs, lenient);
      case Not(a) => PlainE(a, fs, lenient);
      case Bin(_, l, r) => PlainE(l, fs, lenient); PlainE(r, fs, lenient);
      case Logic(_, l, r) => PlainE(l, fs, lenient); PlainE(r, fs, lenient);
      case Ternary(c, a, b) => PlainE(c, fs, lenient); PlainE(a, fs, lenient); PlainE(b, fs, lenient);
      case Coalesce(l, r) => PlainE(l, fs, lenient); PlainE(r, fs, lenient);
      case Elvis(l, r) => PlainE(l, fs, lenient); PlainE(r, fs, lenient);
      case Assign(_, a) => PlainE(a, fs, lenient);
      case _ =>
    }
  }

  lemma {:induction false} PlainS(s: Stmt, fs: Frames, lenient: bool)
    requires fs.Frames? && Materialized(fs)
    ensures SafeS(s, fs, PlainPlan(lenient))
    decreases s, 1
  {
    match s {
      case Text(_) =>
      case Print(e) => PlainE(e, fs, lenient);
      case Do(e) => PlainE(e, fs, lenient);
      case Set(_, e) => PlainE(e, fs, lenient);
      case Capture(_, body) => PlainL(body, fs, lenient);
      case Apply(body) => PlainL(body, fs, lenient);
      case If(clauses) => PlainC(clauses, fs, lenient);
      case With(e, only, body) =>
        PlainE(e, fs, lenient);
        PlainL(body, Frames(ShapeFrame(if only then KOnly else KWith, "loop" in BindNames(body), None), fs), lenient);
      case For(id, t1, t2, iter, filter, body, els) =>
        MaterializedClear(fs);
        PlainE(iter, fs, lenient);
        if filter.Some? {
          PlainE(filter.value, Frames(ShapeFrame(KFilter, FilterBindsLoop(t1, t2, filter.value), None), fs), lenient);
        }
        PlainL(els, fs, lenient);
        PlainL(body, Frames(ShapeFrame(KLoop, true, Some((id, false))), fs), lenient);
    }
  }

  lemma {:induction false} PlainL(ss: seq<Stmt>, fs: Frames, lenient: bool)
    requires fs.Frames? && Materialized(fs)
    ensures SafeL(ss, fs, PlainPlan(lenient))
    decreases ss, 0
  {
    if ss != [] {
      PlainS(ss[0], fs, lenient);
      PlainL(ss[1..], fs, lenient);
    }
  }

  lemma {:induction false} PlainC(cl: seq<Clause>, fs: Frames, lenient: bool)
    requires fs.Frames? && Materialized(fs)
    ensures SafeC(cl, fs, PlainPlan(lenient))
    decreases cl, 0
  {
    if cl != [] {
      match cl[0] {
        case When(c, body) => PlainE(c, fs, lenient); PlainL(body, fs, lenient);
        case Otherwise(body) => PlainL(body, fs, lenient);
      }
      PlainC(cl[1..], fs, lenient);
    }
  }
}
