/** Soundness of the loop optimizer: its decisions are safe wherever the walk looked. */
module LoopSafe {
  import opened Values
  import opened Syntax
  import opened Scan
  import opened Lowering
  import opened Resolution
  import opened Safety
  import opened ExprSim
  import opened LoopOpt

  // ----- approved reads -----

  lemma {:induction false} ApproveFacts(rs: seq<ChainRead>, m: set<nat>, noInline: set<nat>,
                                        node: nat) returns (r: ChainRead)
    requires node in Approve(rs, m, noInline)
    ensures r in rs && r.node == node && r.chain != [] && r.chain[0] !in m && node !in noInline
    ensures Approve(rs, m, noInline)[node] == (r.chain[|r.chain| - 1], r.field)
  {
    var last := rs[|rs| - 1];
    assert rs == rs[..|rs| - 1] + [last];
    if last.chain != [] && last.chain[0] !in m && last.node !in noInline && last.node == node {
      r := last;
    } else {
      r := ApproveFacts(rs[..|rs| - 1], m, noInline, node);
    }
  }

  lemma {:induction false} ApproveAll(rs: seq<ChainRead>, m: set<nat>, noInline: set<nat>, r: ChainRead)
    requires r in rs && r.chain != [] && r.chain[0] !in m && r.node !in noInline
    ensures r.node in Approve(rs, m, noInline)
  {
    var last := rs[|rs| - 1];
    assert rs == rs[..|rs| - 1] + [last];
    if r != last { ApproveAll(rs[..|rs| - 1], m, noInline, r); }
  }

  // A node without differing chains resolves one chain.
  lemma SameChain(w: Walk, a: ChainRead, b: ChainRead)
    requires a in w.chains && b in w.chains && a.node == b.node && !Differing(w.chains, a.node)
    ensures a.chain == b.chain
  {
    var i :| 0 <= i < |w.chains| && w.chains[i] == a;
    var j :| 0 <= j < |w.chains| && w.chains[j] == b;
  }

  // ----- the analyzer's stack and the frames of the lowering -----

  // Loops outside m are the inline ones.
  ghost predicate Fits(st: AStack, fs: Frames, m: set<nat>) {
    && fs.Frames?
    && match st
       case ARoot => fs.f.kind == KRoot && fs.below.Bottom? && fs.f.loop.NoLoop?
       case APush(f, below) =>
         && Fits(below, fs.below, m)
         && (match f
             case ALoop(n) =>
               fs.f.kind == KLoop && fs.f.loop.LoopInfo? && fs.f.loop.node == n && fs.f.loop.inline == (n !in m)
                   && "loop" in fs.f.order
             case AFilter(b) => fs.f.kind == KFilter && (("loop" in fs.f.order) == b) && fs.f.loop.NoLoop?
             case AWith => fs.f.kind == KWith && fs.f.loop.NoLoop?
             case AOnly => fs.f.kind == KOnly && fs.f.loop.NoLoop?)
  }

  // An inline loop stands on the stack once.
  ghost predicate Once(fs: Frames, m: set<nat>) {
    fs.Frames? ==>
      && Once(fs.below, m)
      && (fs.f.loop.LoopInfo? && fs.f.loop.node !in m ==> FindFrame(fs.below, fs.f.loop.node).Bottom?)
  }

  ghost predicate Seen(fs: Frames, w: Walk) {
    fs.Frames? ==> Seen(fs.below, w) && (fs.f.loop.LoopInfo? ==> fs.f.loop.node in w.visited)
  }

  lemma {:induction false} SeenLater(fs: Frames, a: Walk, b: Walk)
    requires Seen(fs, a) && Grows(a, b)
    ensures Seen(fs, b)
  {
    if fs.Frames? { SeenLater(fs.below, a, b); }
  }

  lemma {:induction false} UnseenBottom(fs: Frames, w: Walk, n: nat)
    requires Seen(fs, w) && n !in w.visited
    ensures FindFrame(fs, n).Bottom?
  {
    if fs.Frames? { UnseenBottom(fs.below, w, n); }
  }

  // The innermost frame of an inline loop is any frame of it.
  lemma {:induction false} FindOnce(t: Frames, fs: Frames, m: set<nat>)
    requires Suffix(t, fs) && Once(fs, m) && t.Frames? && t.f.loop.LoopInfo? && t.f.loop.node !in m
    ensures FindFrame(fs, t.f.loop.node) == t
  {
    if t != fs { FindOnce(t, fs.below, m); }
  }

  // A landing reference that is materialized leaves the read clear of inline loops.
  lemma {:induction false} LandingClear(st: AStack, fs: Frames, m: set<nat>)
    requires Fits(st, fs, m)
    requires var t := AttributeLoop(st).0; AtLoop(t) ==> t.f.node in m
    ensures LoopClear(fs)
  {
    if st.APush? && !st.f.ALoop? && !st.f.AOnly? { LandingClear(st.below, fs.below, m); }
  }

  lemma {:induction false} NearestClear(st: AStack, fs: Frames, m: set<nat>)
    requires Fits(st, fs, m) && (NearestLoop(st).Some? ==> NearestLoop(st).value in m)
    ensures LoopClear(fs)
  {
    if st.APush? && !st.f.ALoop? && !st.f.AOnly? { NearestClear(st.below, fs.below, m); }
  }

  // A clean landing on an inline loop is the frame a clean read finds.
  lemma {:induction false} LandingFrame(st: AStack, fs: Frames, m: set<nat>)
    requires Fits(st, fs, m) && AtLoop(AttributeLoop(st).0) && AttributeLoop(st).1 && AttributeLoop(st).0.f.node !in m
    ensures FirstLoop(fs).Frames? && Fits(AttributeLoop(st).0, FirstLoop(fs), m) && Suffix(FirstLoop(fs), fs)
  {
    if !st.f.ALoop? { LandingFrame(st.below, fs.below, m); }
  }

  lemma {:induction false} ChaseFrame(st: AStack, fs: Frames, m: set<nat>)
    requires Fits(st, fs, m) && AtLoop(ChaseParent(st)) && ChaseParent(st).f.node !in m
    ensures FirstLoop(fs).Frames? && Fits(ChaseParent(st), FirstLoop(fs), m) && Suffix(FirstLoop(fs), fs)
  {
    if !st.f.ALoop? { ChaseFrame(st.below, fs.below, m); }
  }

  // A resolved chain of inline loops is the frame the read denotes.
  lemma {:induction false} ChainFrame(e: Expr, st: AStack, fs: Frames, m: set<nat>)
    requires Fits(st, fs, m) && AtLoop(ResolveChain(e, st).1)
    requires forall n :: n in ResolveChain(e, st).0 ==> n !in m
    ensures var t := ReadTarget(e, fs);
      && t.Frames? && Fits(ResolveChain(e, st).1, t, m) && Suffix(t, fs)
      && ResolveChain(e, st).0 != [] && ResolveChain(e, st).0[|ResolveChain(e, st).0| - 1]
          == ResolveChain(e, st).1.f.node
  {
    var c := ResolveChain(e, st);
    match e {
      case Name(_) => assert c.0[0] !in m; LandingFrame(st, fs, m);
      case Attr(_, r, _, _) =>
        var d := ResolveChain(r, st);
        forall n | n in d.0 ensures n !in m { assert n in c.0; }
        ChainFrame(r, st, fs, m);
        var t := ReadTarget(r, fs);
        assert c.0[|c.0| - 1] !in m;
        ChaseFrame(d.1.below, t.below, m);
        SuffixTrans(FirstLoop(t.below), t.below, t);
        SuffixTrans(FirstLoop(t.below), t, fs);
    }
  }

  // The base of a chain is where its name loop lands, provably.
  lemma {:induction false} ChainBase(e: Expr, st: AStack)
    requires AtLoop(ResolveChain(e, st).1)
    ensures AtLoop(AttributeLoop(st).0) && ResolveChain(e, st).0 != [] && ResolveChain(e, st).0[0]
        == AttributeLoop(st).0.f.node
  {
    match e {
      case Attr(_, r, _, _) => ChainBase(r, st);
      case _ =>
    }
  }

  // ----- identity of nodes -----

  // Equal identities denote one node: a member node of the program carries the field any read
  // recorded for its identity has.  The nodes of an unwalked body (hidden) are no walked nodes.
  ghost predicate SitesE(e: Expr, w: Walk, hidden: bool)
    decreases e, 1
  {
    match e
    case Lit(_) => true
    case Name(_) => true
    case Context => true
    case ListLit(items) => forall i | 0 <= i < |items| :: SitesE(items[i], w, hidden)
    case MapLit(fields) => forall i | 0 <= i < |fields| :: SitesE(fields[i].v, w, hidden)
    case Attr(node, r, field, _) =>
      SitesE(r, w, hidden) && forall c :: c in w.chains && c.node == node ==> !hidden && c.field == field
    case Not(a) => SitesE(a, w, hidden)
    case Bin(_, l, r) => SitesE(l, w, hidden) && SitesE(r, w, hidden)
    case Logic(_, l, r) => SitesE(l, w, hidden) && SitesE(r, w, hidden)
    case Ternary(c, a, b) => SitesE(c, w, hidden) && SitesE(a, w, hidden) && SitesE(b, w, hidden)
    case Coalesce(l, r) => SitesE(l, w, hidden) && SitesE(r, w, hidden)
    case Elvis(l, r) => SitesE(l, w, hidden) && SitesE(r, w, hidden)
    case Assign(_, a) => SitesE(a, w, hidden)
  }

  ghost predicate SitesS(s: Stmt, w: Walk, hidden: bool)
    decreases s, 1
  {
    match s
    case Text(_) => true
    case Print(e) => SitesE(e, w, hidden)
    case Do(e) => SitesE(e, w, hidden)
    case Set(_, e) => SitesE(e, w, hidden)
    case Capture(_, body) => SitesL(body, w, hidden)
    case Apply(body) => SitesL(body, w, true)
    case If(clauses) => SitesC(clauses, w, hidden)
    case With(m, _, body) => SitesE(m, w, hidden) && SitesL(body, w, hidden)
    case For(id, _, _, iter, filter, body, els) =>
      && (hidden ==> id !in w.visited) && SitesE(iter, w, hidden)
      && (filter.Some? ==> SitesE(filter.value, w, hidden)) && SitesL(body, w, hidden) && SitesL(els, w, hidden)
  }

  ghost predicate SitesL(ss: seq<Stmt>, w: Walk, hidden: bool)
    decreases ss, 0
  {
    ss == [] || (SitesS(ss[0], w, hidden) && SitesL(ss[1..], w, hidden))
  }

  ghost predicate SitesC(cl: seq<Clause>, w: Walk, hidden: bool)
    decreases cl, 0
  {
    cl == []
    || ((match cl[0]
         case When(c, body) => SitesE(c, w, hidden) && SitesL(body, w, hidden)
         case Otherwise(body) => SitesL(body, w, hidden))
        && SitesC(cl[1..], w, hidden))
  }

  // ----- bodies the walk does not enter -----

  // A body that holds no reference to loop and no for outside an only-with; free tells whether the
  // frame it stands in may bind the name loop.
  predicate QuietE(e: Expr, free: bool)
    decreases e, 1
  {
    match e
    case Lit(_) => true
    case Name(x) => x != "loop"
    case Context => true
    case ListLit(items) => forall i | 0 <= i < |items| :: QuietE(items[i], free)
    case MapLit(fields) => forall i | 0 <= i < |fields| :: QuietE(fields[i].v, free)
    case Attr(_, r, _, _) => QuietE(r, free)
    case Not(a) => QuietE(a, free)
    case Bin(_, l, r) => QuietE(l, free) && QuietE(r, free)
    case Logic(_, l, r) => QuietE(l, free) && QuietE(r, free)
    case Ternary(c, a, b) => QuietE(c, free) && QuietE(a, free) && QuietE(b, free)
    case Coalesce(l, r) => QuietE(l, free) && QuietE(r, free)
    case Elvis(l, r) => QuietE(l, free) && QuietE(r, free)
    case Assign(x, a) => QuietE(a, free) && (x == "loop" ==> free)
  }

  predicate QuietS(s: Stmt, free: bool)
    decreases s, 1
  {
    match s
    case Text(_) => true
    case Print(e) => QuietE(e, free)
    case Do(e) => QuietE(e, free)
    case Set(x, e) => QuietE(e, free) && (x == "loop" ==> free)
    case Capture(x, body) => QuietL(body, free) && (x == "loop" ==> free)
    case Apply(body) => QuietL(body, free)
    case If(clauses) => QuietC(clauses, free)
    case With(m, only, body) => QuietE(m, free) && (only || QuietL(body, true))
    case For(_, _, _, _, _, _, _) => false
  }

  predicate QuietL(ss: seq<Stmt>, free: bool)
    decreases ss, 0
  {
    ss == [] || (QuietS(ss[0], free) && QuietL(ss[1..], free))
  }

  predicate QuietC(cl: seq<Clause>, free: bool)
    decreases cl, 0
  {
    cl == []
    || (match cl[0]
        case When(c, body) => QuietE(c, free) && QuietL(body, free) && QuietC(cl[1..], free)
        case Otherwise(body) => QuietL(body, free))
  }

  lemma HiddenNode(node: nat, w: Walk, m: set<nat>, lenient: bool)
    requires forall c :: c in w.chains ==> c.node != node
    ensures node !in PlanOf(w, m, lenient).approved
  {
    if node in Approve(w.chains, m, w.noInline) { var r := ApproveFacts(w.chains, m, w.noInline, node); }
  }

  // In an unwalked body every read lowers to a plain read and every loop materializes: that is safe
  // exactly where no inline loop is in reach, or the body is quiet.
  lemma {:induction false} HiddenE(e: Expr, fs: Frames, w: Walk, m: set<nat>, lenient: bool)
    requires fs.Frames? && SitesE(e, w, true)
    ensures SafeE(e, fs, PlanOf(w, m, lenient)) == (LoopClear(fs) || QuietE(e, !InlineFrame(fs.f)))
    decreases e
  {
    match e {
      case ListLit(items) => forall i | 0 <= i < |items| { HiddenE(items[i], fs, w, m, lenient); }
      case MapLit(fields) => forall i | 0 <= i < |fields| { HiddenE(fields[i].v, fs, w, m, lenient); }
      case Attr(node, r, _, _) => HiddenNode(node, w, m, lenient); HiddenE(r, fs, w, m, lenient);
      case Not(a) => HiddenE(a, fs, w, m, lenient);
      case Bin(_, l, r) => HiddenE(l, fs, w, m, lenient); HiddenE(r, fs, w, m, lenient);
      case Logic(_, l, r) => HiddenE(l, fs, w, m, lenient); HiddenE(r, fs, w, m, lenient);
      case Ternary(c, a, b) =>
        HiddenE(c, fs, w, m, lenient);
        HiddenE(a, fs, w, m, lenient);
        HiddenE(b, fs, w, m, lenient);
      case Coalesce(l, r) => HiddenE(l, fs, w, m, lenient); HiddenE(r, fs, w, m, lenient);
      case Elvis(l, r) => HiddenE(l, fs, w, m, lenient); HiddenE(r, fs, w, m, lenient);
      case Assign(_, a) => HiddenE(a, fs, w, m, lenient);
      case _ =>
    }
  }

  lemma {:induction false} HiddenS(s: Stmt, fs: Frames, w: Walk, m: set<nat>, lenient: bool)
    requires fs.Frames? && SitesS(s, w, true)
    ensures SafeS(s, fs, PlanOf(w, m, lenient)) == (LoopClear(fs) || QuietS(s, !InlineFrame(fs.f)))
    decreases s, 1
  {
    match s {
      case Text(_) =>
      case Print(e) => HiddenE(e, fs, w, m, lenient);
      case Do(e) => HiddenE(e, fs, w, m, lenient);
      case Set(_, e) => HiddenE(e, fs, w, m, lenient);
      case Capture(_, body) => HiddenL(body, fs, w, m, lenient);
      case Apply(body) => HiddenL(body, fs, w, m, lenient);
      case If(clauses) => HiddenC(clauses, fs, w, m, lenient);
      case With(e, only, body) =>
        HiddenE(e, fs, w, m, lenient);
        HiddenL(body, Frames(ShapeFrame(if only then KOnly else KWith, "loop" in BindNames(body), None), fs), w, m,
                lenient);
      case For(id, t1, t2, iter, filter, body, els) =>
        var plan := PlanOf(w, m, lenient);
        var lf := Frames(ShapeFrame(KLoop, true, Some((id, id in plan.inline))), fs);
        assert id !in plan.inline;
        HiddenE(iter, fs, w, m, lenient);
        if filter.Some? {
          HiddenE(filter.value, Frames(ShapeFrame(KFilter, FilterBindsLoop(t1, t2, filter.value), None), fs), w, m,
                  lenient);
        }
        HiddenL(els, fs, w, m, lenient);
        HiddenL(body, lf, w, m, lenient);
    }
  }

  lemma {:induction false} HiddenL(ss: seq<Stmt>, fs: Frames, w: Walk, m: set<nat>, lenient: bool)
    requires fs.Frames? && SitesL(ss, w, true)
    ensures SafeL(ss, fs, PlanOf(w, m, lenient)) == (LoopClear(fs) || QuietL(ss, !InlineFrame(fs.f)))
    decreases ss, 0
  {
    if ss != [] {
      HiddenS(ss[0], fs, w, m, lenient);
      HiddenL(ss[1..], fs, w, m, lenient);
    }
  }

  lemma {:induction false} HiddenC(cl: seq<Clause>, fs: Frames, w: Walk, m: set<nat>, lenient: bool)
    requires fs.Frames? && SitesC(cl, w, true)
    ensures SafeC(cl, fs, PlanOf(w, m, lenient)) == (LoopClear(fs) || QuietC(cl, !InlineFrame(fs.f)))
    decreases cl, 0
  {
    if cl != [] {
      match cl[0] {
        case When(c, body) => HiddenE(c, fs, w, m, lenient); HiddenL(body, fs, w, m, lenient);
        case Otherwise(body) => HiddenL(body, fs, w, m, lenient);
      }
      HiddenC(cl[1..], fs, w, m, lenient);
    }
  }

  // ----- walked code -----

  // Every body the walk does not enter stands clear of inline loops, or is quiet.
  predicate ShownS(s: Stmt, fs: Frames, plan: Plan)
    requires fs.Frames?
    decreases s, 1
  {
    match s
    case Capture(_, body) => ShownL(body, fs, plan)
    case Apply(body) => LoopClear(fs) || QuietL(body, !InlineFrame(fs.f))
    case If(clauses) => ShownC(clauses, fs, plan)
    case With(_, only, body) =>
      ShownL(body, Frames(ShapeFrame(if only then KOnly else KWith, "loop" in BindNames(body), None), fs), plan)
    case For(id, _, _, _, _, body, els) =>
      ShownL(els, fs, plan) && ShownL(body, Frames(ShapeFrame(KLoop, true, Some((id, id in plan.inline))), fs), plan)
    case _ => true
  }

  predicate ShownL(ss: seq<Stmt>, fs: Frames, plan: Plan)
    requires fs.Frames?
    decreases ss, 0
  {
    ss == [] || (ShownS(ss[0], fs, plan) && ShownL(ss[1..], fs, plan))
  }

  predicate ShownC(cl: seq<Clause>, fs: Frames, plan: Plan)
    requires fs.Frames?
    decreases cl, 0
  {
    cl == []
    || (match cl[0]
        case When(_, body) => ShownL(body, fs, plan) && ShownC(cl[1..], fs, plan)
        case Otherwise(body) => ShownL(body, fs, plan))
  }

  predicate NoApplyS(s: Stmt)
    decreases s, 1
  {
    match s
    case Capture(_, body) => NoApplyL(body)
    case Apply(_) => false
    case If(clauses) => NoApplyC(clauses)
    case With(_, _, body) => NoApplyL(body)
    case For(_, _, _, _, _, body, els) => NoApplyL(body) && NoApplyL(els)
    case _ => true
  }

  predicate NoApplyL(ss: seq<Stmt>)
    decreases ss, 0
  {
    ss == [] || (NoApplyS(ss[0]) && NoApplyL(ss[1..]))
  }

  predicate NoApplyC(cl: seq<Clause>)
    decreases cl, 0
  {
    cl == []
    || (match cl[0]
        case When(_, body) => NoApplyL(body) && NoApplyC(cl[1..])
        case Otherwise(body) => NoApplyL(body))
  }

  // The walk enters every body of a module without the construct it skips.
  lemma {:induction false} NoApplyShownS(s: Stmt, fs: Frames, plan: Plan)
    requires fs.Frames? && NoApplyS(s)
    ensures ShownS(s, fs, plan)
    decreases s, 1
  {
    match s {
      case Capture(_, body) => NoApplyShownL(body, fs, plan);
      case If(clauses) => NoApplyShownC(clauses, fs, plan);
      case With(_, only, body) =>
        NoApplyShownL(body, Frames(ShapeFrame(if only then KOnly else KWith, "loop" in BindNames(body), None), fs),
                      plan);
      case For(id, _, _, _, _, body, els) =>
        NoApplyShownL(els, fs, plan);
        NoApplyShownL(body, Frames(ShapeFrame(KLoop, true, Some((id, id in plan.inline))), fs), plan);
      case _ =>
    }
  }

  lemma {:induction false} NoApplyShownL(ss: seq<Stmt>, fs: Frames, plan: Plan)
    requires fs.Frames? && NoApplyL(ss)
    ensures ShownL(ss, fs, plan)
    decreases ss, 0
  {
    if ss != [] {
      NoApplyShownS(ss[0], fs, plan);
      NoApplyShownL(ss[1..], fs, plan);
    }
  }

  lemma {:induction false} NoApplyShownC(cl: seq<Clause>, fs: Frames, plan: Plan)
    requires fs.Frames? && NoApplyC(cl)
    ensures ShownC(cl, fs, plan)
    decreases cl, 0
  {
    if cl != [] {
      match cl[0] {
        case When(_, body) => NoApplyShownL(body, fs, plan); NoApplyShownC(cl[1..], fs, plan);
        case Otherwise(body) => NoApplyShownL(body, fs, plan);
      }
    }
  }

  // A solved analysis: w is the finished walk, m a materialization set satisfying its rules.
  ghost predicate Solved(w: Walk, m: set<nat>) {
    && Seeded(w, m) && Closed(w, m)
    && (forall r :: r in w.chains ==> r.field in InlineFields() && r.chain != [])
  }

  // The walk stands at stack st, the lowering at frames fs.
  ghost predicate At(st: AStack, fs: Frames, w: Walk, m: set<nat>) {
    Fits(st, fs, m) && Once(fs, m) && Seen(fs, w)
  }

  lemma AtLater(st: AStack, fs: Frames, a: Walk, b: Walk, m: set<nat>)
    requires At(st, fs, a, m) && Grows(a, b)
    ensures At(st, fs, b, m)
  {
    SeenLater(fs, a, b);
  }

  // Below a materialized base every step of a chain is a plain read.
  lemma {:induction false} ChainSafe(e: Expr, st: AStack, fs: Frames, w: Walk, m: set<nat>, lenient: bool)
    requires AtLoop(ResolveChain(e, st).1) && LoopClear(fs) && Solved(w, m) && SitesE(e, w, false)
    ensures SafeE(e, fs, PlanOf(w, m, lenient))
  {
    match e {
      case Attr(node, r, _, _) =>
        if node in Approve(w.chains, m, w.noInline) {
          var c := ApproveFacts(w.chains, m, w.noInline, node);
          assert false;
        }
        ChainSafe(r, st, fs, w, m, lenient);
      case _ =>
    }
  }

  // A recorded read is inline, with the loop it resolves to, or its base is materialized.
  lemma ReadSafe(e: Expr, st: AStack, fs: Frames, w: Walk, m: set<nat>, lenient: bool)
    requires e.Attr? && TryChain(e, st).Some? && TryChain(e, st).value in w.chains
    requires Fits(st, fs, m) && Once(fs, m) && Solved(w, m) && SitesE(e, w, false)
    ensures SafeE(e, fs, PlanOf(w, m, lenient))
  {
    var c := TryChain(e, st).value;
    ChainBase(e.recv, st);
    if e.node in Approve(w.chains, m, w.noInline) {
      var r := ApproveFacts(w.chains, m, w.noInline, e.node);
      assert !Disapproved(w, e.node);
      SameChain(w, r, c);
      assert forall n :: n in c.chain[1..] ==> n !in m;
      assert forall n :: n in c.chain ==> n == c.chain[0] || n in c.chain[1..];
      ChainFrame(e.recv, st, fs, m);
      FindOnce(ReadTarget(e.recv, fs), fs, m);
    } else {
      if c.chain[0] !in m { ApproveAll(w.chains, m, w.noInline, c); }
      LandingClear(st, fs, m);
      ChainSafe(e.recv, st, fs, w, m, lenient);
    }
  }

  lemma UnapprovedNode(e: Expr, st: AStack, w: Walk, m: set<nat>)
    requires e.Attr? && e.node in w.noInline
    ensures e.node !in Approve(w.chains, m, w.noInline)
  {
    if e.node in Approve(w.chains, m, w.noInline) { var r := ApproveFacts(w.chains, m, w.noInline, e.node); }
  }

  // Every walked expression is safe under the finished analysis.
  lemma {:induction false} WalkSafeE(e: Expr, st: AStack, fs: Frames, w: Walk, end: Walk, m: set<nat>, lenient: bool)
    requires Fits(st, fs, m) && Once(fs, m) && Solved(end, m) && SitesE(e, end, false) && Grows(WalkE(e, st, w), end)
    ensures SafeE(e, fs, PlanOf(end, m, lenient))
    decreases e, 1
  {
    match e {
      case Name(x) => if x == "loop" { LandingClear(st, fs, m); }
      case ListLit(items) => WalkSafeItems(items, st, fs, w, end, m, lenient);
      case MapLit(fields) => WalkSafeFields(fields, st, fs, w, end, m, lenient);
      case Attr(node, r, _, _) =>
        if TryChain(e, st).Some? {
          assert TryChain(e, st).value in WalkE(e, st, w).chains;
          ReadSafe(e, st, fs, end, m, lenient);
        } else {
          UnapprovedNode(e, st, end, m);
          WalkSafeE(r, st, fs, w.(noInline := w.noInline + {node}), end, m, lenient);
        }
      case Not(a) => WalkSafeE(a, st, fs, w, end, m, lenient);
      case Bin(_, l, r) => WalkSafeTwo(e, l, r, st, fs, w, end, m, lenient);
      case Logic(_, l, r) => WalkSafeTwo(e, l, r, st, fs, w, end, m, lenient);
      case Ternary(c, a, b) =>
        WalkSafeTwo(e, a, b, st, fs, WalkE(c, st, w), end, m, lenient);
        WalkSafeE(c, st, fs, w, end, m, lenient);
      case Coalesce(l, r) => WalkSafeTwo(e, l, r, st, fs, w, end, m, lenient);
      case Elvis(l, r) => WalkSafeTwo(e, l, r, st, fs, w, end, m, lenient);
      case Assign(x, a) => WalkSafeE(a, st, fs, if x == "loop" then EscapeInnermost(st, w) else w, end, m, lenient);
      case _ =>
    }
  }

  lemma {:induction false} WalkSafeTwo(e: Expr, l: Expr, r: Expr, st: AStack, fs: Frames, w: Walk, end: Walk,
                                       m: set<nat>, lenient: bool)
    requires l < e && r < e && Fits(st, fs, m) && Once(fs, m) && Solved(end, m)
    requires SitesE(l, end, false) && SitesE(r, end, false) && Grows(WalkE(r, st, WalkE(l, st, w)), end)
    ensures SafeE(l, fs, PlanOf(end, m, lenient)) && SafeE(r, fs, PlanOf(end, m, lenient))
    decreases e, 0
  {
    WalkSafeE(l, st, fs, w, end, m, lenient);
    WalkSafeE(r, st, fs, WalkE(l, st, w), end, m, lenient);
  }

  lemma {:induction false} WalkSafeItems(items: seq<Expr>, st: AStack, fs: Frames, w: Walk, end: Walk, m: set<nat>,
                                         lenient: bool)
    requires Fits(st, fs, m) && Once(fs, m) && Solved(end, m) && Grows(WalkItems(items, st, w), end)
    requires forall i | 0 <= i < |items| :: SitesE(items[i], end, false)
    ensures forall i | 0 <= i < |items| :: SafeE(items[i], fs, PlanOf(end, m, lenient))
    decreases items, 0
  {
    if items != [] {
      WalkSafeE(items[0], st, fs, w, end, m, lenient);
      WalkSafeItems(items[1..], st, fs, WalkE(items[0], st, w), end, m, lenient);
      assert items == [items[0]] + items[1..];
    }
  }

  lemma {:induction false} WalkSafeFields(fields: seq<Entry>, st: AStack, fs: Frames, w: Walk, end: Walk, m: set<nat>,
                                          lenient: bool)
    requires Fits(st, fs, m) && Once(fs, m) && Solved(end, m) && Grows(WalkFields(fields, st, w), end)
    requires forall i | 0 <= i < |fields| :: SitesE(fields[i].v, end, false)
    ensures forall i | 0 <= i < |fields| :: SafeE(fields[i].v, fs, PlanOf(end, m, lenient))
    decreases fields, 0
  {
    if fields != [] {
      WalkSafeE(fields[0].v, st, fs, w, end, m, lenient);
      WalkSafeFields(fields[1..], st, fs, WalkE(fields[0].v, st, w), end, m, lenient);
      assert fields == [fields[0]] + fields[1..];
    }
  }

  // A walked statement is safe exactly when the bodies it hides from the walk are harmless.
  lemma {:induction false} WalkSafeS(s: Stmt, st: AStack, fs: Frames, w: Walk, end: Walk, m: set<nat>, lenient: bool)
    requires At(st, fs, w, m) && Solved(end, m) && SitesS(s, end, false) && Grows(WalkS(s, st, w), end)
    ensures SafeS(s, fs, PlanOf(end, m, lenient)) == ShownS(s, fs, PlanOf(end, m, lenient))
    decreases s, 2
  {
    match s {
      case Text(_) =>
      case Print(e) => WalkSafeE(e, st, fs, w, end, m, lenient);
      case Do(e) => WalkSafeE(e, st, fs, w, end, m, lenient);
      case Set(x, e) => WalkSafeE(e, st, fs, if x == "loop" then EscapeInnermost(st, w) else w, end, m, lenient);
      case Capture(x, body) =>
        var w1 := if x == "loop" then EscapeInnermost(st, w) else w;
        AtLater(st, fs, w, w1, m);
        WalkSafeL(body, st, fs, w1, end, m, lenient);
      case Apply(body) => HiddenL(body, fs, end, m, lenient);
      case If(clauses) => WalkSafeC(clauses, st, fs, w, end, m, lenient);
      case With(_, _, _) => WalkSafeWith(s, st, fs, w, end, m, lenient);
      case For(_, _, _, _, _, _, _) => WalkSafeFor(s, st, fs, w, end, m, lenient);
    }
  }

  lemma {:induction false} WalkSafeWith(s: Stmt, st: AStack, fs: Frames, w: Walk, end: Walk, m: set<nat>,
                                        lenient: bool)
    requires s.With? && At(st, fs, w, m) && Solved(end, m) && SitesS(s, end, false) && Grows(WalkS(s, st, w), end)
    ensures SafeS(s, fs, PlanOf(end, m, lenient)) == ShownS(s, fs, PlanOf(end, m, lenient))
    decreases s, 1
  {
    var w1 := WalkE(s.m, st, w);
    WalkSafeE(s.m, st, fs, w, end, m, lenient);
    AtLater(st, fs, w, w1, m);
    WalkSafeL(s.body, APush(if s.only then AOnly else AWith, st),
              Frames(ShapeFrame(if s.only then KOnly else KWith, "loop" in BindNames(s.body), None), fs), w1, end, m,
              lenient);
  }

  lemma {:induction false} WalkSafeFor(s: Stmt, st: AStack, fs: Frames, w: Walk, end: Walk, m: set<nat>, lenient: bool)
    requires s.For? && At(st, fs, w, m) && Solved(end, m) && SitesS(s, end, false) && Grows(WalkS(s, st, w), end)
    ensures SafeS(s, fs, PlanOf(end, m, lenient)) == ShownS(s, fs, PlanOf(end, m, lenient))
    decreases s, 1
  {
    var w0 := WalkE(s.iter, st, w);
    var w1 := Enter(s, st, w0);
    var w2 := WalkPairs(s, st, w1);
    var w3 := WalkL(s.body, APush(ALoop(s.id), st), w2);
    ForGrows(s, st, w, end);
    WalkSafeE(s.iter, st, fs, w, end, m, lenient);
    if s.filter.Some? { WalkSafePairs(s, st, fs, w1, end, m, lenient); }
    AtLater(st, fs, w, w0, m);
    EnterAt(s, st, fs, w0, end, m, lenient);
    AtLater(st, fs, w0, w3, m);
    WalkSafeBody(s, st, fs, w1, w2, end, m, lenient);
    WalkSafeL(s.els, st, fs, w3, end, m, lenient);
    ForSame(s, fs, PlanOf(end, m, lenient));
  }

  // The records of each part of a for are records of the whole walk.
  lemma ForGrows(s: Stmt, st: AStack, w: Walk, end: Walk)
    requires s.For? && Grows(WalkS(s, st, w), end)
    ensures var w0 := WalkE(s.iter, st, w);
      var w1 := Enter(s, st, w0);
      var w2 := WalkPairs(s, st, w1);
      var w3 := WalkL(s.body, APush(ALoop(s.id), st), w2);
      && Grows(w, w0) && Grows(w0, w3) && Grows(w1, w2)
      && Grows(w0, end) && Grows(w1, end) && Grows(w2, end) && Grows(w3, end) && Grows(WalkL(s.els, st, w3), end)
  {
    var w0 := WalkE(s.iter, st, w);
    var w1 := Enter(s, st, w0);
    var w2 := WalkPairs(s, st, w1);
    var w3 := WalkL(s.body, APush(ALoop(s.id), st), w2);
    assert WalkS(s, st, w) == WalkL(s.els, st, w3);
    GrowsTrans(w3, WalkL(s.els, st, w3), end);
    GrowsTrans(w2, w3, end);
    GrowsTrans(w1, w2, end);
    GrowsTrans(w0, w1, end);
    GrowsTrans(w0, w1, w2);
    GrowsTrans(w0, w2, w3);
  }

  lemma GrowsTrans(a: Walk, b: Walk, c: Walk)
    requires Grows(a, b) && Grows(b, c)
    ensures Grows(a, c)
  {
  }

  // What makes a for safe beside its body and its empty arm.
  lemma ForSame(s: Stmt, fs: Frames, plan: Plan)
    requires s.For? && fs.Frames? && SafeE(s.iter, fs, plan)
    requires s.filter.Some? ==>
        SafeE(s.filter.value, Frames(ShapeFrame(KFilter, FilterBindsLoop(s.t1, s.t2, s.filter.value), None), fs), plan)
    requires var lf := Frames(ShapeFrame(KLoop, true, Some((s.id, s.id in plan.inline))), fs);
      && (s.id !in plan.inline ==> LoopClear(fs)) && Bindable(lf, s.t1) && (s.t2.Some? ==> Bindable(lf, s.t2.value))
      && SafeL(s.body, lf, plan) == ShownL(s.body, lf, plan) && SafeL(s.els, fs, plan) == ShownL(s.els, fs, plan)
    ensures SafeS(s, fs, plan) == ShownS(s, fs, plan)
  {
  }

  function WalkPairs(s: Stmt, st: AStack, w: Walk): (r: Walk)
    requires s.For?
    ensures Grows(w, r)
  {
    if s.filter.Some? then WalkE(s.filter.value, APush(AFilter(FilterBindsLoop(s.t1, s.t2, s.filter.value)), st),
                                 w) else w
  }

  lemma {:induction false} WalkSafePairs(s: Stmt, st: AStack, fs: Frames, w: Walk, end: Walk, m: set<nat>,
                                         lenient: bool)
    requires s.For? && s.filter.Some? && Fits(st, fs, m) && Once(fs, m) && Solved(end, m)
    requires SitesE(s.filter.value, end, false) && Grows(WalkPairs(s, st, w), end)
    ensures var ff := ShapeFrame(KFilter, FilterBindsLoop(s.t1, s.t2, s.filter.value), None);
      SafeE(s.filter.value, Frames(ff, fs), PlanOf(end, m, lenient))
    decreases s, 0
  {
    var b := FilterBindsLoop(s.t1, s.t2, s.filter.value);
    WalkSafeE(s.filter.value, APush(AFilter(b), st), Frames(ShapeFrame(KFilter, b, None), fs), w, end, m, lenient);
  }

  lemma {:induction false} WalkSafeBody(s: Stmt, st: AStack, fs: Frames, w1: Walk, w2: Walk, end: Walk, m: set<nat>,
                                        lenient: bool)
    requires s.For? && Solved(end, m) && SitesL(s.body, end, false) && Grows(w1, w2)
    requires Grows(WalkL(s.body, APush(ALoop(s.id), st), w2), end)
    requires var lf := Frames(ShapeFrame(KLoop, true, Some((s.id, s.id in PlanOf(end, m, lenient).inline))), fs);
      At(APush(ALoop(s.id), st), lf, w1, m)
    ensures var plan := PlanOf(end, m, lenient);
      var lf := Frames(ShapeFrame(KLoop, true, Some((s.id, s.id in plan.inline))), fs);
      SafeL(s.body, lf, plan) == ShownL(s.body, lf, plan)
    decreases s, 0
  {
    var lf := Frames(ShapeFrame(KLoop, true, Some((s.id, s.id in PlanOf(end, m, lenient).inline))), fs);
    AtLater(APush(ALoop(s.id), st), lf, w1, w2, m);
    WalkSafeL(s.body, APush(ALoop(s.id), st), lf, w2, end, m, lenient);
  }

  // Entering a loop: its frame stands once when inline, its parent link is clear when it is not.
  lemma EnterAt(s: Stmt, st: AStack, fs: Frames, w: Walk, end: Walk, m: set<nat>, lenient: bool)
    requires s.For? && At(st, fs, w, m) && Solved(end, m) && Grows(Enter(s, st, w), end)
    ensures var plan := PlanOf(end, m, lenient);
      var lf := Frames(ShapeFrame(KLoop, true, Some((s.id, s.id in plan.inline))), fs);
      && At(APush(ALoop(s.id), st), lf, Enter(s, st, w), m)
      && (s.id !in plan.inline ==> LoopClear(fs))
      && Bindable(lf, s.t1) && (s.t2.Some? ==> Bindable(lf, s.t2.value))
  {
    var w1 := Enter(s, st, w);
    SeenLater(fs, w, w1);
    if s.id in m { NearestClear(st, fs, m); } else { UnseenBottom(fs, w, s.id); }
  }

  lemma {:induction false} WalkSafeL(ss: seq<Stmt>, st: AStack, fs: Frames, w: Walk, end: Walk, m: set<nat>,
                                     lenient: bool)
    requires At(st, fs, w, m) && Solved(end, m) && SitesL(ss, end, false) && Grows(WalkL(ss, st, w), end)
    ensures SafeL(ss, fs, PlanOf(end, m, lenient)) == ShownL(ss, fs, PlanOf(end, m, lenient))
    decreases ss, 0
  {
    if ss != [] {
      var w1 := WalkS(ss[0], st, w);
      WalkSafeS(ss[0], st, fs, w, end, m, lenient);
      AtLater(st, fs, w, w1, m);
      WalkSafeL(ss[1..], st, fs, w1, end, m, lenient);
    }
  }

  lemma {:induction false} WalkSafeC(cl: seq<Clause>, st: AStack, fs: Frames, w: Walk, end: Walk, m: set<nat>,
                                     lenient: bool)
    requires At(st, fs, w, m) && Solved(end, m) && SitesC(cl, end, false) && Grows(WalkC(cl, st, w), end)
    ensures SafeC(cl, fs, PlanOf(end, m, lenient)) == ShownC(cl, fs, PlanOf(end, m, lenient))
    decreases cl, 0
  {
    if cl != [] {
      match cl[0] {
        case When(c, body) =>
          var w1 := WalkE(c, st, w);
          var w2 := WalkL(body, st, w1);
          assert Grows(w, w1) && Grows(w1, w2) && Grows(w2, end);
          WalkSafeE(c, st, fs, w, end, m, lenient);
          AtLater(st, fs, w, w1, m);
          WalkSafeL(body, st, fs, w1, end, m, lenient);
          AtLater(st, fs, w1, w2, m);
          WalkSafeC(cl[1..], st, fs, w2, end, m, lenient);
        case Otherwise(body) =>
          WalkSafeL(body, st, fs, w, end, m, lenient);
      }
    }
  }
}
