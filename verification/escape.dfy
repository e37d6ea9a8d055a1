/** The interpreter's loop-escape analysis: which loops may recycle their loop object and their pair
    snapshot, and why that is sound. */
module Escape {
  import opened Values
  import opened Syntax
  import opened Scopes
  import opened Safety
  import opened LoopOpt
  import opened Reuse
  import opened ReuseSim
  import ReuseRun
  import I = Interp

  // What the walk has recorded: the loops in visiting order, those that may escape, the fused ones,
  // and the loop each parent link resolves to.
  datatype Found = Found(fors: seq<nat>, escapes: set<nat>, fused: set<nat>, parents: map<nat, nat>)

  const NOTHING: Found := Found([], {}, {}, map[])

  // ----- the walk -----

  function Escaping(w: Found, n: Option<nat>): Found {
    if n.Some? then w.(escapes := w.escapes + {n.value}) else w
  }

  function LandingOf(st: AStack): Option<nat> {
    var t := AttributeLoop(st).0;
    if AtLoop(t) then Some(t.f.node) else None
  }

  // A field read that resolves cleanly to an enclosing loop.
  predicate SafeRead(e: Expr, st: AStack) {
    FieldRead(e) && AtLoop(AttributeLoop(st).0) && AttributeLoop(st).1
  }

  function ScanE(e: Expr, st: AStack, w: Found): Found
    decreases e, 1
  {
    match e
    case Lit(_) => w
    case Name(x) => if x == "loop" then Escaping(w, LandingOf(st)) else w
    case Context => Escaping(w, Innermost(st))
    case ListLit(items) => ScanItems(items, st, w)
    case MapLit(fields) => ScanFields(fields, st, w)
    case Attr(_, r, _, _) => if SafeRead(e, st) then w else ScanE(r, st, w)
    case Not(a) => ScanE(a, st, w)
    case Bin(_, l, r) => ScanE(r, st, ScanE(l, st, w))
    case Logic(_, l, r) => ScanE(r, st, ScanE(l, st, w))
    case Ternary(c, a, b) => ScanE(b, st, ScanE(a, st, ScanE(c, st, w)))
    case Coalesce(l, r) => ScanE(r, st, ScanE(l, st, w))
    case Elvis(l, r) => ScanE(r, st, ScanE(l, st, w))
    case Assign(x, a) => ScanE(a, st, if x == "loop" then Escaping(w, Innermost(st)) else w)
  }

  function ScanItems(items: seq<Expr>, st: AStack, w: Found): Found
    decreases items, 0
  {
    if items == [] then w else ScanItems(items[1..], st, ScanE(items[0], st, w))
  }

  function ScanFields(fields: seq<Entry>, st: AStack, w: Found): Found
    decreases fields, 0
  {
    if fields == [] then w else ScanFields(fields[1..], st, ScanE(fields[0].v, st, w))
  }

  // A for entered: recorded once, with its parent link and the rebinding of loop by its targets.
  function Entered(s: Stmt, st: AStack, w: Found): Found
    requires s.For?
  {
    var seen := if s.id in w.fors then Escaping(w, Some(s.id)) else w.(fors := w.fors + [s.id]);
    var linked := if NearestLoop(st).Some? then seen.(parents := seen.parents[s.id := NearestLoop(st).value]) else seen;
    var bound := if "loop" in TargetNames(s.t1, s.t2) then Escaping(linked, Some(s.id)) else linked;
    if s.filter.Some? then bound.(fused := bound.fused + {s.id}) else bound
  }

  // Statements outside the modelled subset, an applied body among them, escape the innermost loop
  // and are not entered.
  function ScanS(s: Stmt, st: AStack, w: Found): Found
    decreases s, 1
  {
    match s
    case Text(_) => w
    case Print(e) => ScanE(e, st, w)
    case Do(e) => ScanE(e, st, w)
    case Set(x, e) => ScanE(e, st, if x == "loop" then Escaping(w, Innermost(st)) else w)
    case Capture(x, body) => ScanL(body, st, if x == "loop" then Escaping(w, Innermost(st)) else w)
    case Apply(_) => Escaping(w, Innermost(st))
    case If(clauses) => ScanC(clauses, st, w)
    case With(m, only, body) => ScanL(body, APush(if only then AOnly else AWith, st), ScanE(m, st, w))
    case For(id, t1, t2, iter, filter, body, els) =>
      var e := Entered(s, st, ScanE(iter, st, w));
      var f := if filter.Some? then ScanE(filter.value, APush(AFilter(FilterBindsLoop(t1, t2, filter.value)), st),
                                          e) else e;
      ScanL(els, st, ScanL(body, APush(ALoop(id), st), f))
  }

  function ScanL(ss: seq<Stmt>, st: AStack, w: Found): Found
    decreases ss, 0
  {
    if ss == [] then w else ScanL(ss[1..], st, ScanS(ss[0], st, w))
  }

  function ScanC(cl: seq<Clause>, st: AStack, w: Found): Found
    decreases cl, 0
  {
    if cl == [] then w
    else
      ScanC(cl[1..], st, match cl[0]
                         case When(c, body) => ScanL(body, st, ScanE(c, st, w))
                         case Otherwise(body) => ScanL(body, st, w))
  }

  // ----- propagation -----

  // An escaping loop's value reaches the loop its parent link resolves to.
  ghost predicate LinkClosed(escapes: set<nat>, w: Found) {
    forall n :: n in w.fors && n in escapes && n in w.parents ==> w.parents[n] in escapes
  }

  // The smallest closed set that holds the recorded escapes.
  ghost predicate LeastLinked(escapes: set<nat>, w: Found) {
    w.escapes <= escapes && LinkClosed(escapes, w) && forall t: set<nat> :: w.escapes <= t && LinkClosed(t, w) ==>
        escapes <= t
  }

  function SafeOf(w: Found, escapes: set<nat>): set<nat> {
    set n | n in w.fors && n !in escapes && n !in w.fused
  }

  function ContainedOf(w: Found, escapes: set<nat>): set<nat> {
    set n | n in w.fors && n !in escapes
  }

  // ----- identity of nodes -----

  function ForIdsS(s: Stmt): set<nat>
    decreases s, 1
  {
    match s
    case Capture(_, body) => ForIdsL(body)
    case Apply(body) => ForIdsL(body)
    case If(clauses) => ForIdsC(clauses)
    case With(_, _, body) => ForIdsL(body)
    case For(id, _, _, _, _, body, els) => {id} + ForIdsL(body) + ForIdsL(els)
    case _ => {}
  }

  function ForIdsL(ss: seq<Stmt>): set<nat>
    decreases ss, 0
  {
    if ss == [] then {} else ForIdsS(ss[0]) + ForIdsL(ss[1..])
  }

  function ForIdsC(cl: seq<Clause>): set<nat>
    decreases cl, 0
  {
    if cl == [] then {} else ForIdsL(cl[0].body) + ForIdsC(cl[1..])
  }

  // Every for node stands in the program once, and its literals are no loop objects.
  predicate ProperS(s: Stmt)
    decreases s, 1
  {
    match s
    case Text(_) => true
    case Print(e) => Literal(e)
    case Do(e) => Literal(e)
    case Set(_, e) => Literal(e)
    case Capture(_, body) => ProperL(body)
    case Apply(body) => ProperL(body)
    case If(clauses) => ProperC(clauses)
    case With(m, _, body) => Literal(m) && ProperL(body)
    case For(id, _, _, iter, filter, body, els) =>
      && Literal(iter) && (filter.Some? ==> Literal(filter.value)) && ProperL(body) && ProperL(els)
      && id !in ForIdsL(body) && id !in ForIdsL(els) && ForIdsL(body) !! ForIdsL(els)
  }

  predicate ProperL(ss: seq<Stmt>)
    decreases ss, 0
  {
    ss == [] || (ProperS(ss[0]) && ProperL(ss[1..]) && ForIdsS(ss[0]) !! ForIdsL(ss[1..]))
  }

  predicate ProperC(cl: seq<Clause>)
    decreases cl, 0
  {
    cl == []
    || ((cl[0].When? ==> Literal(cl[0].cond)) && ProperL(cl[0].body) && ProperC(cl[1..])
        && ForIdsL(cl[0].body) !! ForIdsC(cl[1..]))
  }

  predicate Literal(e: Expr)
    decreases e, 1
  {
    match e
    case Lit(v) => Solid(v)
    case Name(_) => true
    case Context => true
    case ListLit(items) => forall i | 0 <= i < |items| :: Literal(items[i])
    case MapLit(fields) => forall i | 0 <= i < |fields| :: Literal(fields[i].v)
    case Attr(_, r, _, _) => Literal(r)
    case Not(a) => Literal(a)
    case Bin(_, l, r) => Literal(l) && Literal(r)
    case Logic(_, l, r) => Literal(l) && Literal(r)
    case Ternary(c, a, b) => Literal(c) && Literal(a) && Literal(b)
    case Coalesce(l, r) => Literal(l) && Literal(r)
    case Elvis(l, r) => Literal(l) && Literal(r)
    case Assign(_, a) => Literal(a)
  }

  // ----- the walk only records, and only its own loops -----

  ghost predicate Adds(a: Found, b: Found, ids: set<nat>) {
    && a.escapes <= b.escapes
    && (forall n :: n in a.fors ==> n in b.fors) && (forall n :: n in b.fors ==> n in a.fors || n in ids)
    && (forall n :: n !in ids ==> (n in b.parents <==> n in a.parents))
    && (forall n :: n !in ids && n in a.parents ==> b.parents[n] == a.parents[n])
  }

  lemma AddsTrans(a: Found, b: Found, c: Found, x: set<nat>, y: set<nat>)
    requires Adds(a, b, x) && Adds(b, c, y)
    ensures Adds(a, c, x + y)
  {
  }

  lemma {:induction false} ScanAddsE(e: Expr, st: AStack, w: Found)
    ensures Adds(w, ScanE(e, st, w), {})
    decreases e, 1
  {
    match e {
      case ListLit(items) => ScanAddsItems(items, st, w);
      case MapLit(fields) => ScanAddsFields(fields, st, w);
      case Attr(_, r, _, _) => ScanAddsE(r, st, w);
      case Not(a) => ScanAddsE(a, st, w);
      case Bin(_, l, r) => ScanAddsTwo(e, l, r, st, w);
      case Logic(_, l, r) => ScanAddsTwo(e, l, r, st, w);
      case Ternary(c, a, b) =>
        ScanAddsTwo(e, c, a, st, w);
        ScanAddsE(b, st, ScanE(a, st, ScanE(c, st, w)));
        AddsTrans(w, ScanE(a, st, ScanE(c, st, w)), ScanE(e, st, w), {}, {});
      case Coalesce(l, r) => ScanAddsTwo(e, l, r, st, w);
      case Elvis(l, r) => ScanAddsTwo(e, l, r, st, w);
      case Assign(x, a) => ScanAddsE(a, st, if x == "loop" then Escaping(w, Innermost(st)) else w);
      case _ =>
    }
  }

  lemma {:induction false} ScanAddsTwo(e: Expr, l: Expr, r: Expr, st: AStack, w: Found)
    requires l < e && r < e
    ensures Adds(w, ScanE(r, st, ScanE(l, st, w)), {})
    decreases e, 0
  {
    ScanAddsE(l, st, w);
    ScanAddsE(r, st, ScanE(l, st, w));
    AddsTrans(w, ScanE(l, st, w), ScanE(r, st, ScanE(l, st, w)), {}, {});
  }

  lemma {:induction false} ScanAddsItems(items: seq<Expr>, st: AStack, w: Found)
    ensures Adds(w, ScanItems(items, st, w), {})
    decreases items, 0
  {
    if items != [] {
      ScanAddsE(items[0], st, w);
      ScanAddsItems(items[1..], st, ScanE(items[0], st, w));
    }
  }

  lemma {:induction false} ScanAddsFields(fields: seq<Entry>, st: AStack, w: Found)
    ensures Adds(w, ScanFields(fields, st, w), {})
    decreases fields, 0
  {
    if fields != [] {
      ScanAddsE(fields[0].v, st, w);
      ScanAddsFields(fields[1..], st, ScanE(fields[0].v, st, w));
    }
  }

  lemma {:induction false} ScanAddsS(s: Stmt, st: AStack, w: Found)
    ensures Adds(w, ScanS(s, st, w), ForIdsS(s))
    decreases s, 1
  {
    match s {
      case Text(_) =>
      case Print(e) => ScanAddsE(e, st, w);
      case Do(e) => ScanAddsE(e, st, w);
      case Set(x, e) => ScanAddsE(e, st, if x == "loop" then Escaping(w, Innermost(st)) else w);
      case Capture(x, body) => ScanAddsL(body, st, if x == "loop" then Escaping(w, Innermost(st)) else w);
      case Apply(_) =>
      case If(clauses) => ScanAddsC(clauses, st, w);
      case With(m, only, body) =>
        ScanAddsE(m, st, w);
        ScanAddsL(body, APush(if only then AOnly else AWith, st), ScanE(m, st, w));
      case For(_, _, _, _, _, _, _) => ScanAddsFor(s, st, w);
    }
  }

  // The walk of a for, part by part: after the iterand, the entry, the filter and the body.
  function ForIter(s: Stmt, st: AStack, w: Found): Found requires s.For? { ScanE(s.iter, st, w) }

  function ForFilter(s: Stmt, st: AStack, w: Found): Found
    requires s.For?
  {
    if s.filter.Some? then
      ScanE(s.filter.value, APush(AFilter(FilterBindsLoop(s.t1, s.t2, s.filter.value)), st),
            Entered(s, st, ForIter(s, st, w)))
    else Entered(s, st, ForIter(s, st, w))
  }

  function ForBody(s: Stmt, st: AStack, w: Found): Found
    requires s.For?
  {
    ScanL(s.body, APush(ALoop(s.id), st), ForFilter(s, st, w))
  }

  lemma {:induction false} ScanAddsFor(s: Stmt, st: AStack, w: Found)
    requires s.For?
    ensures ScanS(s, st, w) == ScanL(s.els, st, ForBody(s, st, w))
    ensures Adds(w, ForFilter(s, st, w), {s.id}) && Adds(w, ForBody(s, st, w), {s.id} + ForIdsL(s.body))
    ensures Adds(w, ScanS(s, st, w), ForIdsS(s))
    decreases s, 0
  {
    var a := ForIter(s, st, w);
    ScanAddsE(s.iter, st, w);
    assert Adds(a, Entered(s, st, a), {s.id});
    if s.filter.Some? {
      ScanAddsE(s.filter.value, APush(AFilter(FilterBindsLoop(s.t1, s.t2, s.filter.value)), st), Entered(s, st, a));
    }
    var f := ForFilter(s, st, w);
    assert Adds(w, f, {s.id});
    ScanAddsL(s.body, APush(ALoop(s.id), st), f);
    AddsTrans(w, f, ForBody(s, st, w), {s.id}, ForIdsL(s.body));
    ScanAddsL(s.els, st, ForBody(s, st, w));
    AddsTrans(w, ForBody(s, st, w), ScanS(s, st, w), {s.id} + ForIdsL(s.body), ForIdsL(s.els));
  }

  lemma {:induction false} ScanAddsL(ss: seq<Stmt>, st: AStack, w: Found)
    ensures Adds(w, ScanL(ss, st, w), ForIdsL(ss))
    decreases ss, 0
  {
    if ss != [] {
      var m := ScanS(ss[0], st, w);
      ScanAddsS(ss[0], st, w);
      ScanAddsL(ss[1..], st, m);
      AddsTrans(w, m, ScanL(ss[1..], st, m), ForIdsS(ss[0]), ForIdsL(ss[1..]));
    }
  }

  function Clauses1(c: Clause, st: AStack, w: Found): Found {
    match c
    case When(e, body) => ScanL(body, st, ScanE(e, st, w))
    case Otherwise(body) => ScanL(body, st, w)
  }

  lemma {:induction false} ScanAddsC(cl: seq<Clause>, st: AStack, w: Found)
    ensures Adds(w, ScanC(cl, st, w), ForIdsC(cl))
    decreases cl, 0
  {
    if cl != [] {
      var m := Clauses1(cl[0], st, w);
      match cl[0] {
        case When(e, body) => ScanAddsE(e, st, w); ScanAddsL(body, st, ScanE(e, st, w));
        case Otherwise(body) => ScanAddsL(body, st, w);
      }
      ScanAddsC(cl[1..], st, m);
      AddsTrans(w, m, ScanC(cl[1..], st, m), ForIdsL(cl[0].body), ForIdsC(cl[1..]));
    }
  }

  // ----- what the walk records is enough -----

  // The finished walk w still holds, for these loops, what the walk had recorded in a.
  ghost predicate Final(a: Found, w: Found, ids: set<nat>) {
    && a.escapes <= w.escapes && (forall n :: n in a.fors ==> n in w.fors)
    && (forall n :: n in ids && n in w.fors ==> n in a.fors)
    && (forall n :: n in ids && n in a.parents ==> n in w.parents && w.parents[n] == a.parents[n])
  }

  lemma FinalBefore(a: Found, b: Found, w: Found, ids: set<nat>, later: set<nat>)
    requires Adds(a, b, later) && Final(b, w, ids + later) && ids !! later
    ensures Final(a, w, ids)
  {
  }

  // Contained loops: recorded, not escaping, and closed under parent links.
  ghost predicate Contained(kept: set<nat>, w: Found) {
    && (forall n :: n in kept ==> n in w.fors && n !in w.escapes)
    && (forall n :: n in w.fors && n !in kept && n in w.parents ==> w.parents[n] !in kept)
  }

  lemma {:induction false} LandingIs(st: AStack)
    requires NearestLoop(st).Some?
    ensures LandingOf(st) == NearestLoop(st) == Innermost(st)
  {
    if !st.f.ALoop? { LandingIs(st.below); }
  }

  lemma {:induction false} ScanClearE(e: Expr, st: AStack, a: Found, w: Found, kept: set<nat>)
    requires ScanE(e, st, a).escapes <= w.escapes && Contained(kept, w) && Literal(e)
    ensures ClearE(e, st, kept)
    decreases e, 1
  {
    if NearestLoop(st).Some? { LandingIs(st); }
    match e {
      case ListLit(items) => ScanClearItems(items, st, a, w, kept);
      case MapLit(fields) => ScanClearFields(fields, st, a, w, kept);
      case Attr(_, r, _, _) => if !SafeRead(e, st) { ScanClearE(r, st, a, w, kept); }
      case Not(x) => ScanClearE(x, st, a, w, kept);
      case Bin(_, l, r) => ScanClearTwo(e, l, r, st, a, w, kept);
      case Logic(_, l, r) => ScanClearTwo(e, l, r, st, a, w, kept);
      case Ternary(c, x, y) =>
        ScanAddsE(y, st, ScanE(x, st, ScanE(c, st, a)));
        ScanClearTwo(e, c, x, st, a, w, kept);
        ScanClearE(y, st, ScanE(x, st, ScanE(c, st, a)), w, kept);
      case Coalesce(l, r) => ScanClearTwo(e, l, r, st, a, w, kept);
      case Elvis(l, r) => ScanClearTwo(e, l, r, st, a, w, kept);
      case Assign(x, y) => ScanClearE(y, st, if x == "loop" then Escaping(a, Innermost(st)) else a, w, kept);
      case _ =>
    }
  }

  lemma {:induction false} ScanClearTwo(e: Expr, l: Expr, r: Expr, st: AStack, a: Found, w: Found, kept: set<nat>)
    requires l < e && r < e && ScanE(r, st, ScanE(l, st, a)).escapes <= w.escapes && Contained(kept, w)
    requires Literal(l) && Literal(r)
    ensures ClearE(l, st, kept) && ClearE(r, st, kept)
    decreases e, 0
  {
    ScanAddsE(r, st, ScanE(l, st, a));
    ScanClearE(l, st, a, w, kept);
    ScanClearE(r, st, ScanE(l, st, a), w, kept);
  }

  lemma {:induction false} ScanClearItems(items: seq<Expr>, st: AStack, a: Found, w: Found, kept: set<nat>)
    requires ScanItems(items, st, a).escapes <= w.escapes && Contained(kept, w)
    requires forall i | 0 <= i < |items| :: Literal(items[i])
    ensures forall i | 0 <= i < |items| :: ClearE(items[i], st, kept)
    decreases items, 0
  {
    if items != [] {
      ScanAddsItems(items[1..], st, ScanE(items[0], st, a));
      ScanClearE(items[0], st, a, w, kept);
      ScanClearItems(items[1..], st, ScanE(items[0], st, a), w, kept);
      assert forall i | 0 < i < |items| :: items[i] == items[1..][i - 1];
    }
  }

  lemma {:induction false} ScanClearFields(fields: seq<Entry>, st: AStack, a: Found, w: Found, kept: set<nat>)
    requires ScanFields(fields, st, a).escapes <= w.escapes && Contained(kept, w)
    requires forall i | 0 <= i < |fields| :: Literal(fields[i].v)
    ensures forall i | 0 <= i < |fields| :: ClearE(fields[i].v, st, kept)
    decreases fields, 0
  {
    if fields != [] {
      ScanAddsFields(fields[1..], st, ScanE(fields[0].v, st, a));
      ScanClearE(fields[0].v, st, a, w, kept);
      ScanClearFields(fields[1..], st, ScanE(fields[0].v, st, a), w, kept);
      assert forall i | 0 < i < |fields| :: fields[i] == fields[1..][i - 1];
    }
  }

  // A body out of reach of the contained loops, with no contained loop of its own.
  lemma {:induction false} FreeClearE(e: Expr, st: AStack, kept: set<nat>)
    requires NearClear(st, kept) && Literal(e)
    ensures ClearE(e, st, kept)
    decreases e
  {
    match e {
      case ListLit(items) => forall i | 0 <= i < |items| { FreeClearE(items[i], st, kept); }
      case MapLit(fields) => forall i | 0 <= i < |fields| { FreeClearE(fields[i].v, st, kept); }
      case Attr(_, r, _, _) => FreeClearE(r, st, kept);
      case Not(a) => FreeClearE(a, st, kept);
      case Bin(_, l, r) => FreeClearE(l, st, kept); FreeClearE(r, st, kept);
      case Logic(_, l, r) => FreeClearE(l, st, kept); FreeClearE(r, st, kept);
      case Ternary(c, a, b) => FreeClearE(c, st, kept); FreeClearE(a, st, kept); FreeClearE(b, st, kept);
      case Coalesce(l, r) => FreeClearE(l, st, kept); FreeClearE(r, st, kept);
      case Elvis(l, r) => FreeClearE(l, st, kept); FreeClearE(r, st, kept);
      case Assign(_, a) => FreeClearE(a, st, kept);
      case _ =>
    }
  }

  lemma {:induction false} FreeClearS(s: Stmt, st: AStack, kept: set<nat>)
    requires NearClear(st, kept) && ProperS(s) && ForIdsS(s) !! kept
    ensures ClearS(s, st, kept)
    decreases s, 1
  {
    match s {
      case Text(_) =>
      case Print(e) => FreeClearE(e, st, kept);
      case Do(e) => FreeClearE(e, st, kept);
      case Set(_, e) => FreeClearE(e, st, kept);
      case Capture(_, body) => FreeClearL(body, st, kept);
      case Apply(body) => FreeClearL(body, st, kept);
      case If(clauses) => FreeClearC(clauses, st, kept);
      case With(m, only, body) =>
        FreeClearE(m, st, kept);
        FreeClearL(body, APush(if only then AOnly else AWith, st), kept);
      case For(id, t1, t2, iter, filter, body, els) =>
        FreeClearE(iter, st, kept);
        if filter.Some? { FreeClearE(filter.value, APush(AFilter(FilterBindsLoop(t1, t2, filter.value)), st), kept); }
        FreeClearL(body, APush(ALoop(id), st), kept);
        FreeClearL(els, st, kept);
    }
  }

  lemma {:induction false} FreeClearL(ss: seq<Stmt>, st: AStack, kept: set<nat>)
    requires NearClear(st, kept) && ProperL(ss) && ForIdsL(ss) !! kept
    ensures ClearL(ss, st, kept)
    decreases ss, 0
  {
    if ss != [] {
      FreeClearS(ss[0], st, kept);
      FreeClearL(ss[1..], st, kept);
    }
  }

  lemma {:induction false} FreeClearC(cl: seq<Clause>, st: AStack, kept: set<nat>)
    requires NearClear(st, kept) && ProperC(cl) && ForIdsC(cl) !! kept
    ensures ClearC(cl, st, kept)
    decreases cl, 0
  {
    if cl != [] {
      if cl[0].When? { FreeClearE(cl[0].cond, st, kept); }
      FreeClearL(cl[0].body, st, kept);
      FreeClearC(cl[1..], st, kept);
    }
  }

  // A loop's ids are new to the walk that comes to it.
  ghost predicate New(ids: set<nat>, a: Found) { forall n :: n in ids ==> n !in a.fors }

  lemma {:induction false} ScanClearS(s: Stmt, st: AStack, a: Found, w: Found, kept: set<nat>)
    requires Final(ScanS(s, st, a), w, ForIdsS(s)) && Contained(kept, w) && ProperS(s) && New(ForIdsS(s), a)
    ensures ClearS(s, st, kept)
    decreases s, 1
  {
    match s {
      case Text(_) =>
      case Print(e) => ScanClearE(e, st, a, w, kept);
      case Do(e) => ScanClearE(e, st, a, w, kept);
      case Set(x, e) => ScanClearE(e, st, if x == "loop" then Escaping(a, Innermost(st)) else a, w, kept);
      case Capture(x, body) => ScanClearL(body, st, if x == "loop" then Escaping(a, Innermost(st)) else a, w, kept);
      case Apply(body) =>
        if NearestLoop(st).Some? { LandingIs(st); }
        assert ForIdsL(body) !! kept;
        FreeClearL(body, st, kept);
      case If(clauses) => ScanClearC(clauses, st, a, w, kept);
      case With(m, only, body) =>
        var push := APush(if only then AOnly else AWith, st);
        ScanAddsE(m, st, a);
        ScanAddsL(body, push, ScanE(m, st, a));
        ScanClearE(m, st, a, w, kept);
        ScanClearL(body, push, ScanE(m, st, a), w, kept);
      case For(_, _, _, _, _, _, _) => ScanClearFor(s, st, a, w, kept);
    }
  }

  lemma {:induction false} ScanClearFor(s: Stmt, st: AStack, a: Found, w: Found, kept: set<nat>)
    requires s.For? && Final(ScanS(s, st, a), w, ForIdsS(s)) && Contained(kept, w) && ProperS(s) && New(ForIdsS(s), a)
    ensures ClearS(s, st, kept)
    decreases s, 0
  {
    var i, f, b := ForIter(s, st, a), ForFilter(s, st, a), ForBody(s, st, a);
    ScanAddsFor(s, st, a);
    ScanAddsE(s.iter, st, a);
    ScanAddsL(s.els, st, b);
    ScanAddsL(s.body, APush(ALoop(s.id), st), f);
    FinalBefore(b, ScanS(s, st, a), w, {s.id} + ForIdsL(s.body), ForIdsL(s.els));
    FinalBefore(f, b, w, {s.id}, ForIdsL(s.body));
    ForEntered(s, st, a, w, kept);
    ScanClearL(s.els, st, b, w, kept);
    ScanClearL(s.body, APush(ALoop(s.id), st), f, w, kept);
    if s.filter.Some? {
      var push := APush(AFilter(FilterBindsLoop(s.t1, s.t2, s.filter.value)), st);
      ScanAddsE(s.filter.value, push, Entered(s, st, i));
      ScanClearE(s.filter.value, push, Entered(s, st, i), w, kept);
    }
    ScanClearE(s.iter, st, a, w, kept);
  }

  // A loop that is not contained takes the loop above it with it.
  lemma ForEntered(s: Stmt, st: AStack, a: Found, w: Found, kept: set<nat>)
    requires s.For? && Final(ForFilter(s, st, a), w, {s.id}) && Contained(kept, w)
    ensures s.id !in kept ==> NearClear(st, kept)
    ensures ForIter(s, st, a).escapes <= w.escapes
  {
    var e := Entered(s, st, ForIter(s, st, a));
    if s.filter.Some? {
      ScanAddsE(s.filter.value, APush(AFilter(FilterBindsLoop(s.t1, s.t2, s.filter.value)), st), e);
    }
  }

  lemma {:induction false} ScanClearL(ss: seq<Stmt>, st: AStack, a: Found, w: Found, kept: set<nat>)
    requires Final(ScanL(ss, st, a), w, ForIdsL(ss)) && Contained(kept, w) && ProperL(ss) && New(ForIdsL(ss), a)
    ensures ClearL(ss, st, kept)
    decreases ss, 0
  {
    if ss != [] {
      var m := ScanS(ss[0], st, a);
      ScanAddsS(ss[0], st, a);
      ScanAddsL(ss[1..], st, m);
      FinalBefore(m, ScanL(ss[1..], st, m), w, ForIdsS(ss[0]), ForIdsL(ss[1..]));
      ScanClearS(ss[0], st, a, w, kept);
      ScanClearL(ss[1..], st, m, w, kept);
    }
  }

  lemma {:induction false} ScanClearC(cl: seq<Clause>, st: AStack, a: Found, w: Found, kept: set<nat>)
    requires Final(ScanC(cl, st, a), w, ForIdsC(cl)) && Contained(kept, w) && ProperC(cl) && New(ForIdsC(cl), a)
    ensures ClearC(cl, st, kept)
    decreases cl, 0
  {
    if cl != [] {
      var m := Clauses1(cl[0], st, a);
      ClauseAdds(cl[0], st, a);
      ScanAddsC(cl[1..], st, m);
      FinalBefore(m, ScanC(cl[1..], st, m), w, ForIdsL(cl[0].body), ForIdsC(cl[1..]));
      match cl[0] {
        case When(e, body) =>
          ScanAddsE(e, st, a);
          ScanAddsL(body, st, ScanE(e, st, a));
          ScanClearE(e, st, a, w, kept);
          ScanClearL(body, st, ScanE(e, st, a), w, kept);
        case Otherwise(body) => ScanClearL(body, st, a, w, kept);
      }
      ScanClearC(cl[1..], st, m, w, kept);
    }
  }

  lemma ClauseAdds(c: Clause, st: AStack, a: Found)
    ensures Adds(a, Clauses1(c, st, a), ForIdsL(c.body))
  {
    match c {
      case When(e, body) => ScanAddsE(e, st, a); ScanAddsL(body, st, ScanE(e, st, a));
      case Otherwise(body) => ScanAddsL(body, st, a);
    }
  }

  // ----- the theorem -----

  function ScanModule(ss: seq<Stmt>): Found { ScanL(ss, ARoot, NOTHING) }

  lemma {:induction false} ScanLinks(ss: seq<Stmt>, escapes: set<nat>)
    requires LeastLinked(escapes, ScanModule(ss))
    ensures Contained(ContainedOf(ScanModule(ss), escapes), ScanModule(ss).(escapes := escapes))
  {
  }

  // The loops the analysis clears, for any module whose for nodes are distinct: rendering with one
  // loop object per cleared loop and pooled pair snapshots is rendering with fresh ones, whatever
  // buffers the pool hands out and over every root scope of ordinary values.
  lemma AnalysisSound(ss: seq<Stmt>, escapes: set<nat>, root: Scope, lenient: bool, pick: Heap -> nat)
    requires ProperL(ss) && LeastLinked(escapes, ScanModule(ss))
    requires root.Scope? && root.parent.NoScope? && SolidEntries(root.entries)
    ensures ReuseRun.SameRun(ExecList(ss, root, EMPTY, "", Config(lenient, SafeOf(ScanModule(ss), escapes), pick)),
                             I.ExecList(ss, root, "", lenient))
  {
    var w := ScanModule(ss).(escapes := escapes);
    var kept := ContainedOf(ScanModule(ss), escapes);
    ScanLinks(ss, escapes);
    ScanClearL(ss, ARoot, NOTHING, w, kept);
    ReuseRun.RecycledRenders(ss, kept, root, Config(lenient, SafeOf(ScanModule(ss), escapes), pick));
  }

  // ----- the analyzer as it runs -----

  class EscapeAnalyzer {
    var stack: AStack
    var fors: seq<nat>
    var escapes: set<nat>
    var fused: set<nat>
    var parents: map<nat, nat>

    constructor ()
      ensures stack == ARoot && State() == NOTHING
    {
      stack, fors, escapes, fused, parents := ARoot, [], {}, {}, map[];
    }

    function State(): Found
      reads this
    {
      Found(fors, escapes, fused, parents)
    }

    method MarkLoop(n: Option<nat>)
      modifies this
      ensures stack == old(stack) && State() == Escaping(old(State()), n)
    {
      if n.Some? { escapes := escapes + {n.value}; }
    }

    method WalkExpr(e: Expr)
      modifies this
      ensures stack == old(stack) && State() == ScanE(e, old(stack), old(State()))
      decreases e, 1
    {
      match e {
        case Name(x) => if x == "loop" { MarkLoop(LandingOf(stack)); }
        case Context => MarkLoop(Innermost(stack));
        case ListLit(items) => WalkElements(items);
        case MapLit(fields) => WalkEntries(fields);
        case Attr(_, r, _, _) => if !SafeRead(e, stack) { WalkExpr(r); }
        case Not(a) => WalkExpr(a);
        case Bin(_, l, r) => WalkExpr(l); WalkExpr(r);
        case Logic(_, l, r) => WalkExpr(l); WalkExpr(r);
        case Ternary(c, a, b) => WalkExpr(c); WalkExpr(a); WalkExpr(b);
        case Coalesce(l, r) => WalkExpr(l); WalkExpr(r);
        case Elvis(l, r) => WalkExpr(l); WalkExpr(r);
        case Assign(x, a) =>
          if x == "loop" { MarkLoop(Innermost(stack)); }
          WalkExpr(a);
        case _ =>
      }
    }

    method WalkElements(items: seq<Expr>)
      modifies this
      ensures stack == old(stack) && State() == ScanItems(items, old(stack), old(State()))
      decreases items, 0
    {
      if items != [] {
        WalkExpr(items[0]);
        WalkElements(items[1..]);
      }
    }

    method WalkEntries(fields: seq<Entry>)
      modifies this
      ensures stack == old(stack) && State() == ScanFields(fields, old(stack), old(State()))
      decreases fields, 0
    {
      if fields != [] {
        WalkExpr(fields[0].v);
        WalkEntries(fields[1..]);
      }
    }

    method WalkStmt(s: Stmt)
      modifies this
      ensures stack == old(stack) && State() == ScanS(s, old(stack), old(State()))
      decreases s, 1
    {
      match s {
        case Text(_) =>
        case Print(e) => WalkExpr(e);
        case Do(e) => WalkExpr(e);
        case Set(x, e) =>
          if x == "loop" { MarkLoop(Innermost(stack)); }
          WalkExpr(e);
        case Capture(x, body) =>
          if x == "loop" { MarkLoop(Innermost(stack)); }
          WalkItems(body);
        case Apply(_) => MarkLoop(Innermost(stack));
        case If(clauses) => WalkClauses(clauses);
        case With(m, only, body) =>
          WalkExpr(m);
          WalkPushed(if only then AOnly else AWith, body);
        case For(_, _, _, _, _, _, _) => WalkFor(s);
      }
    }

    method WalkPushed(f: AFrame, body: seq<Stmt>)
      modifies this
      ensures stack == old(stack) && State() == ScanL(body, APush(f, old(stack)), old(State()))
      decreases body, 1
    {
      stack := APush(f, stack);
      WalkItems(body);
      stack := stack.below;
    }

    method EnterFor(s: Stmt)
      requires s.For?
      modifies this
      ensures stack == old(stack) && State() == Entered(s, old(stack), old(State()))
    {
      if s.id in fors { MarkLoop(Some(s.id)); } else { fors := fors + [s.id]; }
      var p := NearestLoop(stack);
      if p.Some? { parents := parents[s.id := p.value]; }
      if "loop" in TargetNames(s.t1, s.t2) { MarkLoop(Some(s.id)); }
      if s.filter.Some? { fused := fused + {s.id}; }
    }

    method WalkFor(s: Stmt)
      requires s.For?
      modifies this
      ensures stack == old(stack) && State() == ScanS(s, old(stack), old(State()))
      decreases s, 0
    {
      WalkExpr(s.iter);
      EnterFor(s);
      if s.filter.Some? {
        stack := APush(AFilter(FilterBindsLoop(s.t1, s.t2, s.filter.value)), stack);
        WalkExpr(s.filter.value);
        stack := stack.below;
      }
      WalkPushed(ALoop(s.id), s.body);
      WalkItems(s.els);
    }

    method WalkItems(ss: seq<Stmt>)
      modifies this
      ensures stack == old(stack) && State() == ScanL(ss, old(stack), old(State()))
      decreases ss, 0
    {
      if ss != [] {
        WalkStmt(ss[0]);
        WalkItems(ss[1..]);
      }
    }

    method WalkClauses(cl: seq<Clause>)
      modifies this
      ensures stack == old(stack) && State() == ScanC(cl, old(stack), old(State()))
      decreases cl, 0
    {
      if cl != [] {
        match cl[0] {
          case When(c, body) => WalkExpr(c); WalkItems(body);
          case Otherwise(body) => WalkItems(body);
        }
        WalkClauses(cl[1..]);
      }
    }

    // Closes the escapes under parent links, over whole passes until one changes nothing.
    method Propagate()
      modifies this
      ensures stack == old(stack) && State() == old(State()).(escapes := escapes)
      ensures LeastLinked(escapes, old(State()))
    {
      ghost var w := State();
      var changed := true;
      while changed
        invariant stack == old(stack) && State() == w.(escapes := escapes)
        invariant w.escapes <= escapes && Below(escapes, w)
        invariant !changed ==> LinkClosed(escapes, w)
        decreases (set n | n in parents.Values && n !in escapes), changed
      {
        changed := false;
        ghost var before := escapes;
        for i := 0 to |fors|
          invariant stack == old(stack) && State() == w.(escapes := escapes)
          invariant w.escapes <= escapes && before <= escapes && Below(escapes, w)
          invariant !changed ==> escapes == before
          invariant changed ==> exists n :: n in w.parents.Values && n !in before && n in escapes
          invariant !changed ==> forall j :: 0 <= j < i && fors[j] in escapes && fors[j] in parents ==>
              parents[fors[j]] in escapes
        {
          var n := fors[i];
          if n in escapes && n in parents && parents[n] !in escapes {
            assert parents[n] in w.parents.Values;
            escapes := escapes + {parents[n]};
            changed := true;
          }
        }
        if changed {
          Shrinks(w.parents.Values, before, escapes);
        }
      }
    }
  }

  // Every closed set over the recorded escapes holds these.
  ghost predicate Below(escapes: set<nat>, w: Found) {
    forall t: set<nat> :: w.escapes <= t && LinkClosed(t, w) ==> escapes <= t
  }

  lemma Shrinks(all: set<nat>, a: set<nat>, b: set<nat>)
    requires a <= b && exists n :: n in all && n !in a && n in b
    ensures (set n | n in all && n !in b) < (set n | n in all && n !in a)
  {
    var n :| n in all && n !in a && n in b;
    var before, after := (set k | k in all && k !in a), (set k | k in all && k !in b);
    assert n in before && n !in after && after <= before;
  }

  // The loops of a module that may recycle their memory.
  method AnalyzeLoopEscapes(ss: seq<Stmt>) returns (safe: set<nat>, ghost escapes: set<nat>)
    ensures LeastLinked(escapes, ScanModule(ss)) && safe == SafeOf(ScanModule(ss), escapes)
  {
    var a := new EscapeAnalyzer();
    a.WalkItems(ss);
    a.Propagate();
    escapes := a.escapes;
    safe := {};
    for i := 0 to |a.fors|
      invariant a.State() == ScanModule(ss).(escapes := escapes)
      invariant safe == set n | n in a.fors[..i] && n !in a.escapes && n !in a.fused
    {
      if a.fors[i] !in a.escapes && a.fors[i] !in a.fused { safe := safe + {a.fors[i]}; }
      assert a.fors[..i + 1] == a.fors[..i] + [a.fors[i]];
    }
    assert a.fors[..|a.fors|] == a.fors;
  }
}
