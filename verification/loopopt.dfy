/** The compiled loop optimizer's escape analysis: which loops must materialize their loop value,
    and which member reads lower to counter arithmetic. */
module LoopOpt {
  import opened Values
  import opened Syntax
  import opened Scan
  import opened Lowering
  import opened Safety

  // ----- the analyzer's scope model -----

  datatype AFrame = ALoop(node: nat) | AFilter(bindsLoop: bool) | AWith | AOnly

  // The scope stack, innermost first; its bottom is the module's root.
  datatype AStack = ARoot | APush(f: AFrame, below: AStack)

  // A structurally approved loop.<field> read: the base loop and every loop a parent step chases
  // to, the target last.
  datatype ChainRead = ChainRead(node: nat, chain: seq<nat>, field: string)

  // What a walk has recorded.
  datatype Walk = Walk(visited: seq<nat>, marks: set<nat>, parents: map<nat, seq<nat>>, chains: seq<ChainRead>,
                       noInline: set<nat>)

  // The loop a reference to the name loop lands on, with the stack from its frame down, and whether
  // the resolution is provable.
  function AttributeLoop(st: AStack): (AStack, bool) {
    match st
    case ARoot => (ARoot, false)
    case APush(f, below) =>
      match f
      case ALoop(_) => (st, true)
      case AOnly => (ARoot, false)
      case AWith => (AttributeLoop(below).0, false)
      case AFilter(b) => (AttributeLoop(below).0, AttributeLoop(below).1 && !b)
  }

  // One parent step from below a loop's frame.
  function ChaseParent(st: AStack): AStack {
    match st
    case ARoot => ARoot
    case APush(f, below) =>
      match f
      case ALoop(_) => st
      case AFilter(b) => if b then ARoot else ChaseParent(below)
      case _ => ARoot
  }

  // The loop the parent link of a new loop resolves to.
  function NearestLoop(st: AStack): Option<nat> {
    match st
    case ARoot => None
    case APush(f, below) =>
      match f
      case ALoop(n) => Some(n)
      case AOnly => None
      case _ => NearestLoop(below)
  }

  function Innermost(st: AStack): Option<nat> {
    match st
    case ARoot => None
    case APush(f, below) => if f.ALoop? then Some(f.node) else Innermost(below)
  }

  predicate AtLoop(st: AStack) { st.APush? && st.f.ALoop? }

  // ----- the walk -----

  // A walk only records more, and records only reads of inline fields.
  ghost predicate Grows(a: Walk, b: Walk) {
    && (forall n :: n in a.visited ==> n in b.visited) && a.marks <= b.marks
    && (forall n, p :: ParentOf(a, n, p) ==> ParentOf(b, n, p))
    && (forall r :: r in a.chains ==> r in b.chains) && a.noInline <= b.noInline
    && (forall r :: r in b.chains ==> r in a.chains || (r.field in InlineFields() && r.chain != []))
  }

  predicate ParentOf(w: Walk, n: nat, p: nat) {
    n in w.parents && p in w.parents[n]
  }

  function Mark(w: Walk, n: Option<nat>): Walk {
    if n.Some? then w.(marks := w.marks + {n.value}) else w
  }

  function EscapeInnermost(st: AStack, w: Walk): Walk {
    Mark(w, Innermost(st))
  }

  function MarkLanding(st: AStack, w: Walk): Walk {
    var t := AttributeLoop(st).0;
    if AtLoop(t) then Mark(w, Some(t.f.node)) else w
  }

  // loop.parent...parent resolved cleanly: its chain of loops, and the stack from the last one down.
  function ResolveChain(e: Expr, st: AStack): (r: (seq<nat>, AStack))
    ensures AtLoop(r.1) ==> r.0 != []
  {
    match e
    case Name(x) =>
      var t := AttributeLoop(st);
      if x == "loop" && AtLoop(t.0) && t.1 then ([t.0.f.node], t.0) else ([], ARoot)
    case Attr(_, r, field, nullSafe) =>
      var c := ResolveChain(r, st);
      if field == "parent" && !nullSafe && AtLoop(c.1) && AtLoop(ChaseParent(c.1.below)) then
        (c.0 + [ChaseParent(c.1.below).f.node], ChaseParent(c.1.below))
      else ([], ARoot)
    case _ => ([], ARoot)
  }

  // An approved read rooted at e.
  function TryChain(e: Expr, st: AStack): (r: Option<ChainRead>)
    requires e.Attr?
    ensures r.Some? ==> r.value.field in InlineFields() && r.value.chain != []
  {
    var c := ResolveChain(e.recv, st);
    if !e.nullSafe && e.field in InlineFields() && AtLoop(c.1) then Some(ChainRead(e.node, c.0, e.field))
    else None
  }

  function WalkE(e: Expr, st: AStack, w: Walk): (r: Walk)
    ensures Grows(w, r)
    decreases e, 1
  {
    match e
    case Lit(_) => w
    case Name(x) => if x == "loop" then MarkLanding(st, w) else w
    case Context => EscapeInnermost(st, w)
    case ListLit(items) => WalkItems(items, st, w)
    case MapLit(fields) => WalkFields(fields, st, w)
    case Attr(node, r, _, _) =>
      (match TryChain(e, st)
       case Some(c) => w.(chains := w.chains + [c])
       case None => WalkE(r, st, w.(noInline := w.noInline + {node})))
    case Not(a) => WalkE(a, st, w)
    case Bin(_, l, r) => WalkE(r, st, WalkE(l, st, w))
    case Logic(_, l, r) => WalkE(r, st, WalkE(l, st, w))
    case Ternary(c, a, b) => WalkE(b, st, WalkE(a, st, WalkE(c, st, w)))
    case Coalesce(l, r) => WalkE(r, st, WalkE(l, st, w))
    case Elvis(l, r) => WalkE(r, st, WalkE(l, st, w))
    case Assign(x, a) => WalkE(a, st, if x == "loop" then EscapeInnermost(st, w) else w)
  }

  function WalkItems(items: seq<Expr>, st: AStack, w: Walk): (r: Walk)
    ensures Grows(w, r)
    decreases items, 0
  {
    if items == [] then w else WalkItems(items[1..], st, WalkE(items[0], st, w))
  }

  function WalkFields(fields: seq<Entry>, st: AStack, w: Walk): (r: Walk)
    ensures Grows(w, r)
    decreases fields, 0
  {
    if fields == [] then w else WalkFields(fields[1..], st, WalkE(fields[0].v, st, w))
  }

  // A captured block of @apply is not walked.
  function WalkS(s: Stmt, st: AStack, w: Walk): (r: Walk)
    ensures Grows(w, r)
    decreases s, 1
  {
    match s
    case Text(_) => w
    case Print(e) => WalkE(e, st, w)
    case Do(e) => WalkE(e, st, w)
    case Set(x, e) => WalkE(e, st, if x == "loop" then EscapeInnermost(st, w) else w)
    case Capture(x, body) => WalkL(body, st, if x == "loop" then EscapeInnermost(st, w) else w)
    case Apply(_) => w
    case If(clauses) => WalkC(clauses, st, w)
    case With(m, only, body) => WalkL(body, APush(if only then AOnly else AWith, st), WalkE(m, st, w))
    case For(id, t1, t2, iter, filter, body, els) =>
      var w1 := Enter(s, st, WalkE(iter, st, w));
      var w2 := if filter.Some? then WalkE(filter.value, APush(AFilter(FilterBindsLoop(t1, t2, filter.value)), st),
                                           w1) else w1;
      WalkL(els, st, WalkL(body, APush(ALoop(id), st), w2))
  }

  // What reaching a for records: a second visit materializes it, its parent link is noted, and a
  // target named loop materializes it.
  function Enter(s: Stmt, st: AStack, w: Walk): (r: Walk)
    requires s.For?
    ensures Grows(w, r) && s.id in r.visited
    ensures s.id in w.visited || "loop" in TargetNames(s.t1, s.t2) ==> s.id in r.marks
    ensures NearestLoop(st).Some? ==> ParentOf(r, s.id, NearestLoop(st).value)
  {
    var w1 := if s.id in w.visited then Mark(w, Some(s.id)) else w.(visited := w.visited + [s.id]);
    var w2 := match NearestLoop(st)
              case None => w1
              case Some(p) => w1.(parents := w1.parents[s.id := (if s.id in w1.parents then w1.parents[s.id] else [])
                                                        + [p]]);
    if "loop" in TargetNames(s.t1, s.t2) then Mark(w2, Some(s.id)) else w2
  }

  function WalkL(ss: seq<Stmt>, st: AStack, w: Walk): (r: Walk)
    ensures Grows(w, r)
    decreases ss, 0
  {
    if ss == [] then w else WalkL(ss[1..], st, WalkS(ss[0], st, w))
  }

  function WalkC(cl: seq<Clause>, st: AStack, w: Walk): (r: Walk)
    ensures Grows(w, r)
    decreases cl, 0
  {
    if cl == [] then w
    else
      WalkC(cl[1..], st,
            match cl[0]
            case When(c, body) => WalkL(body, st, WalkE(c, st, w))
            case Otherwise(body) => WalkL(body, st, w))
  }

  function WalkModule(ss: seq<Stmt>): Walk {
    WalkL(ss, ARoot, Walk([], {}, map[], [], {}))
  }

  // ----- the materialization set -----

  // Two recorded reads of one node that resolved different chains.
  predicate Differing(rs: seq<ChainRead>, node: nat) {
    exists i, j :: 0 <= i < |rs| && 0 <= j < |rs| && rs[i].node == node && rs[j].node == node
        && rs[i].chain != rs[j].chain
  }

  predicate Disapproved(w: Walk, node: nat) {
    node in w.noInline || Differing(w.chains, node)
  }

  // The marks, and the bases of every read whose node some visit could not approve.
  ghost predicate Seeded(w: Walk, m: set<nat>) {
    && w.marks <= m
    && (forall r :: r in w.chains && r.chain != [] && Disapproved(w, r.node) ==> r.chain[0] in m)
  }

  // The outward parent-link rule, and the chain rule.
  ghost predicate Closed(w: Walk, m: set<nat>) {
    && (forall n, p :: n in w.visited && n in m && ParentOf(w, n, p) ==> p in m)
    && (forall r, l :: r in w.chains && r.chain != [] && l in r.chain[1..] && l in m ==> r.chain[0] in m)
  }

  // Within every set that holds the seeds and is closed.
  ghost predicate Bounded(w: Walk, m: set<nat>) {
    forall s: set<nat> {:trigger Seeded(w, s)} :: Seeded(w, s) && Closed(w, s) ==> m <= s
  }

  ghost predicate Least(w: Walk, m: set<nat>) {
    Seeded(w, m) && Closed(w, m) && Bounded(w, m)
  }

  // There is one least set, whatever order the rules are applied in.
  lemma LeastUnique(w: Walk, a: set<nat>, b: set<nat>)
    requires Least(w, a) && Least(w, b)
    ensures a == b
  {
    assert Seeded(w, a) && Seeded(w, b);
  }

  // The approved reads under a materialization set; a later read of a node replaces an earlier one.
  function Approve(rs: seq<ChainRead>, m: set<nat>, noInline: set<nat>): map<nat, (nat, string)> {
    if rs == [] then map[]
    else
      var rest := Approve(rs[..|rs| - 1], m, noInline);
      var r := rs[|rs| - 1];
      if r.chain != [] && r.chain[0] !in m && r.node !in noInline then
        rest[r.node := (r.chain[|r.chain| - 1], r.field)]
      else rest
  }

  // The decisions the lowering consumes.
  function PlanOf(w: Walk, m: set<nat>, lenient: bool): Plan {
    Plan(lenient, (set n | n in w.visited && n !in m), Approve(w.chains, m, w.noInline))
  }
}
