/** The interpreter as it recycles loop memory: a loop the escape analysis cleared binds one loop
    object it advances in place, over a pair snapshot held in a pooled buffer. */
module Reuse {
  import opened Values
  import opened Syntax
  import opened Scopes
  import opened Interp

  // ----- the heap -----

  // A reused loop object: its index, the buffer of its pairs, and its parent link.
  datatype Cell = Cell(index: nat, buf: nat, parent: Value)

  // The loop objects allocated so far, the snapshot buffers, and the pool of released ones.
  datatype Heap = Heap(cells: seq<Cell>, bufs: seq<seq<(string, Value)>>, free: seq<nat>)

  // safe holds the loops the analysis cleared.  pick is the pool's choice: a position in the free
  // list, or none of them when it falls outside, in which case a new buffer is made.
  datatype Config = Config(lenient: bool, safe: set<nat>, pick: Heap -> nat)

  const EMPTY: Heap := Heap([], [], [])

  // Takes a buffer and overwrites it with a snapshot.
  function Acquire(h: Heap, ps: seq<(string, Value)>, cfg: Config): (nat, Heap) {
    var k := cfg.pick(h);
    if k < |h.free| && h.free[k] < |h.bufs| then
      (h.free[k], Heap(h.cells, h.bufs[h.free[k] := ps], h.free[..k] + h.free[k + 1..]))
    else (|h.bufs|, h.(bufs := h.bufs + [ps]))
  }

  // Returns a buffer to the pool, its contents unwiped.
  function Release(h: Heap, b: nat): Heap { h.(free := h.free + [b]) }

  function Advance(h: Heap, c: nat, i: nat): Heap {
    if c < |h.cells| then h.(cells := h.cells[c := h.cells[c].(index := i)]) else h
  }

  // The pairs a buffer holds now.
  function PairsOf(h: Heap, b: nat): seq<(string, Value)> { if b < |h.bufs| then h.bufs[b] else [] }

  // A member read: of a live loop object, the field it has now.
  function DotNow(recv: Value, name: string, absent: bool, h: Heap): Result<Value> {
    if recv.Ref? && recv.cell < |h.cells| then
      var c := h.cells[recv.cell];
      match LoopField(c.index, PairsOf(h, c.buf), c.parent, name)
      case Some(v) => Ok(v)
      case None => if absent then Ok(Null) else Err(UndefinedKey(name))
    else GetDot(recv, name, absent)
  }

  function AttrNow(recv: Value, field: string, nullSafe: bool, absent: bool, h: Heap): Result<Value> {
    if recv.Null? && (nullSafe || absent) then Ok(Null) else DotNow(recv, field, absent, h)
  }

  // ----- expressions -----

  function Eval(e: Expr, sc: Scope, absent: bool, lenient: bool, h: Heap): (r: EvalR)
    requires sc.Scope?
    ensures r.EOk? ==> r.sc.Scope? && r.sc.parent == sc.parent
    decreases e, 1
  {
    match e
    case Lit(v) => EOk(v, sc)
    case Name(x) => EvalName(x, sc, absent, lenient)
    case Context => EOk(Arr(ContextEntries(Names(sc), sc)), sc)
    case ListLit(items) => EvalItems(items, sc, 0, [], lenient, h)
    case MapLit(fields) => EvalFields(fields, sc, [], lenient, h)
    case Attr(_, recv, field, nullSafe) =>
      (match Eval(recv, sc, absent, lenient, h)
       case EFail(x) => EFail(x)
       case EOk(v, sc1) => Lift(AttrNow(v, field, nullSafe, absent, h), sc1))
    case Not(a) =>
      (match Eval(a, sc, false, lenient, h)
       case EFail(x) => EFail(x)
       case EOk(v, sc1) => EOk(Bool(!Truthy(v)), sc1))
    case Bin(op, l, r) =>
      (match Eval(l, sc, false, lenient, h)
       case EFail(x) => EFail(x)
       case EOk(v, sc1) =>
         match Eval(r, sc1, false, lenient, h)
         case EFail(x) => EFail(x)
         case EOk(w, sc2) => Lift(Binary(op, v, w), sc2))
    case Logic(op, l, r) =>
      (match Eval(l, sc, false, lenient, h)
       case EFail(x) => EFail(x)
       case EOk(v, sc1) =>
         if op == And && !Truthy(v) then EOk(Bool(false), sc1)
         else if op == Or && Truthy(v) then EOk(Bool(true), sc1)
         else
           match Eval(r, sc1, false, lenient, h)
           case EFail(x) => EFail(x)
           case EOk(w, sc2) => EOk(Bool(if op == Xor then Truthy(v) != Truthy(w) else Truthy(w)), sc2))
    case Ternary(c, a, b) =>
      (match Eval(c, sc, false, lenient, h)
       case EFail(x) => EFail(x)
       case EOk(v, sc1) => if Truthy(v) then Eval(a, sc1, false, lenient, h) else Eval(b, sc1, false, lenient, h))
    case Coalesce(l, r) =>
      (match Eval(l, sc, true, lenient, h)
       case EFail(x) => EFail(x)
       case EOk(v, sc1) => if v.Null? then Eval(r, sc1, false, lenient, h) else EOk(v, sc1))
    case Elvis(l, r) =>
      (match Eval(l, sc, true, lenient, h)
       case EFail(x) => EFail(x)
       case EOk(v, sc1) => if Truthy(v) then EOk(v, sc1) else Eval(r, sc1, false, lenient, h))
    case Assign(x, a) =>
      (match Eval(a, sc, false, lenient, h)
       case EFail(er) => EFail(er)
       case EOk(v, sc1) => EOk(v, SetName(sc1, x, v)))
  }

  function EvalItems(items: seq<Expr>, sc: Scope, n: nat, acc: seq<(string, Value)>, lenient: bool, h: Heap): (r: EvalR)
    requires sc.Scope?
    ensures r.EOk? ==> r.sc.Scope? && r.sc.parent == sc.parent
    decreases items, 0
  {
    if items == [] then EOk(Arr(acc), sc)
    else
      match Eval(items[0], sc, false, lenient, h)
      case EFail(x) => EFail(x)
      case EOk(v, sc1) => EvalItems(items[1..], sc1, n + 1, Put(acc, IntText(n), v), lenient, h)
  }

  function EvalFields(fields: seq<Entry>, sc: Scope, acc: seq<(string, Value)>, lenient: bool, h: Heap): (r: EvalR)
    requires sc.Scope?
    ensures r.EOk? ==> r.sc.Scope? && r.sc.parent == sc.parent
    decreases fields, 0
  {
    if fields == [] then EOk(Arr(acc), sc)
    else
      match Eval(fields[0].v, sc, false, lenient, h)
      case EFail(x) => EFail(x)
      case EOk(v, sc1) => EvalFields(fields[1..], sc1, Put(acc, fields[0].key, v), lenient, h)
  }

  // ----- statements -----

  datatype HeapR = HOk(sc: Scope, h: Heap, out: string) | HFail(error: Error, partial: string)

  function FilterPairs(cond: Expr, t1: string, t2: Option<string>, ps: seq<(string, Value)>,
                       sc: Scope, kept: seq<(string, Value)>, lenient: bool, h: Heap): FilterR
    requires sc.Scope?
    decreases |ps|
  {
    if ps == [] then FOk(kept)
    else
      match Eval(cond, BindTargets(sc, t1, t2, ps[0]), false, lenient, h)
      case EFail(x) => FFail(x)
      case EOk(v, sc1) =>
        FilterPairs(cond, t1, t2, ps[1..], sc1, if Truthy(v) then kept + [ps[0]] else kept, lenient, h)
  }

  function Exec(s: Stmt, sc: Scope, h: Heap, out: string, cfg: Config): (r: HeapR)
    requires sc.Scope?
    ensures r.HOk? ==> r.sc.Scope? && r.sc.parent == sc.parent
    decreases s, 1
  {
    match s
    case Text(t) => HOk(sc, h, out + t)
    case Print(e) =>
      (match Eval(e, sc, false, cfg.lenient, h)
       case EFail(x) => HFail(x, out)
       case EOk(v, sc1) =>
         match ToText(v)
         case Ok(t) => HOk(sc1, h, out + t)
         case Err(x) => HFail(x, out))
    case Do(e) =>
      (match Eval(e, sc, false, cfg.lenient, h)
       case EFail(x) => HFail(x, out)
       case EOk(_, sc1) => HOk(sc1, h, out))
    case Set(x, e) =>
      (match Eval(e, sc, false, cfg.lenient, h)
       case EFail(er) => HFail(er, out)
       case EOk(v, sc1) => HOk(SetName(sc1, x, v), h, out))
    case Capture(x, body) =>
      (match ExecList(body, sc, h, "", cfg)
       case HFail(er, _) => HFail(er, out)
       case HOk(sc1, h1, text) => HOk(SetName(sc1, x, Str(text)), h1, out))
    case Apply(body) =>
      (match ExecList(body, sc, h, "", cfg)
       case HFail(er, _) => HFail(er, out)
       case HOk(sc1, h1, text) => HOk(sc1, h1, out + text))
    case If(clauses) => ExecIf(clauses, sc, h, out, cfg)
    case With(m, only, body) =>
      (match Eval(m, sc, false, cfg.lenient, h)
       case EFail(x) => HFail(x, out)
       case EOk(v, sc1) =>
         match ExecList(body, SetAll(Child(if only then NoScope else sc1), WithEntries(v)), h, out, cfg)
         case HFail(x, o) => HFail(x, o)
         case HOk(_, h1, o) => HOk(sc1, h1, o))
    case For(_, _, _, iter, _, _, _) =>
      (match Eval(iter, sc, false, cfg.lenient, h)
       case EFail(x) => HFail(x, out)
       case EOk(v, sc1) => ExecFor(s, v, sc1, h, out, cfg))
  }

  predicate Pooled(s: Stmt, cfg: Config)
    requires s.For?
  {
    s.filter.None? && s.id in cfg.safe
  }

  // A cleared loop over an array snapshots it into a pooled buffer, released when the loop is left.
  function ExecFor(s: Stmt, v: Value, sc: Scope, h: Heap, out: string, cfg: Config): (r: HeapR)
    requires s.For? && sc.Scope?
    ensures r.HOk? ==> r.sc.Scope? && r.sc.parent == sc.parent
    decreases s, 0, 3
  {
    match Traverse(v, cfg.lenient)
    case Err(x) => HFail(x, out)
    case Ok(ps) =>
      if Pooled(s, cfg) && v.Arr? then
        var a := Acquire(h, ps, cfg);
        match ExecPooled(s, a.0, sc, a.1, out, cfg)
        case HFail(x, o) => HFail(x, o)
        case HOk(sc1, h1, o) => HOk(sc1, Release(h1, a.0), o)
      else
        match (if s.filter.Some? then FilterPairs(s.filter.value, s.t1, s.t2, ps, Child(sc), [], cfg.lenient,
                                                  h) else FOk(ps))
        case FFail(x) => HFail(x, out)
        case FOk(kept) => ExecFresh(s, kept, sc, h, out, cfg)
  }

  // A loop over pairs of its own, with a fresh loop value each iteration.
  function ExecFresh(s: Stmt, ps: seq<(string, Value)>, sc: Scope, h: Heap, out: string, cfg: Config): (r: HeapR)
    requires s.For? && sc.Scope?
    ensures r.HOk? ==> r.sc.Scope? && r.sc.parent == sc.parent
    decreases s, 0, 1
  {
    if ps == [] then ExecList(s.els, sc, h, out, cfg)
    else
      match IterFresh(s.body, s.t1, s.t2, ps, 0, Get(sc, "loop").GetOr(Null), Child(sc), h, out, cfg)
      case HFail(x, o) => HFail(x, o)
      case HOk(lc, h1, o) => HOk(CopyBack(Names(sc), LoopControls(s.t1, s.t2), lc.entries, sc), h1, o)
  }

  function IterFresh(body: seq<Stmt>, t1: string, t2: Option<string>, ps: seq<(string, Value)>, i: nat,
                     parent: Value, lc: Scope, h: Heap, out: string, cfg: Config): (r: HeapR)
    requires lc.Scope? && i <= |ps|
    ensures r.HOk? ==> r.sc.Scope? && r.sc.parent == lc.parent
    decreases body, 1, |ps| - i
  {
    if i == |ps| then HOk(lc, h, out)
    else
      match ExecList(body, SetName(BindTargets(lc, t1, t2, ps[i]), "loop", Loop(i, ps, parent)), h, out, cfg)
      case HFail(x, o) => HFail(x, o)
      case HOk(lc1, h1, o) => IterFresh(body, t1, t2, ps, i + 1, parent, lc1, h1, o, cfg)
  }

  // A loop over the buffer b, with one loop object advanced in place.
  function ExecPooled(s: Stmt, b: nat, sc: Scope, h: Heap, out: string, cfg: Config): (r: HeapR)
    requires s.For? && sc.Scope?
    ensures r.HOk? ==> r.sc.Scope? && r.sc.parent == sc.parent
    decreases s, 0, 2
  {
    var n := |PairsOf(h, b)|;
    if n == 0 then ExecList(s.els, sc, h, out, cfg)
    else
      var c := Cell(0, b, Get(sc, "loop").GetOr(Null));
      match IterPooled(s.body, s.t1, s.t2, b, n, 0, |h.cells|, Child(sc), h.(cells := h.cells + [c]), out, cfg)
      case HFail(x, o) => HFail(x, o)
      case HOk(lc, h1, o) => HOk(CopyBack(Names(sc), LoopControls(s.t1, s.t2), lc.entries, sc), h1, o)
  }

  // Each iteration reads its pair from the buffer as it stands.
  function IterPooled(body: seq<Stmt>, t1: string, t2: Option<string>, b: nat, n: nat, i: nat, c: nat, lc: Scope,
                      h: Heap, out: string, cfg: Config): (r: HeapR)
    requires lc.Scope? && i <= n
    ensures r.HOk? ==> r.sc.Scope? && r.sc.parent == lc.parent
    decreases body, 1, n - i
  {
    if i == n then HOk(lc, h, out)
    else
      var p := if i < |PairsOf(h, b)| then PairsOf(h, b)[i] else ("", Null);
      match ExecList(body, SetName(BindTargets(lc, t1, t2, p), "loop", Ref(c)), Advance(h, c, i), out, cfg)
      case HFail(x, o) => HFail(x, o)
      case HOk(lc1, h1, o) => IterPooled(body, t1, t2, b, n, i + 1, c, lc1, h1, o, cfg)
  }

  function ExecList(ss: seq<Stmt>, sc: Scope, h: Heap, out: string, cfg: Config): (r: HeapR)
    requires sc.Scope?
    ensures r.HOk? ==> r.sc.Scope? && r.sc.parent == sc.parent
    decreases ss, 0
  {
    if ss == [] then HOk(sc, h, out)
    else
      match Exec(ss[0], sc, h, out, cfg)
      case HFail(x, o) => HFail(x, o)
      case HOk(sc1, h1, o) => ExecList(ss[1..], sc1, h1, o, cfg)
  }

  function ExecIf(cs: seq<Clause>, sc: Scope, h: Heap, out: string, cfg: Config): (r: HeapR)
    requires sc.Scope?
    ensures r.HOk? ==> r.sc.Scope? && r.sc.parent == sc.parent
    decreases cs, 0
  {
    if cs == [] then HOk(sc, h, out)
    else
      match cs[0]
      case Otherwise(body) => ExecList(body, sc, h, out, cfg)
      case When(c, body) =>
        match Eval(c, sc, false, cfg.lenient, h)
        case EFail(x) => HFail(x, out)
        case EOk(v, sc1) =>
          if Truthy(v) then ExecList(body, sc1, h, out, cfg) else ExecIf(cs[1..], sc1, h, out, cfg)
  }
}
