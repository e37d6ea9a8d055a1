/** Recycled loop memory is invisible: over a template whose cleared loops never let their loop value
    escape, the interpreter with one loop object per loop and pooled snapshots renders as with fresh
    loop values and fresh snapshots. */
module ReuseSim {
  import opened Values
  import opened Syntax
  import opened Scopes
  import opened Agreement
  import opened Safety
  import opened LoopOpt
  import opened Reuse
  import I = Interp

  // ----- what the analysis must guarantee -----

  // No live loop object inside.
  predicate Solid(v: Value) {
    match v
    case Arr(es) => forall i | 0 <= i < |es| :: Solid(es[i].1)
    case Loop(_, ps, parent) => Solid(parent) && forall i | 0 <= i < |ps| :: Solid(ps[i].1)
    case Ref(_) => false
    case _ => true
  }

  predicate SolidEntries(es: seq<(string, Value)>) { forall i | 0 <= i < |es| :: Solid(es[i].1) }

  // loop.parent...parent
  predicate LoopChain(e: Expr) {
    match e
    case Name(x) => x == "loop"
    case Attr(_, r, field, nullSafe) => field == "parent" && !nullSafe && LoopChain(r)
    case _ => false
  }

  // A read that yields a scalar or an element and retains no loop value.
  predicate FieldRead(e: Expr) {
    e.Attr? && !e.nullSafe && e.field in InlineFields() && LoopChain(e.recv)
  }

  // The loop the name loop may land on is not among the contained ones.
  predicate NearClear(st: AStack, kept: set<nat>) {
    NearestLoop(st).Some? ==> NearestLoop(st).value !in kept
  }

  // kept are the loops whose value must not leave them: any use of loop but a field read, and any
  // enumeration of the scope, happens out of reach of them.
  predicate ClearE(e: Expr, st: AStack, kept: set<nat>)
    decreases e, 1
  {
    match e
    case Lit(v) => Solid(v)
    case Name(x) => x == "loop" ==> NearClear(st, kept)
    case Context => NearClear(st, kept)
    case ListLit(items) => forall i | 0 <= i < |items| :: ClearE(items[i], st, kept)
    case MapLit(fields) => forall i | 0 <= i < |fields| :: ClearE(fields[i].v, st, kept)
    case Attr(_, r, _, _) => FieldRead(e) || ClearE(r, st, kept)
    case Not(a) => ClearE(a, st, kept)
    case Bin(_, l, r) => ClearE(l, st, kept) && ClearE(r, st, kept)
    case Logic(_, l, r) => ClearE(l, st, kept) && ClearE(r, st, kept)
    case Ternary(c, a, b) => ClearE(c, st, kept) && ClearE(a, st, kept) && ClearE(b, st, kept)
    case Coalesce(l, r) => ClearE(l, st, kept) && ClearE(r, st, kept)
    case Elvis(l, r) => ClearE(l, st, kept) && ClearE(r, st, kept)
    case Assign(_, a) => ClearE(a, st, kept)
  }

  predicate ClearS(s: Stmt, st: AStack, kept: set<nat>)
    decreases s, 1
  {
    match s
    case Text(_) => true
    case Print(e) => ClearE(e, st, kept)
    case Do(e) => ClearE(e, st, kept)
    case Set(_, e) => ClearE(e, st, kept)
    case Capture(_, body) => ClearL(body, st, kept)
    case Apply(body) => ClearL(body, st, kept)
    case If(clauses) => ClearC(clauses, st, kept)
    case With(m, only, body) => ClearE(m, st, kept) && ClearL(body, APush(if only then AOnly else AWith, st), kept)
    case For(id, t1, t2, iter, filter, body, els) =>
      && ClearE(iter, st, kept)
      && (filter.Some? ==> ClearE(filter.value, APush(AFilter(FilterBindsLoop(t1, t2, filter.value)), st), kept))
      && ClearL(els, st, kept) && ClearL(body, APush(ALoop(id), st), kept)
      && (id !in kept ==> NearClear(st, kept))
  }

  predicate ClearL(ss: seq<Stmt>, st: AStack, kept: set<nat>)
    decreases ss, 0
  {
    ss == [] || (ClearS(ss[0], st, kept) && ClearL(ss[1..], st, kept))
  }

  predicate ClearC(cl: seq<Clause>, st: AStack, kept: set<nat>)
    decreases cl, 0
  {
    cl == []
    || (match cl[0]
        case When(c, body) => ClearE(c, st, kept) && ClearL(body, st, kept) && ClearC(cl[1..], st, kept)
        case Otherwise(body) => ClearL(body, st, kept))
  }

  // ----- the two heaps -----

  // v, in heap h and through loop objects below n over buffers in on, is what the fresh interpreter
  // holds as w.
  ghost predicate Denotes(v: Value, w: Value, h: Heap, n: nat, on: set<nat>)
    decreases n, v
  {
    if Solid(v) then v == w
    else if v.Loop? then
      w.Loop? && v.index0 == w.index0 && v.pairs == w.pairs && SolidEntries(v.pairs)
          && Denotes(v.parent, w.parent, h, n, on)
    else
      && v.Ref? && v.cell < n && v.cell < |h.cells| && w.Loop?
      && h.cells[v.cell].buf in on && Snapshot(h, h.cells[v.cell].buf, w.pairs) && w.index0 == h.cells[v.cell].index
      && Denotes(h.cells[v.cell].parent, w.parent, h, v.cell, on)
  }

  // Buffer b holds these pairs.
  ghost predicate Snapshot(h: Heap, b: nat, ps: seq<(string, Value)>) {
    b < |h.bufs| && h.bufs[b] == ps && SolidEntries(ps)
  }

  ghost predicate HeapOK(h: Heap) {
    && (forall i :: 0 <= i < |h.free| ==> h.free[i] < |h.bufs|)
    && (forall i, j :: 0 <= i < j < |h.free| ==> h.free[i] != h.free[j])
  }

  // Loop objects stay as they are, and buffers in use keep their pairs.
  ghost predicate Keeps(h: Heap, k: Heap) {
    && |h.cells| <= |k.cells| && (forall c :: 0 <= c < |h.cells| ==> k.cells[c] == h.cells[c])
    && |h.bufs| <= |k.bufs|
    && (forall b: nat :: b < |h.bufs| && b !in h.free ==> b !in k.free && k.bufs[b] == h.bufs[b])
  }

  // These buffers exist and are out of the pool.
  ghost predicate InUse(on: set<nat>, h: Heap) { forall b :: b in on ==> b < |h.bufs| && b !in h.free }

  lemma KeepsTrans(a: Heap, b: Heap, c: Heap)
    requires Keeps(a, b) && Keeps(b, c)
    ensures Keeps(a, c)
  {
  }

  lemma {:induction false} DenotesKeeps(v: Value, w: Value, h: Heap, k: Heap, n: nat, m: nat, on: set<nat>)
    requires Denotes(v, w, h, n, on) && Keeps(h, k) && InUse(on, h) && n <= m
    ensures Denotes(v, w, k, m, on)
    decreases n, v
  {
    if !Solid(v) {
      if v.Loop? {
        DenotesKeeps(v.parent, w.parent, h, k, n, m, on);
      } else {
        DenotesKeeps(h.cells[v.cell].parent, w.parent, h, k, v.cell, v.cell, on);
      }
    }
  }

  lemma {:induction false} DenotesMore(v: Value, w: Value, h: Heap, n: nat, m: nat, on: set<nat>, more: set<nat>)
    requires Denotes(v, w, h, n, on) && n <= m && on <= more
    ensures Denotes(v, w, h, m, more)
    decreases n, v
  {
    if !Solid(v) {
      if v.Loop? {
        DenotesMore(v.parent, w.parent, h, n, m, on, more);
      } else {
        DenotesMore(h.cells[v.cell].parent, w.parent, h, v.cell, v.cell, on, more);
      }
    }
  }

  lemma AcquireFacts(h: Heap, ps: seq<(string, Value)>, cfg: Config)
    requires HeapOK(h) && SolidEntries(ps)
    ensures var a := Acquire(h, ps, cfg);
      && HeapOK(a.1) && Keeps(h, a.1) && Snapshot(a.1, a.0, ps) && a.0 !in a.1.free
      && (a.0 < |h.bufs| ==> a.0 in h.free) && a.1.cells == h.cells
  {
    var a, k := Acquire(h, ps, cfg), cfg.pick(h);
    if k < |h.free| && h.free[k] < |h.bufs| {
      var rest := h.free[..k] + h.free[k + 1..];
      assert forall i :: 0 <= i < |rest| ==> rest[i] == if i < k then h.free[i] else h.free[i + 1];
      assert a.0 !in rest;
    }
  }

  lemma ReleaseFacts(h: Heap, k: Heap, b: nat)
    requires HeapOK(k) && Keeps(h, k) && b < |k.bufs| && b !in k.free && (b < |h.bufs| ==> b in h.free)
    ensures HeapOK(Release(k, b)) && Keeps(h, Release(k, b))
  {
  }

  // ----- the two scopes -----

  ghost predicate EntryRel(a: Option<Value>, b: Option<Value>, live: bool, h: Heap, n: nat, on: set<nat>) {
    || (a.None? && b.None?)
    || (a.Some? && b.Some?
        && ((Solid(a.value) && a.value == b.value) || (live && Denotes(a.value, b.value, h, n, on))))
  }

  // Equal names, and equal solid values but for the loop value of a contained loop.
  ghost predicate FrameRel(a: seq<(string, Value)>, b: seq<(string, Value)>, live: bool, h: Heap, n: nat,
                           on: set<nat>) {
    Keys(a) == Keys(b) && forall x :: EntryRel(Lookup(a, x), Lookup(b, x), live && x == "loop", h, n, on)
  }

  ghost predicate Rel(a: Scope, b: Scope, st: AStack, kept: set<nat>, h: Heap, n: nat, on: set<nat>)
    decreases st
  {
    && a.Scope? && b.Scope?
    && match st
       case ARoot => FrameRel(a.entries, b.entries, false, h, n, on) && a.parent.NoScope? && b.parent.NoScope?
       case APush(f, below) =>
         && FrameRel(a.entries, b.entries, f.ALoop? && f.node in kept, h, n, on)
         && (f.ALoop? ==> Lookup(a.entries, "loop").Some?)
         && (if f.AOnly? then a.parent.NoScope? && b.parent.NoScope?
             else Rel(a.parent, b.parent, below, kept, h, n, on))
  }

  lemma FrameKeeps(a: seq<(string, Value)>, b: seq<(string, Value)>, live: bool, h: Heap, k: Heap, n: nat, m: nat,
                   on: set<nat>)
    requires FrameRel(a, b, live, h, n, on) && Keeps(h, k) && InUse(on, h) && n <= m
    ensures FrameRel(a, b, live, k, m, on)
  {
    forall x ensures EntryRel(Lookup(a, x), Lookup(b, x), live && x == "loop", k, m, on) {
      var v, w := Lookup(a, x), Lookup(b, x);
      assert EntryRel(v, w, live && x == "loop", h, n, on);
      if v.Some? && Denotes(v.value, w.value, h, n, on) { DenotesKeeps(v.value, w.value, h, k, n, m, on); }
    }
  }

  lemma {:induction false} RelKeeps(a: Scope, b: Scope, st: AStack, kept: set<nat>, h: Heap, k: Heap, n: nat, m: nat,
                                    on: set<nat>)
    requires Rel(a, b, st, kept, h, n, on) && Keeps(h, k) && InUse(on, h) && n <= m
    ensures Rel(a, b, st, kept, k, m, on)
    decreases st
  {
    FrameKeeps(a.entries, b.entries, st.APush? && st.f.ALoop? && st.f.node in kept, h, k, n, m, on);
    if st.APush? && !st.f.AOnly? { RelKeeps(a.parent, b.parent, st.below, kept, h, k, n, m, on); }
  }

  lemma {:induction false} RelMore(a: Scope, b: Scope, st: AStack, kept: set<nat>, h: Heap, n: nat, m: nat,
                                   on: set<nat>,
                                   more: set<nat>)
    requires Rel(a, b, st, kept, h, n, on) && n <= m && on <= more
    ensures Rel(a, b, st, kept, h, m, more)
    decreases st
  {
    var live := st.APush? && st.f.ALoop? && st.f.node in kept;
    forall x ensures EntryRel(Lookup(a.entries, x), Lookup(b.entries, x), live && x == "loop", h, m, more) {
      var v, w := Lookup(a.entries, x), Lookup(b.entries, x);
      assert EntryRel(v, w, live && x == "loop", h, n, on);
      if v.Some? && Denotes(v.value, w.value, h, n, on) { DenotesMore(v.value, w.value, h, n, m, on, more); }
    }
    if st.APush? && !st.f.AOnly? { RelMore(a.parent, b.parent, st.below, kept, h, n, m, on, more); }
  }

  lemma {:induction false} NamesSame(a: Scope, b: Scope, st: AStack, kept: set<nat>, h: Heap, n: nat, on: set<nat>)
    requires Rel(a, b, st, kept, h, n, on)
    ensures Names(a) == Names(b)
    decreases st
  {
    if st.APush? && !st.f.AOnly? { NamesSame(a.parent, b.parent, st.below, kept, h, n, on); }
  }

  // Every name but loop reads the same, and so does loop out of reach of the contained loops.
  lemma {:induction false} GetSame(a: Scope, b: Scope, st: AStack, kept: set<nat>, h: Heap, n: nat, on: set<nat>,
                                   x: string)
    requires Rel(a, b, st, kept, h, n, on) && (x == "loop" ==> NearClear(st, kept))
    ensures Get(a, x) == Get(b, x) && (Get(a, x).Some? ==> Solid(Get(a, x).value))
    decreases st
  {
    assert EntryRel(Lookup(a.entries, x), Lookup(b.entries, x), st.APush? && st.f.ALoop? && st.f.node in kept
                    && x == "loop", h, n, on);
    if Lookup(a.entries, x).None? && st.APush? && !st.f.AOnly? {
      GetSame(a.parent, b.parent, st.below, kept, h, n, on, x);
    }
  }

  lemma {:induction false} GetLoop(a: Scope, b: Scope, st: AStack, kept: set<nat>, h: Heap, n: nat, on: set<nat>)
    requires Rel(a, b, st, kept, h, n, on)
    ensures EntryRel(Get(a, "loop"), Get(b, "loop"), true, h, n, on)
    decreases st
  {
    assert EntryRel(Lookup(a.entries, "loop"), Lookup(b.entries, "loop"), st.APush? && st.f.ALoop?
                    && st.f.node in kept, h, n, on);
    if Lookup(a.entries, "loop").None? && st.APush? && !st.f.AOnly? {
      GetLoop(a.parent, b.parent, st.below, kept, h, n, on);
    }
  }

  lemma FrameSet(a: seq<(string, Value)>, b: seq<(string, Value)>, live: bool, h: Heap, n: nat, on: set<nat>,
                 x: string, v: Value, w: Value)
    requires FrameRel(a, b, live, h, n, on)
        && ((Solid(v) && v == w) || (live && x == "loop" && Denotes(v, w, h, n, on)))
    ensures FrameRel(Put(a, x, v), Put(b, x, w), live, h, n, on)
  {
    KeysPut(a, x, v);
    KeysPut(b, x, w);
    forall y ensures EntryRel(Lookup(Put(a, x, v), y), Lookup(Put(b, x, w), y), live && y == "loop", h, n, on) {
      LookupPut(a, x, v, y);
      LookupPut(b, x, w, y);
      assert EntryRel(Lookup(a, y), Lookup(b, y), live && y == "loop", h, n, on);
    }
  }

  lemma SetRel(a: Scope, b: Scope, st: AStack, kept: set<nat>, h: Heap, n: nat, on: set<nat>, x: string, v: Value)
    requires Rel(a, b, st, kept, h, n, on) && Solid(v)
    ensures Rel(SetName(a, x, v), SetName(b, x, v), st, kept, h, n, on)
  {
    FrameSet(a.entries, b.entries, st.APush? && st.f.ALoop? && st.f.node in kept, h, n, on, x, v, v);
    LookupPut(a.entries, x, v, "loop");
  }

  lemma {:induction false} SetAllRel(a: Scope, b: Scope, es: seq<(string, Value)>, st: AStack, kept: set<nat>, h: Heap,
                                     n: nat, on: set<nat>)
    requires Rel(a, b, st, kept, h, n, on) && SolidEntries(es)
    ensures Rel(SetAll(a, es), SetAll(b, es), st, kept, h, n, on)
  {
    if es != [] {
      SetAllRel(a, b, es[..|es| - 1], st, kept, h, n, on);
      SetRel(SetAll(a, es[..|es| - 1]), SetAll(b, es[..|es| - 1]), st, kept, h, n, on, es[|es| - 1].0, es[|es| - 1].1);
    }
  }

  lemma PushRel(a: Scope, b: Scope, f: AFrame, st: AStack, kept: set<nat>, h: Heap, n: nat, on: set<nat>)
    requires Rel(a, b, st, kept, h, n, on) && !f.ALoop?
    ensures var none := f.AOnly?;
      Rel(Child(if none then NoScope else a), Child(if none then NoScope else b), APush(f, st), kept, h, n, on)
  {
    assert FrameRel([], [], false, h, n, on);
  }

  // ----- expressions -----

  ghost predicate ValSim(r: I.EvalR, x: I.EvalR, st: AStack, kept: set<nat>, h: Heap, n: nat, on: set<nat>) {
    match x
    case EFail(e) => r == I.EFail(e)
    case EOk(w, sb) => r.EOk? && r.v == w && Solid(w) && Rel(r.sc, sb, st, kept, h, n, on)
  }

  lemma {:induction false} LookupSolid(es: seq<(string, Value)>, k: string)
    requires SolidEntries(es)
    ensures Lookup(es, k).Some? ==> Solid(Lookup(es, k).value)
  {
    if es != [] { LookupSolid(es[..|es| - 1], k); }
  }

  lemma {:induction false} PutSolid(es: seq<(string, Value)>, k: string, v: Value)
    requires SolidEntries(es) && Solid(v)
    ensures SolidEntries(Put(es, k, v)) && SolidEntries(Overwrite(es, k, v))
  {
    if es != [] { PutSolid(es[..|es| - 1], k, v); }
  }

  lemma DotSolid(v: Value, name: string, absent: bool, h: Heap)
    requires Solid(v)
    ensures DotNow(v, name, absent, h) == GetDot(v, name, absent)
    ensures GetDot(v, name, absent).Ok? ==> Solid(GetDot(v, name, absent).value)
  {
    if v.Arr? { LookupSolid(v.entries, name); }
  }

  // The value of a loop.parent chain: what it denotes is what the fresh interpreter holds.
  ghost predicate ChainSim(r: I.EvalR, x: I.EvalR, a: Scope, b: Scope, h: Heap, n: nat, on: set<nat>) {
    match x
    case EFail(e) => r == I.EFail(e)
    case EOk(w, sb) => r.EOk? && r.sc == a && sb == b && Denotes(r.v, w, h, n, on)
  }

  lemma {:induction false} SimChain(e: Expr, absent: bool, a: Scope, b: Scope, st: AStack, kept: set<nat>, h: Heap,
                                    n: nat, on: set<nat>,
                                    lenient: bool)
    requires LoopChain(e) && Rel(a, b, st, kept, h, n, on)
    ensures ChainSim(Eval(e, a, absent, lenient, h), I.Eval(e, b, absent, lenient), a, b, h, n, on)
    decreases e
  {
    match e {
      case Name(_) =>
        NamesSame(a, b, st, kept, h, n, on);
        GetLoop(a, b, st, kept, h, n, on);
      case Attr(_, r, _, _) =>
        SimChain(r, absent, a, b, st, kept, h, n, on, lenient);
        var x := I.Eval(r, b, absent, lenient);
        if x.EOk? { ParentNow(Eval(r, a, absent, lenient, h).v, x.v, absent, h, n, on); }
    }
  }

  ghost predicate ResSim(r: Result<Value>, x: Result<Value>, h: Heap, n: nat, on: set<nat>) {
    match x
    case Err(e) => r == Err(e)
    case Ok(w) => r.Ok? && Denotes(r.value, w, h, n, on)
  }

  lemma ParentNow(v: Value, w: Value, absent: bool, h: Heap, n: nat, on: set<nat>)
    requires Denotes(v, w, h, n, on)
    ensures ResSim(AttrNow(v, "parent", false, absent, h), I.AttrOf(w, "parent", false, absent), h, n, on)
  {
    if Solid(v) {
      DotSolid(v, "parent", absent, h);
    } else if v.Ref? {
      DenotesMore(h.cells[v.cell].parent, w.parent, h, v.cell, n, on, on);
    }
  }

  // A field read copies a scalar or an element out of the loop value.
  lemma FieldNow(v: Value, w: Value, field: string, absent: bool, h: Heap, n: nat, on: set<nat>)
    requires Denotes(v, w, h, n, on) && field in InlineFields()
    ensures AttrNow(v, field, false, absent, h) == I.AttrOf(w, field, false, absent)
    ensures I.AttrOf(w, field, false, absent).Ok? ==> Solid(I.AttrOf(w, field, false, absent).value)
  {
    if Solid(v) { DotSolid(v, field, absent, h); } else { LoopFields(w.index0, w.pairs, v, w, field, h, n, on); }
  }

  lemma LoopFields(i: nat, ps: seq<(string, Value)>, v: Value, w: Value, field: string, h: Heap, n: nat, on: set<nat>)
    requires Denotes(v, w, h, n, on) && !Solid(v) && field in InlineFields() && i == w.index0 && ps == w.pairs
    ensures LoopField(i, ps, w.parent, field).Some? && Solid(LoopField(i, ps, w.parent, field).value)
    ensures v.Loop? ==> LoopField(v.index0, v.pairs, v.parent, field) == LoopField(i, ps, w.parent, field)
    ensures v.Ref? ==>
      (v.cell < |h.cells|
       && LoopField(h.cells[v.cell].index, PairsOf(h, h.cells[v.cell].buf), h.cells[v.cell].parent, field)
          == LoopField(i, ps, w.parent, field))
  {
    assert SolidEntries(ps);
  }

  lemma {:induction false} ContextSim(names: seq<string>, a: Scope, b: Scope, st: AStack, kept: set<nat>, h: Heap,
                                      n: nat, on: set<nat>)
    requires Rel(a, b, st, kept, h, n, on) && NearClear(st, kept)
    ensures I.ContextEntries(names, a) == I.ContextEntries(names, b) && SolidEntries(I.ContextEntries(names, a))
  {
    if names != [] {
      var x := names[|names| - 1];
      ContextSim(names[..|names| - 1], a, b, st, kept, h, n, on);
      GetSame(a, b, st, kept, h, n, on, x);
      PutSolid(I.ContextEntries(names[..|names| - 1], a), x, Get(a, x).GetOr(Null));
    }
  }

  lemma {:induction false} SimE(e: Expr, absent: bool, a: Scope, b: Scope, st: AStack, kept: set<nat>, h: Heap, n: nat,
                                on: set<nat>,
                                lenient: bool)
    requires Rel(a, b, st, kept, h, n, on) && ClearE(e, st, kept)
    ensures ValSim(Eval(e, a, absent, lenient, h), I.Eval(e, b, absent, lenient), st, kept, h, n, on)
    decreases e, 1
  {
    match e {
      case Lit(_) =>
      case Name(x) => NamesSame(a, b, st, kept, h, n, on); GetSame(a, b, st, kept, h, n, on, x);
      case Context => NamesSame(a, b, st, kept, h, n, on); ContextSim(Names(a), a, b, st, kept, h, n, on);
      case ListLit(items) => SimItems(items, 0, [], a, b, st, kept, h, n, on, lenient);
      case MapLit(fields) => SimFields(fields, [], a, b, st, kept, h, n, on, lenient);
      case Attr(_, _, _, _) => SimAttr(e, absent, a, b, st, kept, h, n, on, lenient);
      case _ => SimE2(e, absent, a, b, st, kept, h, n, on, lenient);
    }
  }

  lemma {:induction false} SimE2(e: Expr, absent: bool, a: Scope, b: Scope, st: AStack, kept: set<nat>, h: Heap,
                                 n: nat, on: set<nat>,
                                 lenient: bool)
    requires !e.Lit? && !e.Name? && !e.Context? && !e.ListLit? && !e.MapLit? && !e.Attr?
    requires Rel(a, b, st, kept, h, n, on) && ClearE(e, st, kept)
    ensures ValSim(Eval(e, a, absent, lenient, h), I.Eval(e, b, absent, lenient), st, kept, h, n, on)
    decreases e, 0, 1, 1
  {
    match e {
      case Not(x) => SimE(x, false, a, b, st, kept, h, n, on, lenient);
      case Bin(_, _, _) => SimOperands(e, a, b, st, kept, h, n, on, lenient);
      case Logic(_, _, _) => SimOperands(e, a, b, st, kept, h, n, on, lenient);
      case Ternary(_, _, _) => SimChoice(e, a, b, st, kept, h, n, on, lenient);
      case Coalesce(_, _) => SimFallback(e, a, b, st, kept, h, n, on, lenient);
      case Elvis(_, _) => SimFallback(e, a, b, st, kept, h, n, on, lenient);
      case Assign(_, _) => SimAssign(e, a, b, st, kept, h, n, on, lenient);
    }
  }

  lemma {:induction false} SimOperands(e: Expr, a: Scope, b: Scope, st: AStack, kept: set<nat>, h: Heap, n: nat,
                                       on: set<nat>, lenient: bool)
    requires (e.Bin? || e.Logic?) && Rel(a, b, st, kept, h, n, on) && ClearE(e, st, kept)
    ensures ValSim(Eval(e, a, false, lenient, h), I.Eval(e, b, false, lenient), st, kept, h, n, on)
    decreases e, 0, 1, 0
  {
    SimTwo(e, e.l, e.r, false, a, b, st, kept, h, n, on, lenient);
  }

  lemma {:induction false} SimAssign(e: Expr, a: Scope, b: Scope, st: AStack, kept: set<nat>, h: Heap, n: nat,
                                     on: set<nat>, lenient: bool)
    requires e.Assign? && Rel(a, b, st, kept, h, n, on) && ClearE(e, st, kept)
    ensures ValSim(Eval(e, a, false, lenient, h), I.Eval(e, b, false, lenient), st, kept, h, n, on)
    decreases e, 0, 1, 0
  {
    SimE(e.e, false, a, b, st, kept, h, n, on, lenient);
    var y := I.Eval(e.e, b, false, lenient);
    if y.EOk? { SetRel(Eval(e.e, a, false, lenient, h).sc, y.sc, st, kept, h, n, on, e.x, y.v); }
  }

  lemma {:induction false} SimChoice(e: Expr, a: Scope, b: Scope, st: AStack, kept: set<nat>, h: Heap, n: nat,
                                     on: set<nat>, lenient: bool)
    requires e.Ternary? && Rel(a, b, st, kept, h, n, on) && ClearE(e, st, kept)
    ensures ValSim(Eval(e, a, false, lenient, h), I.Eval(e, b, false, lenient), st, kept, h, n, on)
    decreases e, 0, 1, 0
  {
    SimTwo(e, e.c, e.a, false, a, b, st, kept, h, n, on, lenient);
    SimTwo(e, e.c, e.b, false, a, b, st, kept, h, n, on, lenient);
  }

  lemma {:induction false} SimFallback(e: Expr, a: Scope, b: Scope, st: AStack, kept: set<nat>, h: Heap, n: nat,
                                       on: set<nat>, lenient: bool)
    requires (e.Coalesce? || e.Elvis?) && Rel(a, b, st, kept, h, n, on) && ClearE(e, st, kept)
    ensures ValSim(Eval(e, a, false, lenient, h), I.Eval(e, b, false, lenient), st, kept, h, n, on)
    decreases e, 0, 1, 0
  {
    SimTwo(e, e.l, e.r, true, a, b, st, kept, h, n, on, lenient);
  }

  // One operand, then another in the scope the first left.
  lemma {:induction false} SimTwo(e: Expr, l: Expr, r: Expr, absent: bool, a: Scope, b: Scope, st: AStack,
                                  kept: set<nat>, h: Heap,
                                  n: nat, on: set<nat>, lenient: bool)
    requires l < e && r < e
    requires Rel(a, b, st, kept, h, n, on) && ClearE(l, st, kept) && ClearE(r, st, kept)
    ensures var x, y := Eval(l, a, absent, lenient, h), I.Eval(l, b, absent, lenient);
      && ValSim(x, y, st, kept, h, n, on)
      && (y.EOk? ==> ValSim(Eval(r, x.sc, false, lenient, h), I.Eval(r, y.sc, false, lenient), st, kept, h, n, on))
    decreases e, 0, 0, 0
  {
    SimE(l, absent, a, b, st, kept, h, n, on, lenient);
    var x, y := Eval(l, a, absent, lenient, h), I.Eval(l, b, absent, lenient);
    if y.EOk? { SimE(r, false, x.sc, y.sc, st, kept, h, n, on, lenient); }
  }

  lemma {:induction false} SimAttr(e: Expr, absent: bool, a: Scope, b: Scope, st: AStack, kept: set<nat>, h: Heap,
                                   n: nat, on: set<nat>,
                                   lenient: bool)
    requires e.Attr? && Rel(a, b, st, kept, h, n, on) && ClearE(e, st, kept)
    ensures ValSim(Eval(e, a, absent, lenient, h), I.Eval(e, b, absent, lenient), st, kept, h, n, on)
    decreases e, 0
  {
    var x := I.Eval(e.recv, b, absent, lenient);
    if FieldRead(e) {
      SimChain(e.recv, absent, a, b, st, kept, h, n, on, lenient);
      if x.EOk? { FieldNow(Eval(e.recv, a, absent, lenient, h).v, x.v, e.field, absent, h, n, on); }
    } else {
      SimE(e.recv, absent, a, b, st, kept, h, n, on, lenient);
      if x.EOk? { DotSolid(x.v, e.field, absent, h); }
    }
  }

  lemma {:induction false} SimItems(items: seq<Expr>, k: nat, acc: seq<(string, Value)>, a: Scope, b: Scope, st: AStack,
                                    kept: set<nat>, h: Heap, n: nat, on: set<nat>, lenient: bool)
    requires Rel(a, b, st, kept, h, n, on) && SolidEntries(acc) && forall i | 0 <= i < |items| :: ClearE(items[i], st,
        kept)
    ensures ValSim(EvalItems(items, a, k, acc, lenient, h), I.EvalItems(items, b, k, acc, lenient), st, kept, h, n, on)
    decreases items, 0
  {
    if items != [] {
      SimE(items[0], false, a, b, st, kept, h, n, on, lenient);
      var x, y := Eval(items[0], a, false, lenient, h), I.Eval(items[0], b, false, lenient);
      if y.EOk? {
        PutSolid(acc, IntText(k), y.v);
        SimItems(items[1..], k + 1, Put(acc, IntText(k), y.v), x.sc, y.sc, st, kept, h, n, on, lenient);
      }
    }
  }

  lemma {:induction false} SimFields(fields: seq<Entry>, acc: seq<(string, Value)>, a: Scope, b: Scope, st: AStack,
                                     kept: set<nat>, h: Heap, n: nat, on: set<nat>, lenient: bool)
    requires Rel(a, b, st, kept, h, n, on) && SolidEntries(acc) && forall i | 0 <= i < |fields| :: ClearE(fields[i].v,
        st, kept)
    ensures ValSim(EvalFields(fields, a, acc, lenient, h), I.EvalFields(fields, b, acc, lenient), st, kept, h, n, on)
    decreases fields, 0
  {
    if fields != [] {
      SimE(fields[0].v, false, a, b, st, kept, h, n, on, lenient);
      var x, y := Eval(fields[0].v, a, false, lenient, h), I.Eval(fields[0].v, b, false, lenient);
      if y.EOk? {
        PutSolid(acc, fields[0].key, y.v);
        SimFields(fields[1..], Put(acc, fields[0].key, y.v), x.sc, y.sc, st, kept, h, n, on, lenient);
      }
    }
  }
}
