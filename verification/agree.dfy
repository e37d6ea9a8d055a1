/** The invariant relating an interpreter scope chain to the compile-time frames and the locals
    of the running code: at every frame of the chain, a name resolves to the same value on both
    sides and the visible names are the same, in the same order.  The interpreter may hold extra
    shadow copies in a frame; prefix-wise agreement is all either side can observe. */
module Agreement {
  import opened Values
  import opened Scopes
  import opened Target
  import opened Lowering

  type Vars = map<string, Value>

  // ----- what the compiled side sees -----

  // The value a frame's own binding of x holds; an inline loop's value lives in its counter.
  ghost function OwnVal(f: CFrame, s: State, x: string): Value {
    SlotVal(x, f.id, SlotOf(f), s)
  }

  ghost function Own(f: CFrame, s: State, vars: Vars, x: string): Option<Value> {
    if x in f.order && x in LocalsOf(s, f.id).flags then Some(OwnVal(f, s, x))
    else if f.kind == KWith || f.kind == KOnly then Lookup(WithEntries(GVal(f.withG, s, vars)), x)
    else if f.kind == KRoot && x in vars then Some(vars[x])
    else None
  }

  predicate Cut(f: CFrame) { f.kind == KRoot || f.kind == KOnly }

  ghost function CGet(fs: Frames, s: State, vars: Vars, x: string): Option<Value> {
    if fs.Bottom? then None
    else if Own(fs.f, s, vars, x).Some? then Own(fs.f, s, vars, x)
    else if Cut(fs.f) then None
    else CGet(fs.below, s, vars, x)
  }

  ghost function CNames(fs: Frames, s: State, vars: Vars): seq<string>
    decreases fs, 1
  {
    if fs.Bottom? then []
    else if HasOrd(fs.f) then AddNames(CBase(fs, s, vars), LocalsOf(s, fs.f.id).ord)
    else CBase(fs, s, vars)
  }

  // The names visible before the top frame's own binds.
  ghost function CBase(fs: Frames, s: State, vars: Vars): seq<string>
    requires fs.Frames?
    decreases fs, 0
  {
    var f := fs.f;
    if f.kind == KRoot then s.qNames
    else if f.kind == KOnly then AddNames([], Keys(WithEntries(GVal(f.withG, s, vars))))
    else if f.kind == KWith then AddNames(CNames(fs.below, s, vars), Keys(WithEntries(GVal(f.withG, s, vars))))
    else CNames(fs.below, s, vars)
  }

  // ----- well-formed frame stacks -----

  // The temporaries of a Go expression all lie below n.
  predicate Within(g: GExpr, n: nat) {
    match g
    case GConst(_) => true
    case GTmp(t) => t < n
    case GVar(_, _) => true
    case GNot(a) => Within(a, n)
    case GTruth(a) => Within(a, n)
    case GXor(a, b) => Within(a, n) && Within(b, n)
    case GKey(p, i) => p < n && i < n
    case GElem(p, i, _) => p < n && i < n
    case GNewLoop(i, p, par) => i < n && p < n && par < n
    case GField(i, p, _) => i < n && p < n
    case GWithAt(m, _) => Within(m, n)
    case GVarsAt(_) => true
  }

  ghost predicate FrameOK(f: CFrame, n: nat) {
    && Spilled(f.withG) && Within(f.withG, n)
    && (f.kind == KLoop <==> f.loop.LoopInfo?)
    && (f.kind == KLoop ==> "loop" in f.order && f.loop.iT < n && f.loop.pT < n && f.loop.parT < n)
  }

  ghost predicate StackOK(fs: Frames, n: nat, m: nat) {
    && fs.Frames? && 0 < fs.f.id <= m
    && FrameOK(fs.f, n)
    && (fs.f.kind == KRoot <==> fs.below.Bottom?)
    && (fs.below.Frames? ==> StackOK(fs.below, n, fs.f.id - 1))
  }

  // ----- the invariant -----

  // skip exempts names whose value in the top frame is in flux at the start of an iteration.
  ghost predicate TopReady(f: CFrame, s: State, skip: set<string>) {
    var flags := LocalsOf(s, f.id).flags;
    && f.definite <= flags
    && (f.kind == KRoot ==> flags <= f.ever)
    && (f.kind == KLoop ==> "loop" in f.order)
    && (f.kind == KLoop && "loop" !in skip ==>
          "loop" in flags && (!InlineFrame(f) ==> "loop" in f.definite))
    && (InlineFrame(f) ==> "loop" !in f.definite)
  }

  // A frame's order slice lists exactly its bound names.
  ghost predicate OrdReady(f: CFrame, s: State) {
    var l := LocalsOf(s, f.id);
    f.kind != KRoot ==> forall x :: (x in l.ord <==> x in l.flags) && (x in l.ord ==> x in f.order)
  }

  ghost predicate Agree(sc: Scope, fs: Frames, s: State, vars: Vars, skip: set<string>)
    decreases fs, 0
  {
    && fs.Frames? && sc.Scope?
    && (forall x :: Get(sc, x).Some? == CGet(fs, s, vars, x).Some?)
    && (forall x :: x !in skip ==> Get(sc, x) == CGet(fs, s, vars, x))
    && Names(sc) == CNames(fs, s, vars)
    && TopReady(fs.f, s, skip) && OrdReady(fs.f, s)
    && (InlineFrame(fs.f) ==>
          Tmp(s, fs.f.loop.parT) == CGet(fs.below, s, vars, "loop").GetOr(Null))
    && (if Cut(fs.f) then sc.parent.NoScope? else Tracks(sc.parent, fs.below, s, vars, {}))
  }

  // Agreement as one fact, for lemmas that only pass it on.
  ghost predicate Tracks(sc: Scope, fs: Frames, s: State, vars: Vars, skip: set<string>)
    decreases fs, 1
  {
    Agree(sc, fs, s, vars, skip)
  }

  // The flags and parent probes along the visible part of a stack.
  ghost predicate Ready(fs: Frames, s: State, vars: Vars) {
    && fs.Frames? && TopReady(fs.f, s, {})
    && (InlineFrame(fs.f) ==> Tmp(s, fs.f.loop.parT) == CGet(fs.below, s, vars, "loop").GetOr(Null))
    && (!Cut(fs.f) ==> Ready(fs.below, s, vars))
  }

  lemma {:induction false} AgreeReady(sc: Scope, fs: Frames, s: State, vars: Vars)
    requires Agree(sc, fs, s, vars, {})
    ensures Ready(fs, s, vars)
    decreases fs
  {
    if !Cut(fs.f) { AgreeReady(sc.parent, fs.below, s, vars); }
  }

  ghost predicate Inv(cs: CS, sc: Scope, s: State, vars: Vars) {
    && cs.frames.Frames? && sc.Scope?
    && StackOK(cs.frames, cs.tmpN, cs.frameN)
    && Tracks(sc, cs.frames, s, vars, {})
  }

  // Everything outside the top frame and the fresh temporaries is left alone.
  ghost predicate Keep(a: State, b: State, cs: CS)
    requires cs.frames.Frames?
  {
    && (forall t: nat | t < cs.tmpN :: Tmp(a, t) == Tmp(b, t))
    && (forall id: nat | id <= cs.frameN && id != cs.frames.f.id :: LocalsOf(a, id) == LocalsOf(b, id))
    && (cs.frames.f.kind != KRoot ==> a.qNames == b.qNames)
  }

  // Only temporaries from n on differ.
  ghost predicate TmpsOnly(a: State, b: State, n: nat) {
    && b == a.(tmps := b.tmps)
    && (forall t: nat | t < n :: Tmp(a, t) == Tmp(b, t))
  }

  // ----- stability -----

  lemma {:induction false} GValStable(g: GExpr, a: State, b: State, vars: Vars, n: nat)
    requires Within(g, n) && TmpsOnly(a, b, n)
    ensures GVal(g, a, vars) == GVal(g, b, vars)
  {
    match g {
      case GNot(x) => GValStable(x, a, b, vars, n);
      case GTruth(x) => GValStable(x, a, b, vars, n);
      case GXor(x, y) => GValStable(x, a, b, vars, n); GValStable(y, a, b, vars, n);
      case GWithAt(m, _) => GValStable(m, a, b, vars, n);
      case _ => LeafStable(g, a, b, vars, n);
    }
  }

  lemma LeafStable(g: GExpr, a: State, b: State, vars: Vars, n: nat)
    requires Within(g, n) && TmpsOnly(a, b, n) && !g.GNot? && !g.GTruth? && !g.GXor? && !g.GWithAt?
    ensures GVal(g, a, vars) == GVal(g, b, vars)
  {
  }

  ghost predicate SameUpTo(a: State, b: State, n: nat, m: nat) {
    && (forall t: nat | t < n :: Tmp(a, t) == Tmp(b, t))
    && (forall id: nat | id <= m :: LocalsOf(a, id) == LocalsOf(b, id))
    && a.qNames == b.qNames
  }

  lemma {:induction false} CGetStable(fs: Frames, a: State, b: State, vars: Vars, n: nat, m: nat, x: string)
    requires StackOK(fs, n, m) && SameUpTo(a, b, n, m)
    ensures CGet(fs, a, vars, x) == CGet(fs, b, vars, x)
  {
    assert Own(fs.f, a, vars, x) == Own(fs.f, b, vars, x);
    if fs.below.Frames? {
      CGetStable(fs.below, a, b, vars, n, fs.f.id - 1, x);
    }
  }

  lemma {:induction false} CNamesStable(fs: Frames, a: State, b: State, vars: Vars, n: nat, m: nat)
    requires StackOK(fs, n, m) && SameUpTo(a, b, n, m)
    ensures CNames(fs, a, vars) == CNames(fs, b, vars)
  {
    if fs.below.Frames? {
      CNamesStable(fs.below, a, b, vars, n, fs.f.id - 1);
    }
  }

  lemma {:induction false} AgreeStable(sc: Scope, fs: Frames, a: State, b: State, vars: Vars, skip: set<string>,
                                       n: nat, m: nat)
    requires StackOK(fs, n, m) && SameUpTo(a, b, n, m)
    requires Agree(sc, fs, a, vars, skip)
    ensures Agree(sc, fs, b, vars, skip)
  {
    forall x ensures CGet(fs, a, vars, x) == CGet(fs, b, vars, x) { CGetStable(fs, a, b, vars, n, m, x); }
    CNamesStable(fs, a, b, vars, n, m);
    if fs.below.Frames? {
      CGetStable(fs.below, a, b, vars, n, fs.f.id - 1, "loop");
    }
    if !Cut(fs.f) {
      AgreeStable(sc.parent, fs.below, a, b, vars, {}, n, fs.f.id - 1);
    }
  }

  lemma {:induction false} StackWiden(fs: Frames, n: nat, m: nat, n': nat, m': nat)
    requires StackOK(fs, n, m) && n <= n' && m <= m'
    ensures StackOK(fs, n', m')
  {
    if fs.below.Frames? {
      StackWiden(fs.below, n, fs.f.id - 1, n', fs.f.id - 1);
    }
  }

  // The frame stack stays well formed as lowering proceeds.
  lemma StackEvolves(a: CS, b: CS)
    requires Evolves(a, b) && StackOK(a.frames, a.tmpN, a.frameN)
    ensures StackOK(b.frames, b.tmpN, b.frameN)
  {
    if a.frames.below.Frames? {
      StackWiden(a.frames.below, a.tmpN, a.frames.f.id - 1, b.tmpN, a.frames.f.id - 1);
    }
  }

  // Rereading the frames with more bind sites lowered but the same definite names.
  lemma InvLater(a: CS, b: CS, sc: Scope, s: State, vars: Vars)
    requires Inv(a, sc, s, vars) && Evolves(a, b)
    requires Top(a).definite == Top(b).definite
    ensures Inv(b, sc, s, vars)
  {
    StackEvolves(a, b);
    SameFrames(a.frames, b.frames, s, vars);
    assert Agree(sc, a.frames, s, vars, {}) && Agree(sc, b.frames, s, vars, {});
  }

  // Frames that differ only in the top frame's determination see the same names and values.
  lemma SameFrames(a: Frames, b: Frames, s: State, vars: Vars)
    requires a.Frames? && b.Frames? && a.below == b.below
    requires b.f == a.f.(definite := b.f.definite, ever := b.f.ever)
    ensures forall x :: CGet(a, s, vars, x) == CGet(b, s, vars, x)
    ensures CNames(a, s, vars) == CNames(b, s, vars)
  {
    forall x ensures CGet(a, s, vars, x) == CGet(b, s, vars, x) {
      assert Own(a.f, s, vars, x) == Own(b.f, s, vars, x);
    }
  }

  // Writing temporaries past the lowering's counter keeps the invariant.
  lemma InvTmps(cs: CS, cs': CS, sc: Scope, a: State, b: State, vars: Vars)
    requires Inv(cs, sc, a, vars) && TmpsOnly(a, b, cs.tmpN)
    requires cs'.frames == cs.frames && cs.tmpN <= cs'.tmpN && cs.frameN <= cs'.frameN
    ensures Inv(cs', sc, b, vars)
  {
    StackWiden(cs.frames, cs.tmpN, cs.frameN, cs'.tmpN, cs'.frameN);
    assert SameUpTo(a, b, cs.tmpN, cs.frameN);
    AgreeStable(sc, cs.frames, a, b, vars, {}, cs.tmpN, cs.frameN);
  }

  lemma TmpsPut(s: State, t: nat, v: Value, n: nat)
    requires n <= t
    ensures TmpsOnly(s, PutTmp(s, t, v), n)
    ensures Tmp(PutTmp(s, t, v), t) == v
  {
  }

  // Names and lookups: a name is visible exactly when it is listed.
  lemma {:induction false} AddNamesHas(names: seq<string>, more: seq<string>, x: string)
    ensures x in AddNames(names, more) <==> x in names || x in more
  {
    if more != [] {
      AddNamesHas(names, more[..|more| - 1], x);
      assert more == more[..|more| - 1] + [more[|more| - 1]];
    }
  }

  lemma AddNamesSnoc(names: seq<string>, more: seq<string>, x: string)
    ensures AddNames(names, more + [x]) == AddName(AddNames(names, more), x)
  {
    assert (more + [x])[..|more|] == more;
  }

  lemma {:induction false} LookupKeys(es: seq<(string, Value)>, x: string)
    ensures Lookup(es, x).Some? <==> x in Keys(es)
  {
    if es != [] {
      var init := es[..|es| - 1];
      LookupKeys(init, x);
      assert Keys(es) == Keys(init) + [es[|es| - 1].0];
    }
  }

  lemma {:induction false} NamesGet(sc: Scope, x: string)
    ensures x in Names(sc) <==> Get(sc, x).Some?
  {
    if sc.Scope? {
      NamesGet(sc.parent, x);
      LookupKeys(sc.entries, x);
      AddNamesHas(Names(sc.parent), Keys(sc.entries), x);
    }
  }

  // ----- writes to one frame -----

  lemma {:induction false} OverwriteKeys(es: seq<(string, Value)>, k: string, v: Value)
    ensures Keys(Overwrite(es, k, v)) == Keys(es)
  {
    if es != [] {
      var init, last := es[..|es| - 1], es[|es| - 1];
      OverwriteKeys(init, k, v);
      var r := Overwrite(es, k, v);
      assert Keys(r) == Keys(r[..|r| - 1]) + [r[|r| - 1].0] && Keys(es) == Keys(init) + [last.0];
    }
  }

  lemma {:induction false} OverwriteLookup(es: seq<(string, Value)>, k: string, v: Value, x: string)
    ensures Lookup(Overwrite(es, k, v), x) == if x == k && Lookup(es, k).Some? then Some(v) else Lookup(es, x)
  {
    if es != [] {
      var init, last := es[..|es| - 1], es[|es| - 1];
      OverwriteLookup(init, k, v, x);
      var r := Overwrite(es, k, v);
      assert r == (if last.0 == k then init else Overwrite(init, k, v)) + [r[|r| - 1]];
    }
  }

  lemma LookupPut(es: seq<(string, Value)>, k: string, v: Value, x: string)
    ensures Lookup(Put(es, k, v), x) == if x == k then Some(v) else Lookup(es, x)
  {
    OverwriteLookup(es, k, v, x);
    assert (es + [(k, v)])[..|es|] == es;
  }

  lemma KeysPut(es: seq<(string, Value)>, k: string, v: Value)
    ensures Keys(Put(es, k, v)) == AddName(Keys(es), k)
  {
    OverwriteKeys(es, k, v);
    LookupKeys(es, k);
    assert Keys(es + [(k, v)]) == Keys(es) + [k];
  }

  lemma AddNamesPut(names: seq<string>, es: seq<(string, Value)>, k: string, v: Value)
    ensures AddNames(names, Keys(Put(es, k, v))) == AddName(AddNames(names, Keys(es)), k)
  {
    KeysPut(es, k, v);
    AddNamesHas(names, Keys(es), k);
    if k !in Keys(es) {
      assert (Keys(es) + [k])[..|Keys(es)|] == Keys(es);
    }
  }

  // A write to the top frame: the written name is visible, every other name is as before.
  lemma SetNameAt(sc: Scope, x: string, v: Value, y: string)
    requires sc.Scope?
    ensures Get(SetName(sc, x, v), y) == if y == x then Some(v) else Get(sc, y)
  {
    LookupPut(sc.entries, x, v, y);
  }

  lemma SetNameNames(sc: Scope, x: string, v: Value)
    requires sc.Scope?
    ensures Names(SetName(sc, x, v)) == AddName(Names(sc), x)
  {
    AddNamesPut(Names(sc.parent), sc.entries, x, v);
  }

  lemma SetNameFacts(sc: Scope, x: string, v: Value)
    requires sc.Scope?
    ensures forall y :: Get(SetName(sc, x, v), y) == if y == x then Some(v) else Get(sc, y)
    ensures Names(SetName(sc, x, v)) == AddName(Names(sc), x)
  {
    forall y ensures Get(SetName(sc, x, v), y) == if y == x then Some(v) else Get(sc, y) { SetNameAt(sc, x, v, y); }
    SetNameNames(sc, x, v);
  }
}
