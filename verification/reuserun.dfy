/** Statements and loops over recycled memory, and the theorem for whole modules. */
module ReuseRun {
  import opened Values
  import opened Syntax
  import opened Scopes
  import opened Agreement
  import opened Safety
  import opened LoopOpt
  import opened Reuse
  import opened ReuseSim
  import I = Interp

  // A run over recycled memory ends as the fresh run does: the same error after the same output, or
  // the same output, with the loop objects and buffers in use as they were.
  ghost predicate RunSim(r: HeapR, x: I.ExecR, st: AStack, kept: set<nat>, h: Heap, on: set<nat>) {
    match x
    case XFail(e, o) => r == HFail(e, o)
    case XOk(sb, o) =>
      r.HOk? && r.out == o && HeapOK(r.h) && Keeps(h, r.h) && Rel(r.sc, sb, st, kept, r.h, |r.h.cells|, on)
  }

  ghost predicate Ready(a: Scope, b: Scope, st: AStack, kept: set<nat>, h: Heap, on: set<nat>) {
    HeapOK(h) && InUse(on, h) && Rel(a, b, st, kept, h, |h.cells|, on)
  }

  lemma KeepsSelf(h: Heap)
    ensures Keeps(h, h)
  {
  }

  lemma ReadyLater(a: Scope, b: Scope, st: AStack, kept: set<nat>, h: Heap, k: Heap, on: set<nat>)
    requires Ready(a, b, st, kept, h, on) && HeapOK(k) && Keeps(h, k)
    ensures Ready(a, b, st, kept, k, on)
  {
    RelKeeps(a, b, st, kept, h, k, |h.cells|, |k.cells|, on);
  }

  // A run, then what follows it.
  lemma RunThen(r: HeapR, x: I.ExecR, r2: HeapR, x2: I.ExecR, st: AStack, kept: set<nat>, h: Heap, on: set<nat>)
    requires x.XOk? && RunSim(r, x, st, kept, h, on) && RunSim(r2, x2, st, kept, r.h, on)
    ensures RunSim(r2, x2, st, kept, h, on)
  {
    if x2.XOk? { KeepsTrans(h, r.h, r2.h); }
  }

  lemma {:induction false} SimList(ss: seq<Stmt>, a: Scope, b: Scope, st: AStack, kept: set<nat>, h: Heap, out: string,
                                   cfg: Config, on: set<nat>)
    requires Ready(a, b, st, kept, h, on) && ClearL(ss, st, kept) && cfg.safe <= kept
    ensures RunSim(ExecList(ss, a, h, out, cfg), I.ExecList(ss, b, out, cfg.lenient), st, kept, h, on)
    decreases ss, 0
  {
    if ss != [] {
      SimS(ss[0], a, b, st, kept, h, out, cfg, on);
      var r, x := Exec(ss[0], a, h, out, cfg), I.Exec(ss[0], b, out, cfg.lenient);
      if x.XOk? {
        SimList(ss[1..], r.sc, x.sc, st, kept, r.h, x.out, cfg, on);
        RunThen(r, x, ExecList(ss[1..], r.sc, r.h, x.out, cfg), I.ExecList(ss[1..], x.sc, x.out, cfg.lenient), st,
                kept, h, on);
      }
    } else {
      KeepsSelf(h);
    }
  }

  lemma {:induction false} SimIf(cs: seq<Clause>, a: Scope, b: Scope, st: AStack, kept: set<nat>, h: Heap, out: string,
                                 cfg: Config, on: set<nat>)
    requires Ready(a, b, st, kept, h, on) && ClearC(cs, st, kept) && cfg.safe <= kept
    ensures RunSim(ExecIf(cs, a, h, out, cfg), I.ExecIf(cs, b, out, cfg.lenient), st, kept, h, on)
    decreases cs, 0
  {
    if cs == [] {
      KeepsSelf(h);
    } else {
      match cs[0] {
        case Otherwise(body) => SimList(body, a, b, st, kept, h, out, cfg, on);
        case When(c, body) =>
          SimE(c, false, a, b, st, kept, h, |h.cells|, on, cfg.lenient);
          var x := I.Eval(c, b, false, cfg.lenient);
          if x.EOk? {
            var sc := Eval(c, a, false, cfg.lenient, h).sc;
            if Truthy(x.v) { SimList(body, sc, x.sc, st, kept, h, out, cfg, on); }
            else { SimIf(cs[1..], sc, x.sc, st, kept, h, out, cfg, on); }
          }
      }
    }
  }

  lemma {:induction false} SimS(s: Stmt, a: Scope, b: Scope, st: AStack, kept: set<nat>, h: Heap, out: string,
                                cfg: Config,
                                on: set<nat>)
    requires Ready(a, b, st, kept, h, on) && ClearS(s, st, kept) && cfg.safe <= kept
    ensures RunSim(Exec(s, a, h, out, cfg), I.Exec(s, b, out, cfg.lenient), st, kept, h, on)
    decreases s, 1
  {
    KeepsSelf(h);
    match s {
      case Text(_) =>
      case Print(e) => SimE(e, false, a, b, st, kept, h, |h.cells|, on, cfg.lenient);
      case Do(e) => SimE(e, false, a, b, st, kept, h, |h.cells|, on, cfg.lenient);
      case Set(_, _) => SimSet(s, a, b, st, kept, h, out, cfg, on);
      case Capture(_, _) => SimCaptured(s, a, b, st, kept, h, out, cfg, on);
      case Apply(_) => SimCaptured(s, a, b, st, kept, h, out, cfg, on);
      case If(clauses) => SimIf(clauses, a, b, st, kept, h, out, cfg, on);
      case With(_, _, _) => SimWith(s, a, b, st, kept, h, out, cfg, on);
      case For(_, _, _, iter, _, _, _) =>
        SimE(iter, false, a, b, st, kept, h, |h.cells|, on, cfg.lenient);
        var x := I.Eval(iter, b, false, cfg.lenient);
        if x.EOk? { SimFor(s, x.v, Eval(iter, a, false, cfg.lenient, h).sc, x.sc, st, kept, h, out, cfg, on); }
    }
  }

  lemma SimSet(s: Stmt, a: Scope, b: Scope, st: AStack, kept: set<nat>, h: Heap, out: string, cfg: Config, on: set<nat>)
    requires s.Set? && Ready(a, b, st, kept, h, on) && ClearS(s, st, kept)
    ensures RunSim(Exec(s, a, h, out, cfg), I.Exec(s, b, out, cfg.lenient), st, kept, h, on)
  {
    KeepsSelf(h);
    SimE(s.e, false, a, b, st, kept, h, |h.cells|, on, cfg.lenient);
    var x := I.Eval(s.e, b, false, cfg.lenient);
    if x.EOk? { SetRel(Eval(s.e, a, false, cfg.lenient, h).sc, x.sc, st, kept, h, |h.cells|, on, s.x, x.v); }
  }

  lemma {:induction false} SimCaptured(s: Stmt, a: Scope, b: Scope, st: AStack, kept: set<nat>, h: Heap, out: string,
                                       cfg: Config, on: set<nat>)
    requires (s.Capture? || s.Apply?) && Ready(a, b, st, kept, h, on) && ClearS(s, st, kept) && cfg.safe <= kept
    ensures RunSim(Exec(s, a, h, out, cfg), I.Exec(s, b, out, cfg.lenient), st, kept, h, on)
    decreases s, 0
  {
    SimList(s.body, a, b, st, kept, h, "", cfg, on);
    var r, x := ExecList(s.body, a, h, "", cfg), I.ExecList(s.body, b, "", cfg.lenient);
    if x.XOk? && s.Capture? { SetRel(r.sc, x.sc, st, kept, r.h, |r.h.cells|, on, s.x, Str(x.out)); }
  }

  lemma {:induction false} SimWith(s: Stmt, a: Scope, b: Scope, st: AStack, kept: set<nat>, h: Heap, out: string,
                                   cfg: Config,
                                   on: set<nat>)
    requires s.With? && Ready(a, b, st, kept, h, on) && ClearS(s, st, kept) && cfg.safe <= kept
    ensures RunSim(Exec(s, a, h, out, cfg), I.Exec(s, b, out, cfg.lenient), st, kept, h, on)
    decreases s, 0
  {
    SimE(s.m, false, a, b, st, kept, h, |h.cells|, on, cfg.lenient);
    var e, x := Eval(s.m, a, false, cfg.lenient, h), I.Eval(s.m, b, false, cfg.lenient);
    if x.EOk? {
      var f := if s.only then AOnly else AWith;
      PushRel(e.sc, x.sc, f, st, kept, h, |h.cells|, on);
      var ca, cb := Child(if s.only then NoScope else e.sc), Child(if s.only then NoScope else x.sc);
      SetAllRel(ca, cb, WithEntries(x.v), APush(f, st), kept, h, |h.cells|, on);
      SimList(s.body, SetAll(ca, WithEntries(x.v)), SetAll(cb, WithEntries(x.v)), APush(f, st), kept, h, out, cfg, on);
      var r := ExecList(s.body, SetAll(ca, WithEntries(x.v)), h, out, cfg);
      if r.HOk? && I.ExecList(s.body, SetAll(cb, WithEntries(x.v)), out, cfg.lenient).XOk? {
        ReadyLater(e.sc, x.sc, st, kept, h, r.h, on);
      }
    }
  }

  // ----- loop frames -----

  // A loop frame but for its loop value.
  ghost predicate LoopRel(a: Scope, b: Scope, st: AStack, kept: set<nat>, h: Heap, n: nat, on: set<nat>) {
    && a.Scope? && b.Scope? && Keys(a.entries) == Keys(b.entries)
    && (forall x :: x != "loop" ==> EntryRel(Lookup(a.entries, x), Lookup(b.entries, x), false, h, n, on))
    && Rel(a.parent, b.parent, st, kept, h, n, on)
  }

  lemma LoopSet(a: Scope, b: Scope, st: AStack, kept: set<nat>, h: Heap, n: nat, on: set<nat>, x: string, v: Value)
    requires LoopRel(a, b, st, kept, h, n, on) && Solid(v)
    ensures LoopRel(SetName(a, x, v), SetName(b, x, v), st, kept, h, n, on)
  {
    KeysPut(a.entries, x, v);
    KeysPut(b.entries, x, v);
    forall y | y != "loop"
      ensures EntryRel(Lookup(Put(a.entries, x, v), y), Lookup(Put(b.entries, x, v), y), false, h, n, on)
    {
      LookupPut(a.entries, x, v, y);
      LookupPut(b.entries, x, v, y);
    }
  }

  lemma TargetsRel(a: Scope, b: Scope, t1: string, t2: Option<string>, p: (string, Value), st: AStack, kept: set<nat>,
                   h: Heap, n: nat, on: set<nat>)
    requires LoopRel(a, b, st, kept, h, n, on) && Solid(p.1)
    ensures LoopRel(I.BindTargets(a, t1, t2, p), I.BindTargets(b, t1, t2, p), st, kept, h, n, on)
  {
    if t2.Some? {
      LoopSet(a, b, st, kept, h, n, on, t1, KeyValue(p.0));
      LoopSet(SetName(a, t1, KeyValue(p.0)), SetName(b, t1, KeyValue(p.0)), st, kept, h, n, on, t2.value, p.1);
    } else {
      LoopSet(a, b, st, kept, h, n, on, t1, p.1);
    }
  }

  // Binding loop completes the frame.
  lemma LoopBound(a: Scope, b: Scope, id: nat, v: Value, w: Value, st: AStack, kept: set<nat>, h: Heap, n: nat,
                  on: set<nat>)
    requires LoopRel(a, b, st, kept, h, n, on) && Denotes(v, w, h, n, on) && (id !in kept ==> Solid(v))
    ensures Rel(SetName(a, "loop", v), SetName(b, "loop", w), APush(ALoop(id), st), kept, h, n, on)
  {
    KeysPut(a.entries, "loop", v);
    KeysPut(b.entries, "loop", w);
    forall y ensures EntryRel(Lookup(Put(a.entries, "loop", v), y), Lookup(Put(b.entries, "loop", w), y),
                              id in kept && y == "loop", h, n, on) {
      LookupPut(a.entries, "loop", v, y);
      LookupPut(b.entries, "loop", w, y);
    }
    LookupPut(a.entries, "loop", v, "loop");
  }

  // A frame after a body: everything but loop is as the fresh interpreter has it.
  lemma LoopAfter(a: Scope, b: Scope, id: nat, st: AStack, kept: set<nat>, h: Heap, n: nat, on: set<nat>,
                  k: Heap, m: nat, off: set<nat>)
    requires Rel(a, b, APush(ALoop(id), st), kept, h, n, on) && Rel(a.parent, b.parent, st, kept, k, m, off)
    ensures LoopRel(a, b, st, kept, k, m, off)
  {
    forall x | x != "loop" ensures EntryRel(Lookup(a.entries, x), Lookup(b.entries, x), false, k, m, off) {
      assert EntryRel(Lookup(a.entries, x), Lookup(b.entries, x), id in kept && x == "loop", h, n, on);
    }
  }

  lemma {:induction false} CopyBackRel(names: seq<string>, bound: set<string>, la: Scope, lb: Scope, a: Scope, b: Scope,
                                       st: AStack, kept: set<nat>, h: Heap, n: nat, on: set<nat>)
    requires Rel(a, b, st, kept, h, n, on) && "loop" in bound && LoopRel(la, lb, st, kept, h, n, on)
    ensures Rel(I.CopyBack(names, bound, la.entries, a), I.CopyBack(names, bound, lb.entries, b), st, kept, h, n, on)
  {
    if names != [] {
      var x, init := names[|names| - 1], names[..|names| - 1];
      CopyBackRel(init, bound, la, lb, a, b, st, kept, h, n, on);
      var da, db := I.CopyBack(init, bound, la.entries, a), I.CopyBack(init, bound, lb.entries, b);
      if x !in bound {
        GetSame(da, db, st, kept, h, n, on, x);
        assert EntryRel(Lookup(la.entries, x), Lookup(lb.entries, x), false, h, n, on);
        var v := Get(Scope(la.entries, da), x);
        assert v == Get(Scope(lb.entries, db), x) && (v.Some? ==> Solid(v.value));
        if v.Some? { SetRel(da, db, st, kept, h, n, on, x, v.value); }
      }
    }
  }

  lemma ParentRel(a: Scope, b: Scope, st: AStack, kept: set<nat>, h: Heap, n: nat, on: set<nat>)
    requires Rel(a, b, st, kept, h, n, on)
    ensures Denotes(Get(a, "loop").GetOr(Null), Get(b, "loop").GetOr(Null), h, n, on)
    ensures NearClear(st, kept) ==> Solid(Get(a, "loop").GetOr(Null))
  {
    GetLoop(a, b, st, kept, h, n, on);
    if NearClear(st, kept) { GetSame(a, b, st, kept, h, n, on, "loop"); }
  }

  // ----- loops with values of their own -----

  lemma {:induction false} SimIterFresh(s: Stmt, ps: seq<(string, Value)>, i: nat, v: Value, w: Value, a: Scope,
                                        b: Scope,
                                        st: AStack, kept: set<nat>, h: Heap, out: string, cfg: Config, on: set<nat>)
    requires s.For? && i <= |ps| && SolidEntries(ps) && ClearL(s.body, APush(ALoop(s.id), st), kept) && cfg.safe <= kept
    requires HeapOK(h) && InUse(on, h) && LoopRel(a, b, st, kept, h, |h.cells|, on)
    requires Denotes(v, w, h, |h.cells|, on) && (s.id !in kept ==> Solid(v))
    ensures LoopSim(IterFresh(s.body, s.t1, s.t2, ps, i, v, a, h, out, cfg),
                    I.ExecIter(s.body, s.t1, s.t2, ps, i, w, b, out, cfg.lenient), st, kept, h, on)
    decreases s, 0, 1, |ps| - i
  {
    if i == |ps| {
      KeepsSelf(h);
    } else {
      var n := |h.cells|;
      TargetsRel(a, b, s.t1, s.t2, ps[i], st, kept, h, n, on);
      var ta, tb := I.BindTargets(a, s.t1, s.t2, ps[i]), I.BindTargets(b, s.t1, s.t2, ps[i]);
      LoopBound(ta, tb, s.id, Loop(i, ps, v), Loop(i, ps, w), st, kept, h, n, on);
      var sa, sb := SetName(ta, "loop", Loop(i, ps, v)), SetName(tb, "loop", Loop(i, ps, w));
      SimList(s.body, sa, sb, APush(ALoop(s.id), st), kept, h, out, cfg, on);
      var r, x := ExecList(s.body, sa, h, out, cfg), I.ExecList(s.body, sb, out, cfg.lenient);
      if x.XOk? {
        FreshLater(r.sc, x.sc, s.id, v, w, st, kept, h, r.h, on);
        SimIterFresh(s, ps, i + 1, v, w, r.sc, x.sc, st, kept, r.h, x.out, cfg, on);
        LoopThen(IterFresh(s.body, s.t1, s.t2, ps, i + 1, v, r.sc, r.h, x.out, cfg),
                 I.ExecIter(s.body, s.t1, s.t2, ps, i + 1, w, x.sc, x.out, cfg.lenient), st, kept, h, r.h, on);
      }
    }
  }

  // A loop left its frame related but for loop.
  ghost predicate LoopSim(r: HeapR, x: I.ExecR, st: AStack, kept: set<nat>, h: Heap, on: set<nat>) {
    match x
    case XFail(e, o) => r == HFail(e, o)
    case XOk(lb, o) =>
      r.HOk? && r.out == o && HeapOK(r.h) && Keeps(h, r.h) && LoopRel(r.sc, lb, st, kept, r.h, |r.h.cells|, on)
  }

  lemma LoopThen(r: HeapR, x: I.ExecR, st: AStack, kept: set<nat>, h: Heap, k: Heap, on: set<nat>)
    requires Keeps(h, k) && LoopSim(r, x, st, kept, k, on)
    ensures LoopSim(r, x, st, kept, h, on)
  {
    if x.XOk? { KeepsTrans(h, k, r.h); }
  }

  lemma FreshLater(a: Scope, b: Scope, id: nat, v: Value, w: Value, st: AStack, kept: set<nat>, h: Heap, k: Heap,
                   on: set<nat>)
    requires Rel(a, b, APush(ALoop(id), st), kept, k, |k.cells|, on) && Keeps(h, k) && InUse(on, h)
    requires Denotes(v, w, h, |h.cells|, on)
    ensures LoopRel(a, b, st, kept, k, |k.cells|, on) && Denotes(v, w, k, |k.cells|, on) && InUse(on, k)
  {
    LoopAfter(a, b, id, st, kept, k, |k.cells|, on, k, |k.cells|, on);
    DenotesKeeps(v, w, h, k, |h.cells|, |k.cells|, on);
  }

  // The copy-back after a loop.
  lemma LoopLeft(s: Stmt, r: HeapR, x: I.ExecR, a: Scope, b: Scope, st: AStack, kept: set<nat>, h: Heap, on: set<nat>)
    requires s.For? && Ready(a, b, st, kept, h, on) && LoopSim(r, x, st, kept, h, on) && x.XOk? && x.sc.Scope?
    ensures Rel(I.CopyBack(Names(a), LoopControls(s.t1, s.t2), r.sc.entries, a),
                I.CopyBack(Names(b), LoopControls(s.t1, s.t2), x.sc.entries, b), st, kept, r.h, |r.h.cells|, on)
  {
    ReadyLater(a, b, st, kept, h, r.h, on);
    NamesSame(a, b, st, kept, r.h, |r.h.cells|, on);
    CopyBackRel(Names(a), LoopControls(s.t1, s.t2), r.sc, x.sc, a, b, st, kept, r.h, |r.h.cells|, on);
  }

  lemma LoopStart(a: Scope, b: Scope, st: AStack, kept: set<nat>, h: Heap, n: nat, on: set<nat>)
    requires Rel(a, b, st, kept, h, n, on)
    ensures LoopRel(Child(a), Child(b), st, kept, h, n, on)
  {
  }

  lemma {:induction false} SimFresh(s: Stmt, ps: seq<(string, Value)>, a: Scope, b: Scope, st: AStack, kept: set<nat>,
                                    h: Heap,
                                    out: string, cfg: Config, on: set<nat>)
    requires s.For? && Ready(a, b, st, kept, h, on) && ClearS(s, st, kept) && cfg.safe <= kept && SolidEntries(ps)
    ensures RunSim(ExecFresh(s, ps, a, h, out, cfg), I.ExecArms(s, ps, b, out, cfg.lenient), st, kept, h, on)
    decreases s, 0, 2
  {
    if ps == [] {
      SimList(s.els, a, b, st, kept, h, out, cfg, on);
    } else {
      var v, w := Get(a, "loop").GetOr(Null), Get(b, "loop").GetOr(Null);
      ParentRel(a, b, st, kept, h, |h.cells|, on);
      LoopStart(a, b, st, kept, h, |h.cells|, on);
      SimIterFresh(s, ps, 0, v, w, Child(a), Child(b), st, kept, h, out, cfg, on);
      var r, x := IterFresh(s.body, s.t1, s.t2, ps, 0, v, Child(a), h, out, cfg),
                  I.ExecIter(s.body, s.t1, s.t2, ps, 0, w, Child(b), out, cfg.lenient);
      if x.XOk? { LoopLeft(s, r, x, a, b, st, kept, h, on); }
    }
  }

  // ----- loops over recycled memory -----

  // The loop object c over buffer b, allocated on heap h0, with its frame: k is the heap now.
  ghost predicate Running(a: Scope, b: Scope, buf: nat, ps: seq<(string, Value)>, c: nat, v: Value, w: Value,
                          st: AStack,
                          kept: set<nat>, h0: Heap, k: Heap, on: set<nat>) {
    && HeapOK(k) && Keeps(h0, k) && InUse(on, h0) && c == |h0.cells| && c < |k.cells|
    && k.cells[c].buf == buf && k.cells[c].parent == v
    && Snapshot(k, buf, ps) && buf !in k.free
    && LoopRel(a, b, st, kept, h0, c, on) && Denotes(v, w, h0, c, on)
  }

  // Advancing the loop object and binding it gives the body a frame related to the fresh one.
  lemma Advanced(s: Stmt, a: Scope, b: Scope, buf: nat, ps: seq<(string, Value)>, i: nat, c: nat, v: Value, w: Value,
                 st: AStack, kept: set<nat>, h0: Heap, k: Heap, on: set<nat>)
    requires s.For? && s.id in kept && i < |ps| && Running(a, b, buf, ps, c, v, w, st, kept, h0, k, on)
    ensures var k1 := Advance(k, c, i);
      && Ready(SetName(I.BindTargets(a, s.t1, s.t2, ps[i]), "loop", Ref(c)),
               SetName(I.BindTargets(b, s.t1, s.t2, ps[i]), "loop", Loop(i, ps, w)), APush(ALoop(s.id), st), kept, k1,
                   on + {buf})
      && Keeps(h0, k1)
  {
    var k1 := Advance(k, c, i);
    assert InUse(on, k1) && InUse(on + {buf}, k1);
    DenotesKeeps(v, w, h0, k1, c, c, on);
    DenotesMore(v, w, k1, c, c, on, on + {buf});
    assert Denotes(Ref(c), Loop(i, ps, w), k1, |k1.cells|, on + {buf});
    RelKeeps(a.parent, b.parent, st, kept, h0, k1, c, |k1.cells|, on);
    RelMore(a.parent, b.parent, st, kept, k1, |k1.cells|, |k1.cells|, on, on + {buf});
    TargetsRel(a, b, s.t1, s.t2, ps[i], st, kept, k1, |k1.cells|, on + {buf});
    LoopBound(I.BindTargets(a, s.t1, s.t2, ps[i]), I.BindTargets(b, s.t1, s.t2, ps[i]), s.id, Ref(c), Loop(i, ps, w),
              st, kept,
              k1, |k1.cells|, on + {buf});
  }

  // After a body the loop object and its buffer are as the body found them.
  lemma RunningLater(a: Scope, b: Scope, a2: Scope, b2: Scope, id: nat, buf: nat, ps: seq<(string, Value)>, c: nat,
                     v: Value,
                     w: Value, st: AStack, kept: set<nat>, h0: Heap, k: Heap, i: nat, k2: Heap, on: set<nat>)
    requires Running(a, b, buf, ps, c, v, w, st, kept, h0, k, on) && Keeps(Advance(k, c, i), k2) && HeapOK(k2)
    requires Keeps(h0, Advance(k, c, i)) && Rel(a2, b2, APush(ALoop(id), st), kept, k2, |k2.cells|, on + {buf})
    requires a2.parent == a.parent && b2.parent == b.parent
    ensures Running(a2, b2, buf, ps, c, v, w, st, kept, h0, k2, on)
  {
    KeepsTrans(h0, Advance(k, c, i), k2);
    LoopAfter(a2, b2, id, st, kept, k2, |k2.cells|, on + {buf}, h0, c, on);
  }

  lemma {:induction false} SimIterPooled(s: Stmt, a: Scope, b: Scope, buf: nat, ps: seq<(string, Value)>, i: nat,
                                         c: nat,
                                         v: Value, w: Value, st: AStack, kept: set<nat>, h0: Heap, k: Heap, out: string,
                                         cfg: Config, on: set<nat>)
    requires s.For? && s.id in kept && i <= |ps| && ClearL(s.body, APush(ALoop(s.id), st), kept) && cfg.safe <= kept
    requires Running(a, b, buf, ps, c, v, w, st, kept, h0, k, on)
    ensures PooledSim(IterPooled(s.body, s.t1, s.t2, buf, |ps|, i, c, a, k, out, cfg),
                      I.ExecIter(s.body, s.t1, s.t2, ps, i, w, b, out, cfg.lenient), buf, ps, c, v, w, st, kept, h0, on)
    decreases s, 0, 1, |ps| - i
  {
    if i < |ps| {
      Advanced(s, a, b, buf, ps, i, c, v, w, st, kept, h0, k, on);
      var k1 := Advance(k, c, i);
      var sa := SetName(I.BindTargets(a, s.t1, s.t2, ps[i]), "loop", Ref(c));
      var sb := SetName(I.BindTargets(b, s.t1, s.t2, ps[i]), "loop", Loop(i, ps, w));
      SimList(s.body, sa, sb, APush(ALoop(s.id), st), kept, k1, out, cfg, on + {buf});
      var r, x := ExecList(s.body, sa, k1, out, cfg), I.ExecList(s.body, sb, out, cfg.lenient);
      if x.XOk? {
        RunningLater(a, b, r.sc, x.sc, s.id, buf, ps, c, v, w, st, kept, h0, k, i, r.h, on);
        SimIterPooled(s, r.sc, x.sc, buf, ps, i + 1, c, v, w, st, kept, h0, r.h, x.out, cfg, on);
      }
    }
  }

  ghost predicate PooledSim(r: HeapR, x: I.ExecR, buf: nat, ps: seq<(string, Value)>, c: nat, v: Value, w: Value,
                            st: AStack,
                            kept: set<nat>, h0: Heap, on: set<nat>) {
    match x
    case XFail(e, o) => r == HFail(e, o)
    case XOk(lb, o) => r.HOk? && r.out == o && Running(r.sc, lb, buf, ps, c, v, w, st, kept, h0, r.h, on)
  }

  // A pooled run: what it leaves is related without its own buffer, which is still out of the pool.
  ghost predicate Held(r: HeapR, x: I.ExecR, buf: nat, st: AStack, kept: set<nat>, h: Heap, on: set<nat>) {
    RunSim(r, x, st, kept, h, on) && (x.XOk? ==> buf < |r.h.bufs| && buf !in r.h.free)
  }

  lemma {:induction false} SimPooled(s: Stmt, buf: nat, ps: seq<(string, Value)>, a: Scope, b: Scope, st: AStack,
                                     kept: set<nat>, h: Heap, out: string, cfg: Config, on: set<nat>)
    requires s.For? && s.id in kept && Ready(a, b, st, kept, h, on) && ClearS(s, st, kept) && cfg.safe <= kept
    requires Snapshot(h, buf, ps) && buf !in h.free
    ensures Held(ExecPooled(s, buf, a, h, out, cfg), I.ExecArms(s, ps, b, out, cfg.lenient), buf, st, kept, h, on)
    decreases s, 0, 2
  {
    if ps == [] {
      SimList(s.els, a, b, st, kept, h, out, cfg, on);
    } else {
      var v, w, c := Get(a, "loop").GetOr(Null), Get(b, "loop").GetOr(Null), |h.cells|;
      var k := h.(cells := h.cells + [Cell(0, buf, v)]);
      ParentRel(a, b, st, kept, h, c, on);
      LoopStart(a, b, st, kept, h, c, on);
      SimIterPooled(s, Child(a), Child(b), buf, ps, 0, c, v, w, st, kept, h, k, out, cfg, on);
      var r, x := IterPooled(s.body, s.t1, s.t2, buf, |ps|, 0, c, Child(a), k, out, cfg),
                  I.ExecIter(s.body, s.t1, s.t2, ps, 0, w, Child(b), out, cfg.lenient);
      if x.XOk? { PooledLeft(s, r, x, buf, ps, c, v, w, a, b, st, kept, h, on); }
    }
  }

  lemma PooledLeft(s: Stmt, r: HeapR, x: I.ExecR, buf: nat, ps: seq<(string, Value)>, c: nat, v: Value, w: Value,
                   a: Scope,
                   b: Scope, st: AStack, kept: set<nat>, h: Heap, on: set<nat>)
    requires s.For? && Ready(a, b, st, kept, h, on) && x.XOk? && x.sc.Scope?
    requires PooledSim(r, x, buf, ps, c, v, w, st, kept, h, on)
    ensures Keeps(h, r.h) && buf !in r.h.free && buf < |r.h.bufs|
    ensures Rel(I.CopyBack(Names(a), LoopControls(s.t1, s.t2), r.sc.entries, a),
                I.CopyBack(Names(b), LoopControls(s.t1, s.t2), x.sc.entries, b), st, kept, r.h, |r.h.cells|, on)
  {
    RelKeeps(r.sc.parent, x.sc.parent, st, kept, h, r.h, c, |r.h.cells|, on);
    LoopLeft(s, r, x, a, b, st, kept, h, on);
  }

  // Releasing the buffer leaves what does not use it.
  lemma Released(r: HeapR, x: I.ExecR, buf: nat, st: AStack, kept: set<nat>, h: Heap, k: Heap, on: set<nat>)
    requires HeapOK(h) && InUse(on, h) && Keeps(h, k) && (buf < |h.bufs| ==> buf in h.free)
    requires Held(r, x, buf, st, kept, k, on) && r.HOk? && x.XOk?
    ensures RunSim(HOk(r.sc, Release(r.h, buf), r.out), x, st, kept, h, on)
  {
    KeepsTrans(h, k, r.h);
    ReleaseFacts(h, r.h, buf);
    SameBufs(r.sc, x.sc, st, kept, r.h, Release(r.h, buf), |r.h.cells|, on);
  }

  // The relation reads the loop objects and the buffers, not the pool.
  lemma {:induction false} SameBufs(a: Scope, b: Scope, st: AStack, kept: set<nat>, h: Heap, k: Heap, n: nat,
                                    on: set<nat>)
    requires Rel(a, b, st, kept, h, n, on) && k.cells == h.cells && k.bufs == h.bufs
    ensures Rel(a, b, st, kept, k, n, on)
    decreases st
  {
    var live := st.APush? && st.f.ALoop? && st.f.node in kept;
    forall x ensures EntryRel(Lookup(a.entries, x), Lookup(b.entries, x), live && x == "loop", k, n, on) {
      var v, w := Lookup(a.entries, x), Lookup(b.entries, x);
      assert EntryRel(v, w, live && x == "loop", h, n, on);
      if v.Some? && Denotes(v.value, w.value, h, n, on) { SameDenotes(v.value, w.value, h, k, n, on); }
    }
    if st.APush? && !st.f.AOnly? { SameBufs(a.parent, b.parent, st.below, kept, h, k, n, on); }
  }

  lemma {:induction false} SameDenotes(v: Value, w: Value, h: Heap, k: Heap, n: nat, on: set<nat>)
    requires Denotes(v, w, h, n, on) && k.cells == h.cells && k.bufs == h.bufs
    ensures Denotes(v, w, k, n, on)
    decreases n, v
  {
    if !Solid(v) {
      if v.Loop? { SameDenotes(v.parent, w.parent, h, k, n, on); }
      else { SameDenotes(h.cells[v.cell].parent, w.parent, h, k, v.cell, on); }
    }
  }

  // ----- the fused filter -----

  lemma FilterTargets(a: Scope, b: Scope, t1: string, t2: Option<string>, p: (string, Value), st: AStack,
                      kept: set<nat>,
                      h: Heap, n: nat, on: set<nat>)
    requires Rel(a, b, st, kept, h, n, on) && Solid(p.1)
    ensures Rel(I.BindTargets(a, t1, t2, p), I.BindTargets(b, t1, t2, p), st, kept, h, n, on)
  {
    if t2.Some? {
      SetRel(a, b, st, kept, h, n, on, t1, KeyValue(p.0));
      SetRel(SetName(a, t1, KeyValue(p.0)), SetName(b, t1, KeyValue(p.0)), st, kept, h, n, on, t2.value, p.1);
    } else {
      SetRel(a, b, st, kept, h, n, on, t1, p.1);
    }
  }

  lemma {:induction false} SimFilter(cond: Expr, t1: string, t2: Option<string>, ps: seq<(string, Value)>, a: Scope,
                                     b: Scope,
                                     acc: seq<(string, Value)>, st: AStack, kept: set<nat>, h: Heap, n: nat,
                                         on: set<nat>,
                                     lenient: bool)
    requires Rel(a, b, st, kept, h, n, on) && ClearE(cond, st, kept) && SolidEntries(ps) && SolidEntries(acc)
    ensures FilterPairs(cond, t1, t2, ps, a, acc, lenient, h) == I.FilterPairs(cond, t1, t2, ps, b, acc, lenient)
    ensures var r := I.FilterPairs(cond, t1, t2, ps, b, acc, lenient); r.FOk? ==> SolidEntries(r.kept)
    decreases |ps|
  {
    if ps != [] {
      FilterTargets(a, b, t1, t2, ps[0], st, kept, h, n, on);
      var ta, tb := I.BindTargets(a, t1, t2, ps[0]), I.BindTargets(b, t1, t2, ps[0]);
      SimE(cond, false, ta, tb, st, kept, h, n, on, lenient);
      var x := I.Eval(cond, tb, false, lenient);
      if x.EOk? {
        SimFilter(cond, t1, t2, ps[1..], Eval(cond, ta, false, lenient, h).sc, x.sc,
                  if Truthy(x.v) then acc + [ps[0]] else acc, st, kept, h, n, on, lenient);
      }
    }
  }

  lemma {:induction false} SimFor(s: Stmt, v: Value, a: Scope, b: Scope, st: AStack, kept: set<nat>, h: Heap,
                                  out: string,
                                  cfg: Config, on: set<nat>)
    requires s.For? && Solid(v) && Ready(a, b, st, kept, h, on) && ClearS(s, st, kept) && cfg.safe <= kept
    ensures RunSim(ExecFor(s, v, a, h, out, cfg), I.ExecFor(s, v, b, out, cfg.lenient), st, kept, h, on)
    decreases s, 0, 3
  {
    var t := Traverse(v, cfg.lenient);
    if t.Ok? {
      if Pooled(s, cfg) && v.Arr? {
        SimRecycled(s, t.value, a, b, st, kept, h, out, cfg, on);
      } else if s.filter.Some? {
        var f := AFilter(FilterBindsLoop(s.t1, s.t2, s.filter.value));
        PushRel(a, b, f, st, kept, h, |h.cells|, on);
        SimFilter(s.filter.value, s.t1, s.t2, t.value, Child(a), Child(b), [], APush(f, st), kept, h, |h.cells|, on,
                  cfg.lenient);
        var r := I.FilterPairs(s.filter.value, s.t1, s.t2, t.value, Child(b), [], cfg.lenient);
        if r.FOk? { SimFresh(s, r.kept, a, b, st, kept, h, out, cfg, on); }
      } else {
        SimFresh(s, t.value, a, b, st, kept, h, out, cfg, on);
      }
    }
  }

  // A pooled loop from the taking of its buffer to the release.
  lemma {:induction false} SimRecycled(s: Stmt, ps: seq<(string, Value)>, a: Scope, b: Scope, st: AStack,
                                       kept: set<nat>,
                                       h: Heap, out: string, cfg: Config, on: set<nat>)
    requires s.For? && Pooled(s, cfg) && SolidEntries(ps) && Ready(a, b, st, kept, h, on) && ClearS(s, st, kept)
    requires cfg.safe <= kept
    ensures var q := Acquire(h, ps, cfg); var r := ExecPooled(s, q.0, a, q.1, out, cfg);
      RunSim(if r.HOk? then HOk(r.sc, Release(r.h, q.0), r.out) else r, I.ExecArms(s, ps, b, out, cfg.lenient), st,
             kept, h, on)
    decreases s, 0, 3, 0
  {
    var q := Acquire(h, ps, cfg);
    AcquireFacts(h, ps, cfg);
    ReadyLater(a, b, st, kept, h, q.1, on);
    SimPooled(s, q.0, ps, a, b, st, kept, q.1, out, cfg, on);
    var r, x := ExecPooled(s, q.0, a, q.1, out, cfg), I.ExecArms(s, ps, b, out, cfg.lenient);
    if x.XOk? { Released(r, x, q.0, st, kept, h, q.1, on); }
  }

  // ----- modules -----

  // The output, and the names left visible.
  ghost predicate SameRun(r: HeapR, x: I.ExecR) {
    match x
    case XFail(e, o) => r == HFail(e, o)
    case XOk(sb, o) => r.HOk? && r.out == o && Names(r.sc) == Names(sb)
  }

  // A module over a root scope of solid values renders alike with recycled and with fresh loop memory,
  // whatever buffers the pool hands out.
  lemma RecycledRenders(ss: seq<Stmt>, kept: set<nat>, root: Scope, cfg: Config)
    requires ClearL(ss, ARoot, kept) && cfg.safe <= kept
    requires root.Scope? && root.parent.NoScope? && SolidEntries(root.entries)
    ensures SameRun(ExecList(ss, root, EMPTY, "", cfg), I.ExecList(ss, root, "", cfg.lenient))
  {
    forall x ensures EntryRel(Lookup(root.entries, x), Lookup(root.entries, x), false, EMPTY, 0, {}) {
      LookupSolid(root.entries, x);
    }
    SimList(ss, root, root, ARoot, kept, EMPTY, "", cfg, {});
    var r, x := ExecList(ss, root, EMPTY, "", cfg), I.ExecList(ss, root, "", cfg.lenient);
    if x.XOk? { NamesSame(r.sc, x.sc, ARoot, kept, r.h, |r.h.cells|, {}); }
  }
}
