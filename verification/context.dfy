/** Scope enumeration: the emitted walk over the frames builds the interpreter's context mapping. */
module ContextSim {
  import opened Values
  import opened Scopes
  import opened Interp
  import opened Target
  import opened Lowering
  import opened Agreement
  import opened ExprSim

  ghost predicate NoDup(names: seq<string>) {
    forall i, j :: 0 <= i < j < |names| ==> names[i] != names[j]
  }

  lemma {:induction false} AddNamesNoDup(names: seq<string>, more: seq<string>)
    requires NoDup(names)
    ensures NoDup(AddNames(names, more))
  {
    if more != [] { AddNamesNoDup(names, more[..|more| - 1]); }
  }

  lemma {:induction false} NamesNoDup(sc: Scope)
    ensures NoDup(Names(sc))
  {
    if sc.Scope? {
      NamesNoDup(sc.parent);
      AddNamesNoDup(Names(sc.parent), Keys(sc.entries));
    }
  }

  lemma {:induction false} AddNamesFresh(names: seq<string>)
    requires NoDup(names)
    ensures AddNames([], names) == names
  {
    if names != [] {
      var init := names[..|names| - 1];
      AddNamesFresh(init);
      assert names[|names| - 1] !in init;
      assert names == init + [names[|names| - 1]];
    }
  }

  // Distinct-key entries are determined by their keys and lookups.
  lemma {:induction false} EntriesEqual(a: seq<(string, Value)>, b: seq<(string, Value)>)
    requires Keys(a) == Keys(b) && NoDup(Keys(a))
    requires forall x :: Lookup(a, x) == Lookup(b, x)
    ensures a == b
  {
    assert |a| == |Keys(a)| == |b|;
    forall i | 0 <= i < |a| ensures a[i] == b[i] {
      LookupAt(a, i);
      LookupAt(b, i);
      assert a[i].0 == Keys(a)[i] == Keys(b)[i] == b[i].0;
    }
  }

  lemma {:induction false} LookupAt(es: seq<(string, Value)>, i: nat)
    requires i < |es| && NoDup(Keys(es))
    ensures Lookup(es, es[i].0) == Some(es[i].1)
  {
    var init := es[..|es| - 1];
    if i < |es| - 1 {
      assert Keys(es)[i] != Keys(es)[|es| - 1];
      forall p, q | 0 <= p < q < |Keys(init)| ensures Keys(init)[p] != Keys(init)[q] {
        assert Keys(init)[p] == Keys(es)[p] && Keys(init)[q] == Keys(es)[q];
      }
      LookupAt(init, i);
    }
  }

  // ----- the interpreter's mapping -----

  lemma {:induction false} ContextKeys(names: seq<string>, sc: Scope)
    ensures Keys(ContextEntries(names, sc)) == AddNames([], names)
  {
    if names != [] {
      var init, last := names[..|names| - 1], names[|names| - 1];
      ContextKeys(init, sc);
      KeysPut(ContextEntries(init, sc), last, Get(sc, last).GetOr(Null));
    }
  }

  lemma {:induction false} ContextLookup(names: seq<string>, sc: Scope, x: string)
    ensures Lookup(ContextEntries(names, sc), x) == if x in names then Some(Get(sc, x).GetOr(Null)) else None
  {
    if names != [] {
      var init, last := names[..|names| - 1], names[|names| - 1];
      ContextLookup(init, sc, x);
      LookupPut(ContextEntries(init, sc), last, Get(sc, last).GetOr(Null), x);
      InSnoc(names, x);
    }
  }

  lemma InSnoc(names: seq<string>, x: string)
    requires names != []
    ensures x in names <==> x in names[..|names| - 1] || x == names[|names| - 1]
  {
    assert names == names[..|names| - 1] + [names[|names| - 1]];
  }

  // ----- the emitted mapping -----

  lemma {:induction false} PutEntriesKeys(acc: seq<(string, Value)>, es: seq<(string, Value)>)
    ensures Keys(PutEntries(acc, es)) == AddNames(Keys(acc), Keys(es))
  {
    if es != [] {
      var init, last := es[..|es| - 1], es[|es| - 1];
      PutEntriesKeys(acc, init);
      KeysPut(PutEntries(acc, init), last.0, last.1);
      assert Keys(es) == Keys(init) + [last.0];
      AddNamesSnoc(Keys(acc), Keys(init), last.0);
    }
  }

  lemma {:induction false} PutEntriesLookup(acc: seq<(string, Value)>, es: seq<(string, Value)>, x: string)
    ensures Lookup(PutEntries(acc, es), x) == if Lookup(es, x).Some? then Lookup(es, x) else Lookup(acc, x)
  {
    if es != [] {
      var init, last := es[..|es| - 1], es[|es| - 1];
      PutEntriesLookup(acc, init, x);
      LookupPut(PutEntries(acc, init), last.0, last.1, x);
    }
  }

  lemma {:induction false} RootKeys(names: seq<string>, f: CFrame, s: State, vars: Vars)
    ensures Keys(RootEntries([], names, f.id, f.order, f.definite, s, vars)) == AddNames([], names)
  {
    if names != [] {
      var init, last := names[..|names| - 1], names[|names| - 1];
      RootKeys(init, f, s, vars);
      RootPut(names, f, s, vars);
      KeysPut(RootEntries([], init, f.id, f.order, f.definite, s, vars), last, RootValue(f, s, vars, last));
    }
  }

  ghost function RootValue(f: CFrame, s: State, vars: Vars, x: string): Value {
    if x in f.order && (x in f.definite || x in LocalsOf(s, f.id).flags) then VarVal(s, x, f.id) else VarsAt(vars, x)
  }

  lemma RootPut(names: seq<string>, f: CFrame, s: State, vars: Vars)
    requires names != []
    ensures var init, last := names[..|names| - 1], names[|names| - 1];
      RootEntries([], names, f.id, f.order, f.definite, s, vars)
      == Put(RootEntries([], init, f.id, f.order, f.definite, s, vars), last, RootValue(f, s, vars, last))
  {
  }

  lemma RootOwn(f: CFrame, s: State, vars: Vars, x: string)
    requires TopReady(f, s, {}) && f.kind == KRoot
    ensures RootValue(f, s, vars, x) == Own(f, s, vars, x).GetOr(Null)
  {
  }

  lemma {:induction false} RootLookup(names: seq<string>, f: CFrame, s: State, vars: Vars, x: string)
    ensures Lookup(RootEntries([], names, f.id, f.order, f.definite, s, vars), x)
            == if x in names then Some(RootValue(f, s, vars, x)) else None
  {
    if names != [] {
      var init, last := names[..|names| - 1], names[|names| - 1];
      RootLookup(init, f, s, vars, x);
      RootPut(names, f, s, vars);
      LookupPut(RootEntries([], init, f.id, f.order, f.definite, s, vars), last, RootValue(f, s, vars, last), x);
      InSnoc(names, x);
    }
  }

  lemma OrdPut(acc: seq<(string, Value)>, ord: seq<string>, f: CFrame, s: State)
    requires ord != [] && ord[|ord| - 1] in f.order
    ensures OrdEntries(acc, ord, f.id, f.order, SlotOf(f), s)
         == Put(OrdEntries(acc, ord[..|ord| - 1], f.id, f.order, SlotOf(f), s), ord[|ord| - 1],
                OwnVal(f, s, ord[|ord| - 1]))
  {
  }

  lemma InitIn(ord: seq<string>, order: seq<string>)
    requires ord != [] && forall y :: y in ord ==> y in order
    ensures ord[|ord| - 1] in order && forall y :: y in ord[..|ord| - 1] ==> y in order
  {
  }

  lemma {:induction false} OrdKeys(acc: seq<(string, Value)>, ord: seq<string>, f: CFrame, s: State)
    requires forall y :: y in ord ==> y in f.order
    ensures Keys(OrdEntries(acc, ord, f.id, f.order, SlotOf(f), s)) == AddNames(Keys(acc), ord)
  {
    if ord != [] {
      var init, last := ord[..|ord| - 1], ord[|ord| - 1];
      InitIn(ord, f.order);
      OrdKeys(acc, init, f, s);
      OrdPut(acc, ord, f, s);
      KeysPut(OrdEntries(acc, init, f.id, f.order, SlotOf(f), s), last, OwnVal(f, s, last));
    }
  }

  lemma {:induction false} OrdLookup(acc: seq<(string, Value)>, ord: seq<string>, f: CFrame, s: State, x: string)
    requires forall y :: y in ord ==> y in f.order
    ensures Lookup(OrdEntries(acc, ord, f.id, f.order, SlotOf(f), s), x)
            == if x in ord then Some(OwnVal(f, s, x)) else Lookup(acc, x)
  {
    if ord != [] {
      var init, last := ord[..|ord| - 1], ord[|ord| - 1];
      InitIn(ord, f.order);
      OrdLookup(acc, init, f, s, x);
      OrdPut(acc, ord, f, s);
      LookupPut(OrdEntries(acc, init, f.id, f.order, SlotOf(f), s), last, OwnVal(f, s, last), x);
      InSnoc(ord, x);
    }
  }

  // The mapping in temporary t lists exactly what the stack sees.
  ghost predicate Lists(es: seq<(string, Value)>, fs: Frames, s: State, vars: Vars) {
    Keys(es) == CNames(fs, s, vars) && forall x :: Lookup(es, x) == CGet(fs, s, vars, x)
  }

  lemma PutPut(s: State, t: nat, a: Value, b: Value)
    ensures PutTmp(PutTmp(s, t, a), t, b) == PutTmp(s, t, b)
    ensures Tmp(PutTmp(s, t, a), t) == a
  {
    assert s.tmps[t := a][t := b] == s.tmps[t := b];
  }

  lemma {:induction false} RunContext(sc: Scope, fs: Frames, s: State, vars: Vars, t: nat, n: nat, m: nat)
    returns (es: seq<(string, Value)>)
    requires StackOK(fs, n, m) && Agree(sc, fs, s, vars, {}) && n <= t && Tmp(s, t) == Arr([])
    ensures Run(ContextCode(fs, t), s, vars) == ROk(PutTmp(s, t, Arr(es)))
    ensures Lists(es, fs, s, vars)
    decreases fs, 1
  {
    var f := fs.f;
    var acc := RunContextBase(sc, fs, s, vars, t, n, m);
    es := acc;
    if HasOrd(f) {
      var s1 := PutTmp(s, t, Arr(acc));
      var ord := LocalsOf(s, f.id).ord;
      var step := CtxOrd(t, f.id, f.order, SlotOf(f));
      RunAppend(ContextBase(fs, t), [step], s, vars);
      RunOne(step, s1, vars);
      es := OrdEntries(acc, ord, f.id, f.order, SlotOf(f), s1);
      PutPut(s, t, Arr(acc), Arr(es));
      OrdLists(sc, fs, s, s1, vars, acc, es, n, m);
    } else {
      NoOrdLists(sc, fs, s, vars, acc);
    }
  }

  // What the mapping lists before the top frame's own binds.
  ghost predicate ListsBase(es: seq<(string, Value)>, fs: Frames, s: State, vars: Vars)
    requires fs.Frames?
  {
    && Keys(es) == CBase(fs, s, vars)
    && (forall x :: x !in LocalsOf(s, fs.f.id).flags || fs.f.kind == KRoot ==> Lookup(es, x) == CGet(fs, s, vars, x))
  }

  lemma OrdLists(sc: Scope, fs: Frames, s: State, s1: State, vars: Vars, acc: seq<(string, Value)>,
                 es: seq<(string, Value)>, n: nat, m: nat)
    requires StackOK(fs, n, m) && Agree(sc, fs, s, vars, {}) && HasOrd(fs.f) && ListsBase(acc, fs, s, vars)
    requires TmpsOnly(s, s1, n)
    requires es == OrdEntries(acc, LocalsOf(s, fs.f.id).ord, fs.f.id, fs.f.order, SlotOf(fs.f), s1)
    ensures Lists(es, fs, s, vars)
  {
    var ord := LocalsOf(s, fs.f.id).ord;
    forall x ensures Lookup(es, x) == CGet(fs, s, vars, x) {
      OrdLookup(acc, ord, fs.f, s1, x);
      assert OwnVal(fs.f, s1, x) == OwnVal(fs.f, s, x);
    }
    OrdKeys(acc, ord, fs.f, s1);
  }

  lemma NoOrdLists(sc: Scope, fs: Frames, s: State, vars: Vars, acc: seq<(string, Value)>)
    requires Agree(sc, fs, s, vars, {}) && !HasOrd(fs.f) && ListsBase(acc, fs, s, vars)
    ensures Lists(acc, fs, s, vars)
  {
    assert fs.f.kind != KRoot ==> fs.f.order == [] && forall x :: x !in LocalsOf(s, fs.f.id).flags;
  }

  lemma {:induction false} RunContextBase(sc: Scope, fs: Frames, s: State, vars: Vars, t: nat, n: nat, m: nat)
    returns (es: seq<(string, Value)>)
    requires StackOK(fs, n, m) && Agree(sc, fs, s, vars, {}) && n <= t && Tmp(s, t) == Arr([])
    ensures Run(ContextBase(fs, t), s, vars) == ROk(PutTmp(s, t, Arr(es)))
    ensures ListsBase(es, fs, s, vars)
    decreases fs, 0
  {
    var f := fs.f;
    if Cut(f) {
      es := RunContextCut(sc, fs, s, vars, t);
    } else {
      var acc := RunContext(sc.parent, fs.below, s, vars, t, n, f.id - 1);
      es := acc;
      if f.kind == KWith {
        es := RunWithStep(ContextCode(fs.below, t), acc, f.withG, s, vars, t, n);
        WithLists(sc, fs, s, vars, acc, es);
      } else {
        PassLists(fs, s, vars, acc);
      }
    }
  }

  lemma RunContextCut(sc: Scope, fs: Frames, s: State, vars: Vars, t: nat) returns (es: seq<(string, Value)>)
    requires Agree(sc, fs, s, vars, {}) && Cut(fs.f) && Tmp(s, t) == Arr([])
    ensures Run(ContextBase(fs, t), s, vars) == ROk(PutTmp(s, t, Arr(es)))
    ensures ListsBase(es, fs, s, vars)
  {
    es := RunCutStep(fs, s, vars, t);
    if fs.f.kind == KRoot { RootLists(sc, fs, s, vars, es); } else { WithLists(sc, fs, s, vars, [], es); }
  }

  lemma RunCutStep(fs: Frames, s: State, vars: Vars, t: nat) returns (es: seq<(string, Value)>)
    requires fs.Frames? && Cut(fs.f) && Tmp(s, t) == Arr([])
    ensures Run(ContextBase(fs, t), s, vars) == ROk(PutTmp(s, t, Arr(es)))
    ensures es == if fs.f.kind == KRoot then RootEntries([], s.qNames, fs.f.id, fs.f.order, fs.f.definite, s, vars)
                  else PutEntries([], WithEntries(GVal(fs.f.withG, s, vars)))
  {
    var f := fs.f;
    RunOne(CtxRoot(t, f.id, f.order, f.definite), s, vars);
    RunOne(CtxWith(t, f.withG), s, vars);
    es := if f.kind == KRoot then RootEntries([], s.qNames, f.id, f.order, f.definite, s, vars)
          else PutEntries([], WithEntries(GVal(f.withG, s, vars)));
  }

  lemma PassLists(fs: Frames, s: State, vars: Vars, acc: seq<(string, Value)>)
    requires fs.Frames? && (fs.f.kind == KLoop || fs.f.kind == KFilter) && Lists(acc, fs.below, s, vars)
    ensures ListsBase(acc, fs, s, vars)
  {
  }

  lemma RunWithStep(code: Code, acc: seq<(string, Value)>, m: GExpr, s: State, vars: Vars, t: nat, n: nat)
    returns (es: seq<(string, Value)>)
    requires Run(code, s, vars) == ROk(PutTmp(s, t, Arr(acc))) && Within(m, n) && n <= t
    ensures es == PutEntries(acc, WithEntries(GVal(m, s, vars)))
    ensures Run(code + [CtxWith(t, m)], s, vars) == ROk(PutTmp(s, t, Arr(es)))
  {
    var s1 := PutTmp(s, t, Arr(acc));
    RunAppend(code, [CtxWith(t, m)], s, vars);
    RunOne(CtxWith(t, m), s1, vars);
    TmpsPut(s, t, Arr(acc), n);
    GValStable(m, s, s1, vars, n);
    es := PutEntries(acc, WithEntries(GVal(m, s, vars)));
    PutPut(s, t, Arr(acc), Arr(es));
  }

  lemma RootLists(sc: Scope, fs: Frames, s: State, vars: Vars, es: seq<(string, Value)>)
    requires Agree(sc, fs, s, vars, {}) && fs.f.kind == KRoot
    requires es == RootEntries([], s.qNames, fs.f.id, fs.f.order, fs.f.definite, s, vars)
    ensures ListsBase(es, fs, s, vars)
  {
    NamesNoDup(sc);
    assert !HasOrd(fs.f) && s.qNames == CNames(fs, s, vars);
    AddNamesFresh(s.qNames);
    forall x ensures Lookup(es, x) == CGet(fs, s, vars, x) {
      RootLookup(s.qNames, fs.f, s, vars, x);
      RootOwn(fs.f, s, vars, x);
      NamesGet(sc, x);
    }
    RootKeys(s.qNames, fs.f, s, vars);
  }

  lemma WithLists(sc: Scope, fs: Frames, s: State, vars: Vars, acc: seq<(string, Value)>, es: seq<(string, Value)>)
    requires Agree(sc, fs, s, vars, {}) && (fs.f.kind == KWith || fs.f.kind == KOnly)
    requires es == PutEntries(acc, WithEntries(GVal(fs.f.withG, s, vars)))
    requires if fs.f.kind == KOnly then acc == [] else Lists(acc, fs.below, s, vars)
    ensures ListsBase(es, fs, s, vars)
  {
    var w := WithEntries(GVal(fs.f.withG, s, vars));
    forall x | x !in LocalsOf(s, fs.f.id).flags ensures Lookup(es, x) == CGet(fs, s, vars, x) {
      PutEntriesLookup(acc, w, x);
    }
    PutEntriesKeys(acc, w);
    assert acc == [] ==> Keys(acc) == [];
  }

  // _context on both sides is one value.
  lemma SimContext(cs: CS, plan: Plan, sc: Scope, s: State, vars: Vars) returns (s': State)
    requires Inv(cs, sc, s, vars)
    ensures var le := LE([SetTmp(cs.tmpN, GConst(Arr([])))] + ContextCode(cs.frames, cs.tmpN), GTmp(cs.tmpN),
                         Fresh(cs, 1));
      SimR(le, EOk(Arr(ContextEntries(Names(sc), sc)), sc), cs, s, s', vars)
  {
    var t := cs.tmpN;
    var s1 := PutTmp(s, t, Arr([]));
    RunOne(SetTmp(t, GConst(Arr([]))), s, vars);
    RunAppend([SetTmp(t, GConst(Arr([])))], ContextCode(cs.frames, t), s, vars);
    PutFresh(cs, 1, sc, s, t, Arr([]), vars);
    var es := RunContext(sc, cs.frames, s1, vars, t, cs.tmpN, cs.frameN);
    s' := PutTmp(s1, t, Arr(es));
    PutPut(s, t, Arr([]), Arr(es));
    PutFresh(cs, 1, sc, s, t, Arr(es), vars);
    ContextSame(sc, cs.frames, s1, vars, es);
  }

  lemma ContextSame(sc: Scope, fs: Frames, s: State, vars: Vars, es: seq<(string, Value)>)
    requires Agree(sc, fs, s, vars, {}) && Lists(es, fs, s, vars)
    ensures es == ContextEntries(Names(sc), sc)
  {
    var r := ContextEntries(Names(sc), sc);
    NamesNoDup(sc);
    AddNamesFresh(Names(sc));
    ContextKeys(Names(sc), sc);
    forall x ensures Lookup(es, x) == Lookup(r, x) {
      ContextLookup(Names(sc), sc, x);
      NamesGet(sc, x);
    }
    EntriesEqual(es, r);
  }
}
