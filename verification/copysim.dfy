/** The exit of a loop: copying back only the names the body may bind gives the scope the
    interpreter reaches by copying back every pre-existing name. */
module CopySim {
  import opened Values
  import opened Syntax
  import opened Scopes
  import opened Interp
  import opened Scan
  import opened Target
  import opened Lowering
  import opened Agreement
  import opened Resolution
  import opened BindSim
  import opened ExprSim
  import opened ContextSim

  // ----- the interpreter's side -----

  // Only the listed names are copied, each when it is visible.
  ghost function CopyListed(names: seq<string>, lc: Scope, sc: Scope): (r: Scope)
    requires sc.Scope?
    ensures r.Scope? && r.parent == sc.parent
  {
    if names == [] then sc
    else
      var x := names[0];
      CopyListed(names[1..], lc, if Get(sc, x).Some? && Get(lc, x).Some? then SetName(sc, x, Get(lc, x).value) else sc)
  }

  lemma {:induction false} CopyListedFacts(names: seq<string>, lc: Scope, sc: Scope, y: string)
    requires sc.Scope? && NoDup(names) && (Get(sc, y).Some? ==> Get(lc, y).Some?)
    ensures var r := CopyListed(names, lc, sc);
      Names(r) == Names(sc) && Get(r, y) == if y in names && Get(sc, y).Some? then Get(lc, y) else Get(sc, y)
  {
    if names != [] {
      var x := names[0];
      var sc1 := if Get(sc, x).Some? && Get(lc, x).Some? then SetName(sc, x, Get(lc, x).value) else sc;
      if Get(sc, x).Some? && Get(lc, x).Some? {
        SetNameFacts(sc, x, Get(lc, x).value);
        NamesGet(sc, x);
      }
      CopyListedFacts(names[1..], lc, sc1, y);
      assert names == [x] + names[1..];
    }
  }

  lemma {:induction false} CopyBackFacts(names: seq<string>, bound: set<string>, lc: Scope, pre: Scope, y: string)
    requires pre.Scope? && lc.Scope? && lc.parent == pre && NoDup(names)
    requires forall x :: x in names ==> Get(pre, x).Some?
    ensures var r := CopyBack(names, bound, lc.entries, pre);
      Names(r) == Names(pre) && Get(r, y) == if y in names && y !in bound then Get(lc, y) else Get(pre, y)
  {
    if names != [] {
      var init, x := names[..|names| - 1], names[|names| - 1];
      assert names == init + [x];
      var done := CopyBack(init, bound, lc.entries, pre);
      CopyBackFacts(init, bound, lc, pre, y);
      CopyBackFacts(init, bound, lc, pre, x);
      assert x !in init;
      if x !in bound && Get(Scope(lc.entries, done), x).Some? {
        SetNameFacts(done, x, Get(Scope(lc.entries, done), x).value);
        NamesGet(pre, x);
      }
    }
  }

  // The two copy-backs reach scopes no read can tell apart.
  lemma CopySame(listed: seq<string>, bound: set<string>, lc: Scope, pre: Scope)
    requires pre.Scope? && lc.Scope? && lc.parent == pre && NoDup(listed)
    requires forall x :: x in listed ==> x !in bound
    requires forall x :: x !in listed && x !in bound ==> Get(lc, x) == Get(pre, x)
    ensures var a, b := CopyBack(Names(pre), bound, lc.entries, pre), CopyListed(listed, lc, pre);
      Names(a) == Names(b) && a.parent == b.parent && forall y :: Get(a, y) == Get(b, y)
  {
    NamesNoDup(pre);
    forall x ensures x in Names(pre) <==> Get(pre, x).Some? { NamesGet(pre, x); }
    CopyBackFacts(Names(pre), bound, lc, pre, "");
    CopyListedFacts(listed, lc, pre, "");
    forall y ensures Get(CopyBack(Names(pre), bound, lc.entries, pre), y) == Get(CopyListed(listed, lc, pre), y) {
      CopyBackFacts(Names(pre), bound, lc, pre, y);
      CopyListedFacts(listed, lc, pre, y);
    }
  }

  // Agreement sees a scope only through its reads, its name list and its parent.
  lemma AgreeSame(a: Scope, b: Scope, fs: Frames, s: State, vars: Vars, skip: set<string>)
    requires Agree(a, fs, s, vars, skip) && b.Scope? && a.parent == b.parent
    requires Names(a) == Names(b) && forall y :: Get(a, y) == Get(b, y)
    ensures Agree(b, fs, s, vars, skip)
  {
  }

  // ----- the emitted code -----

  ghost predicate Loose(ls: seq<Link>) {
    forall i :: 0 <= i < |ls| ==> !(ls[i].LBind? && ls[i].definite) && !ls[i].LLoop?
  }

  lemma {:induction false} LooseChain(fs: Frames, x: string)
    requires !Terminal(fs, x)
    ensures Loose(Chain(fs, x))
  {
    if fs.Frames? && !Cut(fs.f) { LooseChain(fs.below, x); }
  }

  lemma {:induction false} RunExists(ls: seq<Link>, x: string, ex: nat, s: State, vars: Vars,
                                     n: nat) returns (s': State)
    requires Loose(ls) && LinksWithin(ls, n) && n <= ex && Tmp(s, ex).Bool?
    ensures Run(ExistsCode(ls, x, ex), s, vars) == ROk(s') && TmpsOnly(s, s', n)
    ensures Tmp(s', ex) == Bool(Tmp(s, ex).b || LinksGet(ls, s, vars, x).Some?)
  {
    s' := s;
    if ls != [] {
      var found := LinkGet(ls[0], s, vars, x).Some?;
      var s1 := if found then PutTmp(s, ex, Bool(true)) else s;
      var c := ExistsCode(ls, x, ex)[0];
      RunOne(SetTmp(ex, GConst(Bool(true))), s, vars);
      assert Step(c, s, vars) == ROk(s1);
      LinksStable(ls[1..], s, s1, vars, x, n);
      s' := RunExists(ls[1..], x, ex, s1, vars, n);
      assert ExistsCode(ls, x, ex) == [c] + ExistsCode(ls[1..], x, ex);
    }
  }

  // The value copied back for x.
  ghost function Copied(x: string, lf: CFrame, fs: Frames, s: State, vars: Vars): Option<Value> {
    if x in LocalsOf(s, lf.id).flags then Some(VarVal(s, x, lf.id)) else CGet(fs, s, vars, x)
  }

  lemma RunCopied(x: string, lf: CFrame, cs: CS, val: nat, s: State, vars: Vars) returns (s': State)
    requires StackOK(cs.frames, cs.tmpN, cs.frameN) && Ready(cs.frames, s, vars) && x != "loop" && cs.tmpN <= val
    ensures Run(CopiedValue(x, lf, cs.frames, val), s, vars) == ROk(s') && TmpsOnly(s, s', cs.tmpN)
    ensures Tmp(s', val) == Copied(x, lf, cs.frames, s, vars).GetOr(Null)
  {
    var ls := Chain(cs.frames, x);
    var s1 := PutTmp(s, val, Null);
    var br := CopiedValue(x, lf, cs.frames, val)[1];
    RunTwo(SetTmp(val, GConst(Null)), br, s, vars);
    if x in LocalsOf(s, lf.id).flags {
      RunOne(SetTmp(val, GVar(x, lf.id)), s1, vars);
      s' := PutTmp(s1, val, VarVal(s, x, lf.id));
    } else {
      ChainGet(cs.frames, s, vars, x);
      ChainWithin(cs.frames, x, cs.tmpN, cs.frameN);
      s' := RunVisible(ls, x, val, cs.tmpN, s, s1, vars);
    }
  }

  // The resolution of a visible name into a cleared temporary.
  lemma RunVisible(ls: seq<Link>, x: string, val: nat, n: nat, s: State, s1: State, vars: Vars) returns (s': State)
    requires LinksWithin(ls, n) && LinksFor(ls, x) && n <= val && s1 == PutTmp(s, val, Null)
    ensures Run([SetTmp(val + 1, GConst(Bool(false)))] + EmitLinks(ls, x, val, val + 1), s1, vars) == ROk(s')
    ensures TmpsOnly(s, s', n) && Tmp(s', val) == LinksGet(ls, s, vars, x).GetOr(Null)
  {
    var s2 := PutTmp(s1, val + 1, Bool(false));
    RunOne(SetTmp(val + 1, GConst(Bool(false))), s1, vars);
    RunAppend([SetTmp(val + 1, GConst(Bool(false)))], EmitLinks(ls, x, val, val + 1), s1, vars);
    LinksStable(ls, s, s2, vars, x, n);
    s' := RunLinks(ls, x, val, val + 1, s2, vars, n);
  }

  // Writing a copied value of a visible name is a bind.
  lemma RunCopyWrite(x: string, fs: Frames, val: nat, s: State, vars: Vars, n: nat, m: nat) returns (s': State)
    requires StackOK(fs, n, m) && TopReady(fs.f, s, {}) && x in fs.f.order
    requires fs.f.kind == KRoot ==> x in LocalsOf(s, fs.f.id).flags || x in vars
    ensures Run(CopyWrite(x, fs.f, val), s, vars) == ROk(s') && Bound(x, Tmp(s, val), fs.f, s, s', vars)
  {
    var f := fs.f;
    var ord := if x !in f.definite && HasOrd(f) then [Branch(CNoFlag(x, f.id), [AddOrd(x, f.id)], [])] else [];
    var s1 := AfterOrder(x, f, s, vars);
    if ord != [] {
      RunOne(ord[0], s, vars);
      RunOne(AddOrd(x, f.id), s, vars);
    }
    assert Run(ord, s, vars) == ROk(s1);
    RunAppend(ord, TailCode(x, GTmp(val), f), s, vars);
    RunTail(x, GTmp(val), f, s1, vars);
    var l := LocalsOf(s1, f.id);
    s' := PutLocals(s1, f.id, l.(vals := l.vals[x := Tmp(s, val)], flags := l.flags + {x}));
    TailBound(x, Tmp(s, val), f, s, s', vars);
  }

  // The root binds a visible name either as a local or from the variables.
  lemma VisibleAtRoot(x: string, fs: Frames, s: State, vars: Vars)
    requires fs.Frames? && CGet(fs, s, vars, x).Some?
    ensures fs.f.kind == KRoot ==> x in LocalsOf(s, fs.f.id).flags || x in vars
  {
  }

  // The assignment of a visible name.
  lemma RunAssign(x: string, lf: CFrame, cs: CS, next: CS, val: nat, sc: Scope, s: State,
                  vars: Vars) returns (s': State)
    requires Inv(cs, sc, s, vars) && x in Top(cs).order && x != "loop" && cs.tmpN <= val && lf.id > Top(cs).id
    requires Get(sc, x).Some?
    requires next == WithTop(Fresh(cs, 3), MarkEver(Top(cs), x))
    ensures Run(CopiedValue(x, lf, cs.frames, val) + CopyWrite(x, Top(cs), val), s, vars) == ROk(s')
    ensures Inv(next, SetName(sc, x, Copied(x, lf, cs.frames, s, vars).GetOr(Null)), s', vars)
    ensures Keep(s, s', cs) && s'.out == s.out && LocalsOf(s', lf.id) == LocalsOf(s, lf.id)
  {
    InvGet(cs, sc, s, vars, x);
    var s1 := RunCopied(x, lf, cs, val, s, vars);
    InvTmps(cs, cs, sc, s, s1, vars);
    InvGet(cs, sc, s1, vars, x);
    VisibleAtRoot(x, cs.frames, s1, vars);
    s' := RunCopyWrite(x, cs.frames, val, s1, vars, cs.tmpN, cs.frameN);
    RunAppend(CopiedValue(x, lf, cs.frames, val), CopyWrite(x, Top(cs), val), s, vars);
    AssignInv(x, Tmp(s1, val), cs, next, sc, s1, s', vars);
    BoundKeep(x, Tmp(s1, val), cs, s1, s', vars);
    KeepTmps(s, s1, cs);
    KeepTrans(s, s1, s', cs, cs);
  }

  lemma AssignInv(x: string, v: Value, cs: CS, next: CS, sc: Scope, s: State, s': State, vars: Vars)
    requires Inv(cs, sc, s, vars) && x in Top(cs).order && x != "loop"
    requires next == WithTop(Fresh(cs, 3), MarkEver(Top(cs), x))
    requires Bound(x, v, Top(cs), s, s', vars)
    ensures Inv(next, SetName(sc, x, v), s', vars)
  {
    BoundAgree(x, v, sc, cs.frames, MarkEver(Top(cs), x), s, s', vars, {}, cs.tmpN, cs.frameN);
    assert {} - {x} == {};
    StackEvolves(cs, next);
  }

  // The existence test of a name without a definite binding.
  lemma RunExistence(x: string, cs: CS, sc: Scope, s: State, vars: Vars) returns (s': State)
    requires Inv(cs, sc, s, vars) && x != "loop" && !Terminal(cs.frames, x)
    ensures var ex := cs.tmpN + 2;
      && Run([SetTmp(ex, GConst(Bool(false)))] + ExistsCode(Chain(cs.frames, x), x, ex), s, vars) == ROk(s')
      && TmpsOnly(s, s', cs.tmpN) && Tmp(s', ex) == Bool(Get(sc, x).Some?)
  {
    var ls, ex := Chain(cs.frames, x), cs.tmpN + 2;
    var s1 := PutTmp(s, ex, Bool(false));
    InvGet(cs, sc, s, vars, x);
    ChainGet(cs.frames, s, vars, x);
    ChainWithin(cs.frames, x, cs.tmpN, cs.frameN);
    LooseChain(cs.frames, x);
    LinksStable(ls, s, s1, vars, x, cs.tmpN);
    RunOne(SetTmp(ex, GConst(Bool(false))), s, vars);
    RunAppend([SetTmp(ex, GConst(Bool(false)))], ExistsCode(ls, x, ex), s, vars);
    s' := RunExists(ls, x, ex, s1, vars, cs.tmpN);
  }

  // One copied name: exactly when it pre-existed.
  lemma RunCopyName(x: string, lf: CFrame, cs: CS, sc: Scope, s: State, vars: Vars) returns (s': State)
    requires Inv(cs, sc, s, vars) && x in Top(cs).order && x in lf.order && x != "loop" && lf.id > Top(cs).id
    ensures var r := CopyBackName(x, lf, cs);
      && Run(r.code, s, vars) == ROk(s')
      && Inv(r.cs, if Get(sc, x).Some? then SetName(sc, x, Copied(x, lf, cs.frames, s, vars).GetOr(Null)) else sc, s',
             vars)
      && Keep(s, s', cs) && s'.out == s.out && LocalsOf(s', lf.id) == LocalsOf(s, lf.id)
  {
    var next := WithTop(Fresh(cs, 3), MarkEver(Top(cs), x));
    if Terminal(cs.frames, x) {
      InvGet(cs, sc, s, vars, x);
      ChainGet(cs.frames, s, vars, x);
      s' := RunAssign(x, lf, cs, next, cs.tmpN, sc, s, vars);
    } else {
      var s1 := RunExistence(x, cs, sc, s, vars);
      InvTmps(cs, cs, sc, s, s1, vars);
      KeepTmps(s, s1, cs);
      CopiedStable(x, lf, cs, s, s1, vars);
      s' := RunGuardedAssign(x, lf, cs, next, sc, s1, vars);
      var test := [SetTmp(cs.tmpN + 2, GConst(Bool(false)))] + ExistsCode(Chain(cs.frames, x), x, cs.tmpN + 2);
      RunAppend(test, GuardedAssign(x, lf, cs), s, vars);
      KeepTrans(s, s1, s', cs, cs);
    }
  }

  function GuardedAssign(x: string, lf: CFrame, cs: CS): Code
    requires cs.frames.Frames?
  {
    [Branch(CTruthy(GTmp(cs.tmpN + 2)), CopiedValue(x, lf, cs.frames, cs.tmpN) + CopyWrite(x, Top(cs), cs.tmpN), [])]
  }

  lemma RunGuardedAssign(x: string, lf: CFrame, cs: CS, next: CS, sc: Scope, s: State, vars: Vars) returns (s': State)
    requires Inv(cs, sc, s, vars) && x in Top(cs).order && x != "loop" && lf.id > Top(cs).id
    requires next == WithTop(Fresh(cs, 3), MarkEver(Top(cs), x)) && Tmp(s, cs.tmpN + 2) == Bool(Get(sc, x).Some?)
    ensures Run(GuardedAssign(x, lf, cs), s, vars) == ROk(s')
    ensures Inv(next, if Get(sc, x).Some? then SetName(sc, x, Copied(x, lf, cs.frames, s, vars).GetOr(Null)) else sc,
                s', vars)
    ensures Keep(s, s', cs) && s'.out == s.out && LocalsOf(s', lf.id) == LocalsOf(s, lf.id)
  {
    RunOne(GuardedAssign(x, lf, cs)[0], s, vars);
    InvGet(cs, sc, s, vars, x);
    if Get(sc, x).Some? {
      s' := RunAssign(x, lf, cs, next, cs.tmpN, sc, s, vars);
    } else {
      s' := s;
      InvLater(cs, next, sc, s, vars);
    }
  }

  lemma CopiedStable(x: string, lf: CFrame, cs: CS, a: State, b: State, vars: Vars)
    requires StackOK(cs.frames, cs.tmpN, cs.frameN) && TmpsOnly(a, b, cs.tmpN)
    ensures Copied(x, lf, cs.frames, a, vars) == Copied(x, lf, cs.frames, b, vars)
  {
    CGetStable(cs.frames, a, b, vars, cs.tmpN, cs.frameN, x);
  }

  // What the loop frame holds of the names still to be copied.
  ghost predicate Pending(names: seq<string>, lf: CFrame, lc: Scope, sc: Scope, s: State) {
    forall x :: x in names ==>
      && x in lf.order && x != "loop"
      && Get(lc, x) == if x in LocalsOf(s, lf.id).flags then Some(VarVal(s, x, lf.id)) else Get(sc, x)
  }

  lemma PendingRest(names: seq<string>, lf: CFrame, lc: Scope, sc: Scope, sc1: Scope, s: State, s1: State)
    requires names != [] && NoDup(names) && Pending(names, lf, lc, sc, s) && LocalsOf(s1, lf.id) == LocalsOf(s, lf.id)
    requires forall y :: y != names[0] ==> Get(sc1, y) == Get(sc, y)
    ensures Pending(names[1..], lf, lc, sc1, s1)
  {
    assert names == [names[0]] + names[1..];
    forall x | x in names[1..]
      ensures x in lf.order && x != "loop" && x != names[0]
      ensures Get(lc, x) == if x in LocalsOf(s1, lf.id).flags then Some(VarVal(s1, x, lf.id)) else Get(sc1, x)
    {
      var i :| 0 <= i < |names| - 1 && names[1..][i] == x;
      assert names[i + 1] == x;
    }
  }

  lemma {:induction false} RunCopyBack(names: seq<string>, lf: CFrame, cs: CS, lc: Scope, sc: Scope, s: State,
                                       vars: Vars)
    returns (s': State)
    requires Inv(cs, sc, s, vars) && NoDup(names) && lf.id > Top(cs).id
    requires (forall x :: x in names ==> x in Top(cs).order) && Pending(names, lf, lc, sc, s)
    ensures var r := CopyBackCode(names, lf, cs);
      && Run(r.code, s, vars) == ROk(s') && Inv(r.cs, CopyListed(names, lc, sc), s', vars)
      && Keep(s, s', cs) && s'.out == s.out
  {
    s' := s;
    if names != [] {
      var a := CopyBackName(names[0], lf, cs);
      var s1, sc1 := RunCopyFirst(names, lf, cs, lc, sc, s, vars);
      s' := RunCopyBack(names[1..], lf, a.cs, lc, sc1, s1, vars);
      RunAppend(a.code, CopyBackCode(names[1..], lf, a.cs).code, s, vars);
      KeepTrans(s, s1, s', cs, a.cs);
    }
  }

  // The first of the names, and what is left to copy after it.
  lemma RunCopyFirst(names: seq<string>, lf: CFrame, cs: CS, lc: Scope, sc: Scope, s: State, vars: Vars)
    returns (s1: State, sc1: Scope)
    requires Inv(cs, sc, s, vars) && names != [] && NoDup(names) && lf.id > Top(cs).id
    requires (forall x :: x in names ==> x in Top(cs).order) && Pending(names, lf, lc, sc, s)
    ensures Get(sc, names[0]).Some? ==> Get(lc, names[0]).Some?
    ensures sc1 == if Get(sc, names[0]).Some? then SetName(sc, names[0], Get(lc, names[0]).value) else sc
    ensures var a := CopyBackName(names[0], lf, cs);
      && Run(a.code, s, vars) == ROk(s1) && Inv(a.cs, sc1, s1, vars) && Keep(s, s1, cs) && s1.out == s.out
    ensures Pending(names[1..], lf, lc, sc1, s1)
  {
    var x := names[0];
    InvGet(cs, sc, s, vars, x);
    s1 := RunCopyName(x, lf, cs, sc, s, vars);
    CopiedIs(x, lf, lc, cs, sc, s, vars);
    sc1 := if Get(sc, x).Some? then SetName(sc, x, Get(lc, x).value) else sc;
    if Get(sc, x).Some? { SetNameFacts(sc, x, Get(lc, x).value); }
    PendingRest(names, lf, lc, sc, sc1, s, s1);
  }

  lemma CopiedIs(x: string, lf: CFrame, lc: Scope, cs: CS, sc: Scope, s: State, vars: Vars)
    requires Inv(cs, sc, s, vars) && Pending([x], lf, lc, sc, s)
    ensures Get(sc, x).Some? ==> Get(lc, x).Some? && Copied(x, lf, cs.frames, s, vars) == Get(lc, x)
  {
    InvGet(cs, sc, s, vars, x);
    assert x in [x];
  }

  lemma {:induction false} CopyBackDefinite(names: seq<string>, lf: CFrame, cs: CS)
    requires cs.frames.Frames?
    ensures Top(CopyBackCode(names, lf, cs).cs).definite == Top(cs).definite
  {
    if names != [] { CopyBackDefinite(names[1..], lf, CopyBackName(names[0], lf, cs).cs); }
  }
}
