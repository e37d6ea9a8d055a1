/** Resolution chains and binds: the emitted code reads and writes names as the scope chain does. */
module Resolution {
  import opened Values
  import opened Scopes
  import opened Target
  import opened Lowering
  import opened Agreement

  // ----- chains -----

  ghost function LinkGet(l: Link, s: State, vars: Vars, x: string): Option<Value> {
    match l
    case LBind(_, fid, definite) =>
      if definite || x in LocalsOf(s, fid).flags then Some(VarVal(s, x, fid)) else None
    case LLoop(v) => Some(GVal(v, s, vars))
    case LWith(g) => Lookup(WithEntries(GVal(g, s, vars)), x)
    case LVars => if x in vars then Some(vars[x]) else None
  }

  ghost function LinksGet(ls: seq<Link>, s: State, vars: Vars, x: string): Option<Value> {
    if ls == [] then None
    else if LinkGet(ls[0], s, vars, x).Some? then LinkGet(ls[0], s, vars, x)
    else LinksGet(ls[1..], s, vars, x)
  }

  // No inline loop frame is the first loop frame a read of the name loop could reach.
  predicate LoopClear(fs: Frames) {
    fs.Bottom? || (if fs.f.kind == KLoop then !InlineFrame(fs.f)
                   else fs.f.kind == KRoot || fs.f.kind == KOnly || LoopClear(fs.below))
  }

  // A name the locals answer for at this stack.
  predicate Readable(fs: Frames, x: string) {
    x == "loop" ==> LoopClear(fs)
  }

  lemma {:induction false} ChainGet(fs: Frames, s: State, vars: Vars, x: string)
    requires Ready(fs, s, vars) && Readable(fs, x)
    ensures LinksGet(Chain(fs, x), s, vars, x) == CGet(fs, s, vars, x)
    ensures Terminal(fs, x) ==> CGet(fs, s, vars, x).Some?
  {
    var f := fs.f;
    var own := if x in f.order then [LBind(x, f.id, x in f.definite)] else [];
    var mid := if f.kind == KWith || f.kind == KOnly then [LWith(f.withG)] else if f.kind == KRoot then [LVars] else [];
    if x in f.order && x in f.definite {
      assert Chain(fs, x) == own;
    } else {
      var rest := if Cut(f) then [] else Chain(fs.below, x);
      assert Chain(fs, x) == own + (mid + rest);
      if !Cut(f) {
        ChainGet(fs.below, s, vars, x);
      }
      LinksSplit(own, mid + rest, s, vars, x);
      LinksSplit(mid, rest, s, vars, x);
      OwnLinks(f, own, mid, s, vars, x);
    }
  }

  // The links of one frame find its own binding.
  lemma OwnLinks(f: CFrame, own: seq<Link>, mid: seq<Link>, s: State, vars: Vars, x: string)
    requires x == "loop" ==> !InlineFrame(f)
    requires own == if x in f.order then [LBind(x, f.id, x in f.definite)] else []
    requires mid == if f.kind == KWith || f.kind == KOnly then [LWith(f.withG)] else if f.kind
        == KRoot then [LVars] else []
    requires TopReady(f, s, {}) && !(x in f.order && x in f.definite)
    ensures Own(f, s, vars, x) == if LinksGet(own, s, vars, x).Some? then LinksGet(own, s, vars, x) else LinksGet(mid,
        s, vars, x)
  {
    if own != [] { assert own[1..] == []; }
    if mid != [] { assert mid[1..] == []; }
  }

  lemma {:induction false} LinksSplit(a: seq<Link>, b: seq<Link>, s: State, vars: Vars, x: string)
    ensures LinksGet(a + b, s, vars, x) == (if LinksGet(a, s, vars, x).Some? then LinksGet(a, s, vars, x)
                                            else LinksGet(b, s, vars, x))
  {
    if a == [] {
      assert a + b == b;
    } else {
      assert (a + b)[1..] == a[1..] + b;
      LinksSplit(a[1..], b, s, vars, x);
    }
  }

  predicate LinkWithin(l: Link, n: nat) {
    (l.LWith? ==> Within(l.g, n)) && (l.LLoop? ==> Within(l.v, n))
  }

  ghost predicate LinksWithin(ls: seq<Link>, n: nat) {
    forall i :: 0 <= i < |ls| ==> LinkWithin(ls[i], n)
  }

  lemma {:induction false} ChainWithin(fs: Frames, x: string, n: nat, m: nat)
    requires StackOK(fs, n, m)
    ensures LinksWithin(Chain(fs, x), n) && LinksFor(Chain(fs, x), x)
  {
    if fs.below.Frames? { ChainWithin(fs.below, x, n, fs.f.id - 1); }
  }

  lemma LinkStable(l: Link, a: State, b: State, vars: Vars, x: string, n: nat)
    requires TmpsOnly(a, b, n) && LinkWithin(l, n)
    ensures LinkGet(l, a, vars, x) == LinkGet(l, b, vars, x)
  {
    if l.LWith? { GValStable(l.g, a, b, vars, n); }
    if l.LLoop? { GValStable(l.v, a, b, vars, n); }
  }

  lemma {:induction false} LinksStable(ls: seq<Link>, a: State, b: State, vars: Vars, x: string, n: nat)
    requires TmpsOnly(a, b, n) && LinksWithin(ls, n)
    ensures LinksGet(ls, a, vars, x) == LinksGet(ls, b, vars, x)
  {
    if ls != [] {
      LinkStable(ls[0], a, b, vars, x, n);
      LinksStable(ls[1..], a, b, vars, x, n);
    }
  }

  function LinkCode(l: Link, x: string, val: nat, found: nat): Instr {
    Branch(LinkCond(l, x, found), [SetTmp(val, LinkVal(l, x)), SetTmp(found, GConst(Bool(true)))], [])
  }

  // The state after one link: the name found here, unless it was found already.
  ghost function AfterLink(l: Link, x: string, val: nat, found: nat, s: State, vars: Vars): State {
    if Tmp(s, found) == Bool(false) && LinkGet(l, s, vars, x).Some? then
      PutTmp(PutTmp(s, val, LinkGet(l, s, vars, x).value), found, Bool(true))
    else s
  }

  lemma RunLink(l: Link, x: string, val: nat, found: nat, s: State, vars: Vars)
    requires val != found && Tmp(s, found).Bool? && (l.LBind? && l.definite ==> l.x == x)
    ensures Step(LinkCode(l, x, val, found), s, vars) == ROk(AfterLink(l, x, val, found, s, vars))
  {
    assert CVal(CFalsy(GTmp(found)), s, vars) == !Tmp(s, found).b;
    assert CVal(LinkCond(l, x, found), s, vars) == (!Tmp(s, found).b && LinkGet(l, s, vars, x).Some?);
    if CVal(LinkCond(l, x, found), s, vars) {
      assert GVal(LinkVal(l, x), s, vars) == LinkGet(l, s, vars, x).value;
      RunTwo(SetTmp(val, LinkVal(l, x)), SetTmp(found, GConst(Bool(true))), s, vars);
    }
  }

  ghost predicate LinksFor(ls: seq<Link>, x: string) {
    forall i :: 0 <= i < |ls| ==> (ls[i].LBind? ==> ls[i].x == x)
  }

  // The guarded assignments find the first binding link, unless one was found already.
  lemma {:induction false} RunLinks(ls: seq<Link>, x: string, val: nat, found: nat, s: State, vars: Vars, n: nat)
    returns (s': State)
    requires n <= val && n <= found && val != found && LinksWithin(ls, n) && LinksFor(ls, x)
    requires Tmp(s, found).Bool?
    ensures Run(EmitLinks(ls, x, val, found), s, vars) == ROk(s')
    ensures TmpsOnly(s, s', n)
    ensures Tmp(s, found).b ==> Tmp(s', val) == Tmp(s, val) && Tmp(s', found) == Tmp(s, found)
    ensures !Tmp(s, found).b ==>
      var r := LinksGet(ls, s, vars, x);
      Tmp(s', found) == Bool(r.Some?) && Tmp(s', val) == r.GetOr(Tmp(s, val))
  {
    if ls == [] {
      s' := s;
    } else {
      var s1 := AfterLink(ls[0], x, val, found, s, vars);
      RunLink(ls[0], x, val, found, s, vars);
      LinksStable(ls[1..], s, s1, vars, x, n);
      s' := RunLinks(ls[1..], x, val, found, s1, vars, n);
      assert EmitLinks(ls, x, val, found) == [LinkCode(ls[0], x, val, found)] + EmitLinks(ls[1..], x, val, found);
    }
  }

  lemma RunTwo(c: Instr, d: Instr, s: State, vars: Vars)
    requires Step(c, s, vars).ROk?
    ensures Run([c, d], s, vars) == Step(d, Step(c, s, vars).s, vars)
  {
    assert [c, d][1..] == [d];
    RunOne(d, Step(c, s, vars).s, vars);
  }

  // The two-temporary form of a probe.
  lemma RunProbeCode(ls: seq<Link>, x: string, s: State, vars: Vars, n: nat) returns (s': State)
    requires LinksWithin(ls, n) && LinksFor(ls, x)
    ensures Run(ProbeCode(ls, x, n, n + 1), s, vars) == ROk(s') && TmpsOnly(s, s', n)
    ensures var r := LinksGet(ls, s, vars, x);
      Tmp(s', n) == r.GetOr(Null) && Tmp(s', n + 1) == Bool(r.Some?)
  {
    var init := [SetTmp(n, GConst(Null)), SetTmp(n + 1, GConst(Bool(false)))];
    RunTwo(init[0], init[1], s, vars);
    var s1 := PutTmp(PutTmp(s, n, Null), n + 1, Bool(false));
    LinksStable(ls, s, s1, vars, x, n);
    s' := RunLinks(ls, x, n, n + 1, s1, vars, n);
    RunAppend(init, EmitLinks(ls, x, n, n + 1), s, vars);
  }

  // A probe leaves the visible value of the name, and whether there is one.
  lemma RunProbe(x: string, cs: CS, s: State, vars: Vars) returns (s': State)
    requires StackOK(cs.frames, cs.tmpN, cs.frameN) && Ready(cs.frames, s, vars) && Readable(cs.frames, x)
    ensures Run(Probe(x, cs).code, s, vars) == ROk(s') && TmpsOnly(s, s', cs.tmpN)
    ensures Within(Probe(x, cs).g, Probe(x, cs).cs.tmpN)
    ensures GVal(Probe(x, cs).g, s', vars) == CGet(cs.frames, s, vars, x).GetOr(Null)
    ensures !Terminal(cs.frames, x) ==> Tmp(s', cs.tmpN + 1) == Bool(CGet(cs.frames, s, vars, x).Some?)
    ensures Terminal(cs.frames, x) ==> CGet(cs.frames, s, vars, x).Some?
  {
    var ls := Chain(cs.frames, x);
    ChainGet(cs.frames, s, vars, x);
    if Terminal(cs.frames, x) && |ls| == 1 {
      s' := s;
      assert ls[1..] == [];
      SingleTerminal(cs.frames, x);
      assert LinkGet(ls[0], s, vars, x) == Some(VarVal(s, x, ls[0].fid));
    } else {
      ChainWithin(cs.frames, x, cs.tmpN, cs.frameN);
      s' := RunProbeCode(ls, x, s, vars, cs.tmpN);
    }
  }

  // What the invariant says of one name.
  lemma InvGet(cs: CS, sc: Scope, s: State, vars: Vars, x: string)
    requires Inv(cs, sc, s, vars)
    ensures Ready(cs.frames, s, vars) && Get(sc, x) == CGet(cs.frames, s, vars, x)
  {
    AgreeReady(sc, cs.frames, s, vars);
  }

  lemma {:induction false} SingleTerminal(fs: Frames, x: string)
    requires Terminal(fs, x) && |Chain(fs, x)| == 1
    ensures var l := Chain(fs, x)[0]; l.LBind? && l.definite && l.x == x
  {
    if !(x in fs.f.order && x in fs.f.definite) {
      TerminalNonEmpty(fs.below, x);
      SingleTerminal(fs.below, x);
    }
  }

  lemma {:induction false} TerminalNonEmpty(fs: Frames, x: string)
    requires Terminal(fs, x)
    ensures Chain(fs, x) != []
  {
    if !(x in fs.f.order && x in fs.f.definite) { TerminalNonEmpty(fs.below, x); }
  }

  // ----- the parent probe -----

  lemma {:induction false} ParentWithin(fs: Frames, n: nat, m: nat)
    requires StackOK(fs, n, m)
    ensures LinksWithin(ParentChain(fs), n) && LinksFor(ParentChain(fs), "loop")
  {
    if fs.below.Frames? { ParentWithin(fs.below, n, fs.f.id - 1); }
  }

  // The parent probe finds the loop value visible at the loop's entry, inline loops included.
  lemma {:induction false} ParentGet(fs: Frames, s: State, vars: Vars, n: nat, m: nat)
    requires Ready(fs, s, vars) && StackOK(fs, n, m)
    ensures LinksGet(ParentChain(fs), s, vars, "loop") == CGet(fs, s, vars, "loop")
  {
    var f := fs.f;
    var own := if "loop" in f.order then [LBind("loop", f.id, "loop" in f.definite)] else [];
    var mid := if f.kind == KWith || f.kind == KOnly then [LWith(f.withG)] else if f.kind == KRoot then [LVars] else [];
    if "loop" in f.order && (f.kind == KLoop || "loop" in f.definite) {
      assert ParentChain(fs)[1..] == [];
    } else {
      var rest := if Cut(f) then [] else ParentChain(fs.below);
      assert ParentChain(fs) == own + (mid + rest);
      if !Cut(f) { ParentGet(fs.below, s, vars, n, f.id - 1); }
      LinksSplit(own, mid + rest, s, vars, "loop");
      LinksSplit(mid, rest, s, vars, "loop");
      OwnLinks(f, own, mid, s, vars, "loop");
    }
  }
}
